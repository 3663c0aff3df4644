/** Passes over time: a second pass right after the first, and any run of passes and ends. */
module AgentPoolRuns {
  import opened AgentPool
  import opened AgentPoolLaws

  // ----- a second pass in the same hour ---------------------------------------------------------

  /** In numbers: once what was filled is at work, the same places are held again and none is filled,
      where the room is what the first pass left and what the limit holds. */
  lemma SizesAgain(need: int, early: nat, predecessors: nat, allowed: nat, capped: bool, room: int, room': int)
    requires var z := SizesOf(need, early, predecessors, allowed, capped, room);
             capped ==> need >= 0 && if room < 0 then room' == room
                                     else room' >= z.taken - z.replaced && (z.fits < need - z.early ==> room' == z.taken - z.replaced)
    ensures var z := SizesOf(need, early, predecessors, allowed, capped, room);
            var z' := SizesOf(need - z.replaced - z.gained, early, predecessors - z.replaced, allowed - z.replaced, capped, room');
            && z'.early == z.early && z'.taken == z.taken - z.replaced && z'.replaced == 0 && z'.gained == 0
            && z'.fits == if z.fits >= 0 then z.taken - z.replaced else z.fits
  {
  }

  /** What a second pass does for an entry the first was applied to: it holds the same places again
      and fills none. */
  lemma EntryAgain(e: Entry, k: AtKey, room: int, room': int)
    requires DistinctIds(k.ended)
    requires e.Key().Researches() || SameOrExhausted(e, k, room, room')
    ensures var f := FillOf(e, k.atWork, k.ended, k.recent, room);
            var k' := Applied(k, f);
            var f' := FillOf(e, k'.atWork, k'.ended, k'.recent, room');
            && f'.early == f.early && f'.limited == f.limited && f'.replaced == [] && f'.gained == 0
            && f'.fits == if f.fits >= 0 then |f.limited| else f.fits
  {
    hide SizesOf, Predecessors, EarlyIds, Without;
    var f := FillOf(e, k.atWork, k.ended, k.recent, room);
    var early, predecessors := EarlyIds(k.ended), Predecessors(k.ended);
    WithoutPrefix(k.ended, f.replaced);
    SizesAgain(e.count - k.atWork, |early|, |predecessors|, Allowed(k.recent), !e.Key().Researches(), room, room');
    var k' := Applied(k, f);
    assert e.count - k'.atWork == e.count - k.atWork - |f.replaced| - f.gained;
    assert Allowed(k'.recent) == Allowed(k.recent) - |f.replaced|;
    assert predecessors[|f.replaced|..][..|f.limited|] == f.limited;
  }

  /** How the room of the second pass stands to that of the first at an executor's entry: the same
      below zero, and otherwise enough for what the limit holds of it and no more than that where
      the first pass ran out of room. */
  ghost predicate SameOrExhausted(e: Entry, k: AtKey, room: int, room': int) {
    var f := FillOf(e, k.atWork, k.ended, k.recent, room);
    && k.atWork <= e.count
    && if room < 0 then room' == room
       else room' >= |f.limited| && (f.fits < e.count - k.atWork - |f.early| ==> room' == |f.limited|)
  }

  /** The room a pass leaves, and what the hourly limit holds of the executors' places. */
  function RoomLeft(pool: Pool, s: Counts, room: int): int {
    if |pool| == 0 then room
    else RoomLeft(pool[1..], s, RoomAfter(pool[0], FillAt(pool[0], s, room), room))
  }

  function LimitedExecutors(pool: Pool, s: Counts, room: int): nat {
    if |pool| == 0 then 0 else
    var f := FillAt(pool[0], s, room);
    (if pool[0].Key().Researches() then 0 else |f.limited|)
    + LimitedExecutors(pool[1..], s, RoomAfter(pool[0], f, room))
  }

  ghost predicate EndedOnce(s: Counts) { forall key :: key in s.ended ==> DistinctIds(s.ended[key]) }

  /** The counts of every entry are those the first pass left. */
  ghost predicate FirstPassAt(pool: Pool, s: Counts, s': Counts, fills: seq<Fill>)
    requires |pool| == |fills|
  {
    forall i :: 0 <= i < |pool| ==> OfKey(s', pool[i].Key()) == Applied(OfKey(s, pool[i].Key()), fills[i])
  }

  /** With no entry overfull and room to begin with, what is taken of the room is what is added and
      what the limit holds; a pass that runs out of room gives the entries after it nothing. */
  lemma {:induction false} RoomAccounts(pool: Pool, s: Counts, room: int)
    requires NoneOverfull(pool, s.atWork) && room >= 0
    ensures RoomLeft(pool, s, room) >= 0
    ensures ExecutorsAdded(pool, Fills(pool, s, room)) + LimitedExecutors(pool, s, room) + RoomLeft(pool, s, room) == room
  {
    if |pool| > 0 {
      var e := pool[0];
      FillFacts(e, At(s.atWork, e.Key()), EndedOf(s.ended, e.Key()), At(s.recent, e.Key()), room);
      TailNotOverfull(pool, s.atWork);
      hide FillOf;
      RoomAccounts(pool[1..], s, RoomAfter(e, FillAt(e, s, room), room));
    }
  }

  lemma TailNotOverfull(pool: Pool, atWork: map<PoolKey, int>)
    requires |pool| > 0 && NoneOverfull(pool, atWork)
    ensures NoneOverfull(pool[1..], atWork)
    ensures !pool[0].Key().Researches() ==> At(atWork, pool[0].Key()) <= pool[0].count
  {
    assert forall i :: 0 <= i < |pool[1..]| ==> pool[1..][i] == pool[i + 1];
  }

  /** The room of the second pass at a point of the pool, given that of the first. */
  function RoomAgain(pool: Pool, s: Counts, room: int): int {
    if room < 0 then room else RoomLeft(pool, s, room) + LimitedExecutors(pool, s, room)
  }

  /** What an executor's entry that is not overfull takes of the room: all there is, or what it wants. */
  lemma ExecutorFits(e: Entry, k: AtKey, room: int)
    requires !e.Key().Researches() && k.atWork <= e.count
    ensures var f := FillOf(e, k.atWork, k.ended, k.recent, room);
            && f.fits == Min(room, e.count - k.atWork - |f.early|)
            && e.count - k.atWork - |f.early| >= 0
            && (f.fits <= 0 ==> f.limited == [])
            && (f.fits >= 0 ==> |f.limited| <= f.fits)
  {
    hide SizesOf, EarlyIds, Predecessors, Allowed;
    SizesFit(e.count - k.atWork, |EarlyIds(k.ended)|, |Predecessors(k.ended)|, Allowed(k.recent), room);
  }

  /** The same in numbers. */
  lemma SizesFit(need: int, early: nat, predecessors: nat, allowed: nat, room: int)
    requires need >= 0
    ensures var z := SizesOf(need, early, predecessors, allowed, true, room);
            && z.fits == Min(room, need - z.early) && need - z.early >= 0
            && (z.fits <= 0 ==> z.taken == 0) && (z.fits >= 0 ==> z.taken <= z.fits)
  {
  }

  lemma AgainAtEntry(pool: Pool, s: Counts, room: int)
    requires |pool| > 0 && NoneOverfull(pool, s.atWork) && !pool[0].Key().Researches()
    ensures var e := pool[0];
            SameOrExhausted(e, OfKey(s, e.Key()), room, RoomAgain(pool, s, room))
    ensures var e := pool[0];
            var f := FillAt(e, s, room);
            RoomAgain(pool[1..], s, RoomAfter(e, f, room))
            == RoomAgain(pool, s, room) - if f.fits >= 0 then |f.limited| else f.fits
  {
    hide FillOf;
    var e := pool[0];
    var room' := RoomAfter(e, FillAt(e, s, room), room);
    TailNotOverfull(pool, s.atWork);
    ExecutorFits(e, OfKey(s, e.Key()), room);
    NothingFits(pool[1..], s);
    if room' >= 0 {
      RoomAccounts(pool[1..], s, room');
    }
  }

  lemma AgainPastResearchers(pool: Pool, s: Counts, room: int)
    requires |pool| > 0 && pool[0].Key().Researches()
    ensures RoomAgain(pool[1..], s, room) == RoomAgain(pool, s, room)
  {
    hide FillAt;
  }

  /** With no room and nobody overfull nothing is held for the limit and no room is left. */
  lemma {:induction false} NothingFits(pool: Pool, s: Counts)
    requires NoneOverfull(pool, s.atWork)
    ensures RoomLeft(pool, s, 0) == 0 && LimitedExecutors(pool, s, 0) == 0
  {
    RoomAccounts(pool, s, 0);
  }

  /** The second pass at the first entry, and the room it leaves the entries after it. */
  lemma HeadAgain(pool: Pool, s: Counts, s': Counts, room: int)
    requires |pool| > 0 && EndedOnce(s) && NoneOverfull(pool, s.atWork)
    requires OfKey(s', pool[0].Key()) == Applied(OfKey(s, pool[0].Key()), FillAt(pool[0], s, room))
    ensures var e := pool[0];
            var f, f' := FillAt(e, s, room), FillAt(e, s', RoomAgain(pool, s, room));
            && PlacesOf(e, f') == [] && HoldsOf(e, f') == HoldsOf(e, f)
            && RoomAfter(e, f', RoomAgain(pool, s, room)) == RoomAgain(pool[1..], s, RoomAfter(e, f, room))
  {
    hide FillOf, SameOrExhausted, RoomAgain;
    var e := pool[0];
    var k := OfKey(s, e.Key());
    assert DistinctIds(k.ended);
    if e.Key().Researches() {
      AgainPastResearchers(pool, s, room);
    } else {
      AgainAtEntry(pool, s, room);
    }
    EntryAgain(e, k, room, RoomAgain(pool, s, room));
  }

  /** The second pass, entry by entry. */
  lemma {:induction false} PassAgain(pool: Pool, s: Counts, s': Counts, room: int)
    requires EndedOnce(s) && NoneOverfull(pool, s.atWork)
    requires FirstPassAt(pool, s, s', Fills(pool, s, room))
    ensures var again := Fills(pool, s', RoomAgain(pool, s, room));
            AllPlaces(pool, again) == [] && AllHolds(pool, again) == AllHolds(pool, Fills(pool, s, room))
  {
    hide FillAt, PlacesOf, HoldsOf, RoomAfter, RoomAgain, FirstPassAt, NoneOverfull;
    if |pool| > 0 {
      var e, rest := pool[0], pool[1..];
      var f := FillAt(e, s, room);
      FirstPassTail(pool, s, s', Fills(pool, s, room));
      HeadAgain(pool, s, s', room);
      TailNotOverfull(pool, s.atWork);
      assert Fills(pool, s, room)[1..] == Fills(rest, s, RoomAfter(e, f, room));
      PassAgain(rest, s, s', RoomAfter(e, f, room));
    }
  }

  lemma FirstPassTail(pool: Pool, s: Counts, s': Counts, fills: seq<Fill>)
    requires |pool| == |fills| > 0 && FirstPassAt(pool, s, s', fills)
    ensures FirstPassAt(pool[1..], s, s', fills[1..])
    ensures OfKey(s', pool[0].Key()) == Applied(OfKey(s, pool[0].Key()), fills[0])
  {
    forall i | 0 <= i < |pool[1..]|
      ensures OfKey(s', pool[1..][i].Key()) == Applied(OfKey(s, pool[1..][i].Key()), fills[1..][i])
    {
      assert pool[1..][i] == pool[i + 1];
    }
  }

  /** Quiescence: once every place of a pass is filled, a second pass in the same hour fills none and
      holds the very places the first held, for the same reasons. It asks for distinct keys and that
      no executor entry was overfull. */
  lemma PassIsQuiescent(pool: Pool, maxAgents: int, s: Counts)
    requires DistinctKeys(pool) && EndedOnce(s) && NoneOverfull(pool, s.atWork)
    ensures var fills := Fills(pool, s, Room(maxAgents, s));
            var s' := ApplyPlaces(s, AllPlaces(pool, fills));
            var again := Fills(pool, s', Room(maxAgents, s'));
            AllPlaces(pool, again) == [] && AllHolds(pool, again) == AllHolds(pool, fills)
  {
    hide ApplyPlaces;
    var room := Room(maxAgents, s);
    var fills := Fills(pool, s, room);
    var s' := ApplyAll(pool, fills, s);
    forall i | 0 <= i < |pool|
      ensures OfKey(s', pool[i].Key()) == Applied(OfKey(s, pool[i].Key()), fills[i])
    {
      ApplyAllAt(pool, fills, s, i);
    }
    ApplyAllTally(pool, fills, s);
    if room >= 0 {
      RoomAccounts(pool, s, room);
    } else {
      AddedWithinRoom(pool, s, room);
      NoSurplus(pool, s.atWork);
    }
    assert Room(maxAgents, s') == RoomAgain(pool, s, room);
    PassAgain(pool, s, s', room);
  }

  // ----- runs of passes and ends ----------------------------------------------------------------

  /** The counts a pass reads, and beside them every agent that ever ended and every agent whose place
      was ever taken, by key, in order. */
  datatype Team = Team(s: Counts, past: map<PoolKey, seq<EndedPlace>>, replaced: map<PoolKey, seq<string>>)

  datatype Step =
    | DoPass(pool: Pool, maxAgents: int)
    | DoEnd(key: PoolKey, agentID: string, early: bool)
    | DoChange(atWork: map<PoolKey, int>, recent: map<PoolKey, int>)

  function ReplacedOf(m: map<PoolKey, seq<string>>, key: PoolKey): seq<string> { if key in m then m[key] else [] }

  /** Each agent an answer names joins those replaced, in order. */
  function AddNamed(m: map<PoolKey, seq<string>>, places: seq<Place>): map<PoolKey, seq<string>> {
    if |places| == 0 then m else
    var before, p := AddNamed(m, places[..|places| - 1]), places[|places| - 1];
    var key := p.entry.Key();
    if p.taking.PlaceOf? then before[key := ReplacedOf(before, key) + [p.taking.agentID]] else before
  }

  ghost predicate EverEnded(t: Team, id: string) {
    exists key :: key in t.past && Among(id, t.past[key])
  }

  /** A pass is applied as it was answered; an agent ends once; agents join and leave, and the last hour
      moves on, as they may. */
  ghost function Next(t: Team, step: Step): Team {
    match step
    case DoPass(pool, maxAgents) =>
      var places := AllPlaces(pool, Fills(pool, t.s, Room(maxAgents, t.s)));
      t.(s := ApplyPlaces(t.s, places), replaced := AddNamed(t.replaced, places))
    case DoEnd(key, id, early) =>
      if EverEnded(t, id) then t else
      var place := EndedPlace(id, early);
      t.(s := t.s.(atWork := t.s.atWork[key := At(t.s.atWork, key) - 1],
                   ended := t.s.ended[key := EndedOf(t.s.ended, key) + [place]]),
         past := t.past[key := EndedOf(t.past, key) + [place]])
    case DoChange(atWork, recent) => t.(s := t.s.(atWork := atWork, recent := recent))
  }

  ghost function After(t: Team, steps: seq<Step>): Team {
    if |steps| == 0 then t else Next(After(t, steps[..|steps| - 1]), steps[|steps| - 1])
  }

  /** What is kept for each key: the places taken so far, and the agents still to be replaced, are in
      order the agents that ever ended and not early. */
  ghost predicate KeyInv(past: seq<EndedPlace>, ended: seq<EndedPlace>, replaced: seq<string>) {
    && DistinctIds(past) && DistinctIds(ended)
    && Predecessors(past) == replaced + Predecessors(ended)
    && (forall id :: Among(id, ended) ==> Among(id, past))
  }

  ghost predicate Inv(t: Team) {
    && (forall key: PoolKey :: KeyInv(EndedOf(t.past, key), EndedOf(t.s.ended, key), ReplacedOf(t.replaced, key)))
    && (forall k1: PoolKey, k2: PoolKey, id ::
          k1 != k2 && Among(id, EndedOf(t.past, k1)) ==> !Among(id, EndedOf(t.past, k2)))
  }

  lemma {:induction false} WithoutAmong(ended: seq<EndedPlace>, gone: seq<string>)
    requires DistinctIds(ended)
    ensures DistinctIds(Without(ended, gone))
    ensures forall id :: Among(id, Without(ended, gone)) ==> Among(id, ended)
  {
    if |ended| > 0 {
      var n := |ended| - 1;
      WithoutAmong(ended[..n], gone);
      assert forall i :: 0 <= i < n ==> ended[..n][i] == ended[i];
      assert forall id :: Among(id, ended[..n]) ==> Among(id, ended) && id != ended[n].agentID;
      var kept := Without(ended[..n], gone);
      assert forall i :: 0 <= i < |kept| ==> Among(kept[i].agentID, kept);
    }
  }

  lemma PassKeepsKey(e: Entry, past: seq<EndedPlace>, k: AtKey, replaced: seq<string>, room: int)
    requires KeyInv(past, k.ended, replaced)
    ensures var f := FillOf(e, k.atWork, k.ended, k.recent, room);
            KeyInv(past, Applied(k, f).ended, replaced + f.replaced)
  {
    hide SizesOf, Predecessors, Without, DistinctIds, Among;
    var f := FillOf(e, k.atWork, k.ended, k.recent, room);
    WithoutPrefix(k.ended, f.replaced);
    WithoutAmong(k.ended, f.replaced);
    assert f.replaced + Predecessors(k.ended)[|f.replaced|..] == Predecessors(k.ended);
  }

  lemma {:induction false} AddNamedAt(m: map<PoolKey, seq<string>>, places: seq<Place>, key: PoolKey)
    ensures ReplacedOf(AddNamed(m, places), key) == ReplacedOf(m, key) + NamedIn(places, key)
  {
    if |places| > 0 { AddNamedAt(m, places[..|places| - 1], key); }
  }

  /** Each entry of a pass is filled by its own counts, at some room. */
  lemma {:induction false} FillsAt(pool: Pool, s: Counts, room: int, i: nat) returns (r: int)
    requires i < |pool|
    ensures Fills(pool, s, room)[i] == FillAt(pool[i], s, r)
  {
    if i == 0 {
      r := room;
    } else {
      r := FillsAt(pool[1..], s, RoomAfter(pool[0], FillAt(pool[0], s, room), room), i - 1);
    }
  }

  lemma PassKeepsInv(t: Team, pool: Pool, maxAgents: int)
    requires Inv(t) && DistinctKeys(pool)
    ensures Inv(Next(t, DoPass(pool, maxAgents)))
  {
    hide KeyInv, FillOf, Among, ApplyPlaces, AddNamed, NamedIn, PlacesIn, AllPlaces;
    var fills := Fills(pool, t.s, Room(maxAgents, t.s));
    var t' := Next(t, DoPass(pool, maxAgents));
    forall key: PoolKey
      ensures KeyInv(EndedOf(t'.past, key), EndedOf(t'.s.ended, key), ReplacedOf(t'.replaced, key))
    {
      if i :| 0 <= i < |pool| && pool[i].Key() == key {
        ApplyAllAt(pool, fills, t.s, i);
        AddNamedAt(t.replaced, AllPlaces(pool, fills), key);
        PlacedAt(pool, fills, i);
        var r := FillsAt(pool, t.s, Room(maxAgents, t.s), i);
        PassKeepsKey(pool[i], EndedOf(t.past, key), OfKey(t.s, key), ReplacedOf(t.replaced, key), r);
      } else {
        ApplyAllElsewhere(pool, fills, t.s, key);
        AddNamedAt(t.replaced, AllPlaces(pool, fills), key);
        PlacedElsewhere(pool, fills, key);
        assert ReplacedOf(t.replaced, key) + [] == ReplacedOf(t.replaced, key);
      }
    }
  }

  lemma EndKeepsKey(past: seq<EndedPlace>, ended: seq<EndedPlace>, replaced: seq<string>, place: EndedPlace)
    requires KeyInv(past, ended, replaced) && !Among(place.agentID, past)
    ensures KeyInv(past + [place], ended + [place], replaced)
    ensures forall id :: Among(id, past + [place]) <==> Among(id, past) || id == place.agentID
  {
    hide Among, DistinctIds, Predecessors;
    PredecessorsAppend(past, place);
    PredecessorsAppend(ended, place);
    AmongAppend(past, place);
    AmongAppend(ended, place);
  }

  lemma PredecessorsAppend(ended: seq<EndedPlace>, place: EndedPlace)
    ensures Predecessors(ended + [place]) == Predecessors(ended) + if place.early then [] else [place.agentID]
  {
    assert (ended + [place])[..|ended|] == ended;
  }

  lemma AmongAppend(ended: seq<EndedPlace>, place: EndedPlace)
    ensures forall id :: Among(id, ended + [place]) <==> Among(id, ended) || id == place.agentID
    ensures DistinctIds(ended) && !Among(place.agentID, ended) ==> DistinctIds(ended + [place])
  {
    var all := ended + [place];
    assert all[|ended|] == place;
    assert forall i :: 0 <= i < |ended| ==> all[i] == ended[i];
  }

  lemma EndKeepsInv(t: Team, key: PoolKey, id: string, early: bool)
    requires Inv(t)
    ensures Inv(Next(t, DoEnd(key, id, early)))
  {
    hide KeyInv, Among;
    if !EverEnded(t, id) {
      assert forall k: PoolKey :: !Among(id, EndedOf(t.past, k)) by { NotAmongNone(t, id); }
      EndKeepsKey(EndedOf(t.past, key), EndedOf(t.s.ended, key), ReplacedOf(t.replaced, key), EndedPlace(id, early));
    }
  }

  lemma NotAmongNone(t: Team, id: string)
    requires !EverEnded(t, id)
    ensures forall k: PoolKey :: !Among(id, EndedOf(t.past, k))
  {
  }

  ghost predicate DistinctPools(steps: seq<Step>) {
    forall i :: 0 <= i < |steps| && steps[i].DoPass? ==> DistinctKeys(steps[i].pool)
  }

  lemma {:induction false} AfterKeepsInv(t: Team, steps: seq<Step>)
    requires Inv(t) && DistinctPools(steps)
    ensures Inv(After(t, steps))
  {
    hide Inv, Next;
    if |steps| > 0 {
      var n := |steps| - 1;
      AfterKeepsInv(t, steps[..n]);
      NextKeepsInv(After(t, steps[..n]), steps[n]);
    }
  }

  lemma NextKeepsInv(t: Team, step: Step)
    requires Inv(t) && (step.DoPass? ==> DistinctKeys(step.pool))
    ensures Inv(Next(t, step))
  {
    hide KeyInv, Among;
    match step
    case DoPass(pool, maxAgents) => PassKeepsInv(t, pool, maxAgents);
    case DoEnd(key, id, early) => EndKeepsInv(t, key, id, early);
    case DoChange(_, _) =>
  }

  /** The agents of a key whose places were taken: the first of those that ended and not early, in
      order, each once, none of them one that ended early. */
  ghost predicate ReplacedInTurn(t: Team, key: PoolKey) {
    var ids, past := ReplacedOf(t.replaced, key), EndedOf(t.past, key);
    && ids <= Predecessors(past)
    && (forall i, j :: 0 <= i < j < |ids| ==> ids[i] != ids[j])
    && (forall id :: id in ids ==> id !in EarlyIds(past) && Among(id, past))
  }

  /** Over any run from a team nobody has left, whatever joins, leaves and passes there are, agents are
      replaced in turn, none twice, under one key or two, and none that ended early. */
  lemma ReplacedOnce(start: Team, steps: seq<Step>)
    requires start.past == map[] && start.s.ended == map[] && start.replaced == map[] && DistinctPools(steps)
    ensures var t := After(start, steps);
            && (forall key: PoolKey :: ReplacedInTurn(t, key))
            && (forall k1: PoolKey, k2: PoolKey, id ::
                  k1 != k2 && id in ReplacedOf(t.replaced, k1) ==> id !in ReplacedOf(t.replaced, k2))
  {
    assert Inv(start);
    hide Inv, After;
    AfterKeepsInv(start, steps);
    InvMeans(After(start, steps));
  }

  lemma InvMeans(t: Team)
    requires Inv(t)
    ensures forall key: PoolKey :: ReplacedInTurn(t, key)
    ensures forall k1: PoolKey, k2: PoolKey, id ::
              k1 != k2 && id in ReplacedOf(t.replaced, k1) ==> id !in ReplacedOf(t.replaced, k2)
  {
    hide Predecessors, EarlyIds, Among, KeyInv;
    forall key: PoolKey
      ensures ReplacedInTurn(t, key)
    {
      KeyMeans(EndedOf(t.past, key), EndedOf(t.s.ended, key), ReplacedOf(t.replaced, key));
    }
    forall k1: PoolKey, k2: PoolKey, id | k1 != k2 && id in ReplacedOf(t.replaced, k1)
      ensures id !in ReplacedOf(t.replaced, k2)
    {
      assert ReplacedInTurn(t, k1) && ReplacedInTurn(t, k2);
    }
  }

  lemma KeyMeans(past: seq<EndedPlace>, ended: seq<EndedPlace>, ids: seq<string>)
    requires KeyInv(past, ended, ids)
    ensures ids <= Predecessors(past)
    ensures forall i, j :: 0 <= i < j < |ids| ==> ids[i] != ids[j]
    ensures forall id :: id in ids ==> id !in EarlyIds(past) && Among(id, past)
  {
    hide Predecessors, EarlyIds, Among, DistinctIds;
    IdsOnce(past);
    IdsAmong(past);
    assert forall i :: 0 <= i < |ids| ==> Predecessors(past)[i] == ids[i];
    assert forall id :: id in ids ==> id in Predecessors(past);
  }

  // ----- an overfull entry ----------------------------------------------------------------------

  /** Counts with nobody ended: an entry takes what it wants of the room. */
  lemma FillWithNobodyEnded(e: Entry, atWork: int, recent: int, room: int)
    requires !e.Key().Researches()
    ensures var fits := Min(e.count - atWork, room);
            FillOf(e, atWork, [], recent, room) == Fill([], [], [], Max(0, fits), fits)
  {
  }

  const FIRST := Entry("first", "", "", 10)
  const OVERFULL := Entry("overfull", "", "", 1)
  const LAST := Entry("last", "", "", 10)
  const CROWDED := [FIRST, OVERFULL, LAST]

  /** So many of the first and last entries at work, the middle one overfull by two, nobody ended. */
  ghost predicate Crowd(s: Counts, first: int, last: int) {
    && OfKey(s, FIRST.Key()) == AtKey(first, [], 0)
    && OfKey(s, OVERFULL.Key()) == AtKey(3, [], 0)
    && OfKey(s, LAST.Key()) == AtKey(last, [], 0)
    && Tally(s.atWork, false) == first + 3 + last
  }

  /** Nobody but three of the entry that wants one. */
  const AT_FIRST := Counts(map[OVERFULL.Key() := 3], map[], map[])

  lemma CrowdAtFirst()
    ensures Crowd(AT_FIRST, 0, 0)
  {
    var m := map[OVERFULL.Key() := 3];
    TallyAny(m, OVERFULL.Key(), false);
    assert m - {OVERFULL.Key()} == map[];
  }

  /** What the three entries are given in one pass of five agents at most. */
  lemma CrowdFills(s: Counts, first: int, last: int)
    requires Crowd(s, first, last) && 0 <= first <= 8 && 0 <= last <= 8
    ensures var room := 2 - first - last;
            Room(5, s) == room && Fills(CROWDED, s, room)
              == [Fill([], [], [], Max(0, room), room), Fill([], [], [], 0, -2), Fill([], [], [], 2, 2)]
  {
    var room := 2 - first - last;
    hide FillOf, Tally;
    FillWithNobodyEnded(FIRST, first, 0, room);
    FillWithNobodyEnded(OVERFULL, 3, 0, 0);
    FillWithNobodyEnded(LAST, last, 0, 2);
    assert CROWDED[1..] == [OVERFULL, LAST] && CROWDED[1..][1..] == [LAST] && CROWDED[1..][1..][1..] == [];
    assert Fills([LAST], s, 2) == [FillAt(LAST, s, 2)];
    assert Fills([OVERFULL, LAST], s, 0) == [FillAt(OVERFULL, s, 0)] + Fills([LAST], s, 2);
  }

  /** With an overfull entry between two others a pass is neither capped nor quiescent: of five agents
      at most and three at work, all beyond the entry's own count, the first pass takes the executors
      to seven, which is all the bound allows, and every pass after it adds two more while the last
      entry wants them. */
  lemma {:induction false} OverfullGrows(s: Counts, first: int, last: int)
    requires Crowd(s, first, last) && 0 <= first <= 8 && 0 <= last <= 8
    ensures var fills := Fills(CROWDED, s, Room(5, s));
            && ExecutorsAdded(CROWDED, fills) == Max(0, 2 - first - last) + 2
            && Surplus(CROWDED, s.atWork) == 2
            && Crowd(ApplyAll(CROWDED, fills, s), first + Max(0, 2 - first - last), last + 2)
  {
    hide FillOf, Tally, ApplyAll, ExecutorsAdded, Surplus;
    CrowdFills(s, first, last);
    CrowdAdded(s, Fills(CROWDED, s, Room(5, s)));
    CrowdApplied(s, first, last, Fills(CROWDED, s, Room(5, s)));
  }

  /** From three executors at work, of five at most, two passes reach nine. */
  lemma OverfullReachesNine()
    ensures var s := AT_FIRST;
            var s' := ApplyAll(CROWDED, Fills(CROWDED, s, Room(5, s)), s);
            var s'' := ApplyAll(CROWDED, Fills(CROWDED, s', Room(5, s')), s');
            Tally(s.atWork, false) == 3 && Tally(s'.atWork, false) == 7 && Tally(s''.atWork, false) == 9
  {
    hide Fills, ApplyAll, Tally, Room;
    CrowdAtFirst();
    OverfullGrows(AT_FIRST, 0, 0);
    OverfullGrows(ApplyAll(CROWDED, Fills(CROWDED, AT_FIRST, Room(5, AT_FIRST)), AT_FIRST), 2, 2);
  }

  /** Fills that add so many to the first entry and two to the last, with nobody replaced. */
  ghost predicate TwoToLast(fills: seq<Fill>) {
    && |fills| == 3 && fills[1].Added() == 0 && fills[2].Added() == 2
    && fills[0].replaced == [] && fills[1].replaced == [] && fills[2].replaced == []
  }

  lemma {:induction false} CrowdAdded(s: Counts, fills: seq<Fill>)
    requires TwoToLast(fills) && OfKey(s, OVERFULL.Key()).atWork == 3
    requires OfKey(s, FIRST.Key()).atWork <= 10 && OfKey(s, LAST.Key()).atWork <= 10
    ensures ExecutorsAdded(CROWDED, fills) == fills[0].Added() + 2 && Surplus(CROWDED, s.atWork) == 2
  {
    var two, one := CROWDED[1..], CROWDED[1..][1..];
    assert two[0] == OVERFULL && one[0] == LAST && one[1..] == [];
    assert ExecutorsAdded(one, fills[1..][1..]) == 2;
    assert ExecutorsAdded(two, fills[1..]) == 2;
    assert Surplus(one, s.atWork) == 0;
    assert Surplus(two, s.atWork) == 2;
  }

  lemma {:induction false} CrowdApplied(s: Counts, first: int, last: int, fills: seq<Fill>)
    requires Crowd(s, first, last) && TwoToLast(fills) && ExecutorsAdded(CROWDED, fills) == fills[0].Added() + 2
    ensures Crowd(ApplyAll(CROWDED, fills, s), first + fills[0].Added(), last + 2)
  {
    hide ApplyAll, ExecutorsAdded, Tally;
    ApplyAllAt(CROWDED, fills, s, 0);
    ApplyAllAt(CROWDED, fills, s, 1);
    ApplyAllAt(CROWDED, fills, s, 2);
    ApplyAllTally(CROWDED, fills, s);
  }
}
