/** What one pass over a pool keeps, and what filling its places makes of the team. */
module AgentPoolLaws {
  import opened AgentPool

  // ----- one entry ------------------------------------------------------------------------------

  /** In a pass an entry's places go to its predecessors from the first on, at most what the hour
      still allows of them, never to one that ended early; every place that fits is filled or held;
      and the entry is never taken past its count. */
  lemma FillFacts(e: Entry, atWork: int, ended: seq<EndedPlace>, recent: int, room: int)
    ensures var f := FillOf(e, atWork, ended, recent, room);
            && |f.replaced| <= Allowed(recent)
            && f.replaced + f.limited <= Predecessors(ended)
            && f.early <= EarlyIds(ended)
            && (f.limited != [] ==> |f.replaced| == Allowed(recent))
            && f.Added() + |f.limited| == Max(0, f.fits)
            && atWork + |f.early| + Max(0, f.fits) <= Max(e.count, atWork)
            && (!e.Key().Researches() ==> f.fits <= room)
  {
    hide SizesOf, EarlyIds, Predecessors, Allowed;
    var early, predecessors := EarlyIds(ended), Predecessors(ended);
    SizesFacts(e.count - atWork, |early|, |predecessors|, Allowed(recent), !e.Key().Researches(), room);
    var z := SizesOf(e.count - atWork, |early|, |predecessors|, Allowed(recent), !e.Key().Researches(), room);
    assert predecessors[..z.replaced] + predecessors[z.replaced..z.taken] == predecessors[..z.taken];
  }

  /** The same in numbers. */
  lemma SizesFacts(need: int, early: nat, predecessors: nat, allowed: nat, capped: bool, room: int)
    ensures var z := SizesOf(need, early, predecessors, allowed, capped, room);
            && (z.replaced < z.taken ==> z.replaced == allowed)
            && z.taken + z.gained == Max(0, z.fits)
            && z.early + Max(0, z.fits) <= Max(need, 0)
            && (capped ==> z.fits <= room)
  {
  }

  // ----- the places of an answer ----------------------------------------------------------------

  /** Whose places are taken of a key, in order. */
  function NamedIn(places: seq<Place>, key: PoolKey): seq<string> {
    if |places| == 0 then [] else
    var n := |places| - 1;
    NamedIn(places[..n], key)
    + if places[n].entry.Key() == key && places[n].taking.PlaceOf? then [places[n].taking.agentID] else []
  }

  /** How many places of a key there are, and of executors. */
  function PlacesIn(places: seq<Place>, key: PoolKey): nat {
    if |places| == 0 then 0 else
    var n := |places| - 1;
    PlacesIn(places[..n], key) + if places[n].entry.Key() == key then 1 else 0
  }

  function ExecutorPlaces(places: seq<Place>): nat {
    if |places| == 0 then 0 else
    var n := |places| - 1;
    ExecutorPlaces(places[..n]) + if places[n].entry.Key().Researches() then 0 else 1
  }

  lemma {:induction false} PlacesOfBoth(a: seq<Place>, b: seq<Place>, key: PoolKey)
    ensures NamedIn(a + b, key) == NamedIn(a, key) + NamedIn(b, key)
    ensures PlacesIn(a + b, key) == PlacesIn(a, key) + PlacesIn(b, key)
    ensures ExecutorPlaces(a + b) == ExecutorPlaces(a) + ExecutorPlaces(b)
  {
    if |b| == 0 {
      assert a + b == a;
    } else {
      assert (a + b)[..|a| + |b| - 1] == a + b[..|b| - 1];
      PlacesOfBoth(a, b[..|b| - 1], key);
    }
  }

  lemma {:induction false} ReplacingPlaces(e: Entry, ids: seq<string>, key: PoolKey)
    ensures NamedIn(Replacing(e, ids), key) == if key == e.Key() then ids else []
    ensures PlacesIn(Replacing(e, ids), key) == if key == e.Key() then |ids| else 0
    ensures ExecutorPlaces(Replacing(e, ids)) == if e.Key().Researches() then 0 else |ids|
  {
    if |ids| > 0 {
      var n := |ids| - 1;
      assert Replacing(e, ids)[..n] == Replacing(e, ids[..n]);
      ReplacingPlaces(e, ids[..n], key);
      assert ids[..n] + [ids[n]] == ids;
    }
  }

  lemma {:induction false} GainedPlaces(e: Entry, n: nat, key: PoolKey)
    ensures var gained := seq(n, _ => Place(e, Nobodys));
            && NamedIn(gained, key) == [] && PlacesIn(gained, key) == (if key == e.Key() then n else 0)
            && ExecutorPlaces(gained) == if e.Key().Researches() then 0 else n
  {
    if n > 0 {
      assert seq(n, _ => Place(e, Nobodys))[..n - 1] == seq(n - 1, _ => Place(e, Nobodys));
      GainedPlaces(e, n - 1, key);
    }
  }

  /** The places of one entry name whom its fill replaces, and are as many as it adds. */
  lemma EntryPlaces(e: Entry, f: Fill, key: PoolKey)
    ensures NamedIn(PlacesOf(e, f), key) == if key == e.Key() then f.replaced else []
    ensures PlacesIn(PlacesOf(e, f), key) == if key == e.Key() then f.Added() else 0
    ensures ExecutorPlaces(PlacesOf(e, f)) == if e.Key().Researches() then 0 else f.Added()
  {
    hide NamedIn, PlacesIn, ExecutorPlaces, Replacing;
    ReplacingPlaces(e, f.replaced, key);
    GainedPlaces(e, f.gained, key);
    PlacesOfBoth(Replacing(e, f.replaced), seq(f.gained, _ => Place(e, Nobodys)), key);
  }

  lemma {:induction false} PlacedElsewhere(pool: Pool, fills: seq<Fill>, key: PoolKey)
    requires |pool| == |fills| && forall i :: 0 <= i < |pool| ==> pool[i].Key() != key
    ensures NamedIn(AllPlaces(pool, fills), key) == [] && PlacesIn(AllPlaces(pool, fills), key) == 0
  {
    hide NamedIn, PlacesIn, PlacesOf;
    if |pool| == 0 {
      NothingPlaced(key);
    } else {
      PlacedElsewhere(pool[1..], fills[1..], key);
      EntryPlaces(pool[0], fills[0], key);
      PlacesOfBoth(PlacesOf(pool[0], fills[0]), AllPlaces(pool[1..], fills[1..]), key);
    }
  }

  lemma NothingPlaced(key: PoolKey)
    ensures NamedIn([], key) == [] && PlacesIn([], key) == 0 && ExecutorPlaces([]) == 0
  {
  }

  /** The places of an answer name, of each key, whom its entry's fill replaces, and are as many as it
      adds. */
  lemma {:induction false} PlacedAt(pool: Pool, fills: seq<Fill>, i: nat)
    requires |pool| == |fills| && i < |pool| && DistinctKeys(pool)
    ensures NamedIn(AllPlaces(pool, fills), pool[i].Key()) == fills[i].replaced
    ensures PlacesIn(AllPlaces(pool, fills), pool[i].Key()) == fills[i].Added()
  {
    hide NamedIn, PlacesIn, PlacesOf;
    var key := pool[i].Key();
    EntryPlaces(pool[0], fills[0], key);
    PlacesOfBoth(PlacesOf(pool[0], fills[0]), AllPlaces(pool[1..], fills[1..]), key);
    if i == 0 {
      PlacedElsewhere(pool[1..], fills[1..], key);
    } else {
      PlacedAt(pool[1..], fills[1..], i - 1);
    }
  }

  /** And as many of them are executors' as the fills add. */
  lemma {:induction false} PlacedIsAdded(pool: Pool, fills: seq<Fill>)
    requires |pool| == |fills|
    ensures ExecutorPlaces(AllPlaces(pool, fills)) == ExecutorsAdded(pool, fills)
  {
    hide ExecutorPlaces, PlacesOf;
    var key := PoolKey("", "");
    if |pool| == 0 {
      NothingPlaced(key);
    } else {
      PlacedIsAdded(pool[1..], fills[1..]);
      EntryPlaces(pool[0], fills[0], key);
      PlacesOfBoth(PlacesOf(pool[0], fills[0]), AllPlaces(pool[1..], fills[1..]), key);
    }
  }

  // ----- the cap --------------------------------------------------------------------------------

  /** How many executors a pass adds. */
  function ExecutorsAdded(pool: Pool, fills: seq<Fill>): nat
    requires |pool| == |fills|
  {
    if |pool| == 0 then 0 else
    (if pool[0].Key().Researches() then 0 else fills[0].Added()) + ExecutorsAdded(pool[1..], fills[1..])
  }

  /** How many executors are at work beyond the counts of their own entries. */
  function Surplus(pool: Pool, atWork: map<PoolKey, int>): nat {
    if |pool| == 0 then 0 else
    (if pool[0].Key().Researches() then 0 else Max(0, At(atWork, pool[0].Key()) - pool[0].count))
    + Surplus(pool[1..], atWork)
  }

  /** A pass adds at most the room there is, and the surplus of the entries that are overfull. */
  lemma {:induction false} AddedWithinRoom(pool: Pool, s: Counts, room: int)
    ensures ExecutorsAdded(pool, Fills(pool, s, room)) <= Max(0, room) + Surplus(pool, s.atWork)
  {
    if |pool| > 0 {
      var e := pool[0];
      var f := FillAt(e, s, room);
      FillFacts(e, At(s.atWork, e.Key()), EndedOf(s.ended, e.Key()), At(s.recent, e.Key()), room);
      AddedWithinRoom(pool[1..], s, RoomAfter(e, f, room));
    }
  }

  /** The cap of a pass: it takes the executors at work no further than max_agents, or than they
      already are, but for the surplus of overfull entries. */
  lemma PassKeepsCap(pool: Pool, maxAgents: int, s: Counts)
    ensures var working := Tally(s.atWork, false);
            working + ExecutorPlaces(AllPlaces(pool, Fills(pool, s, Room(maxAgents, s))))
            <= Max(maxAgents, working) + Surplus(pool, s.atWork)
  {
    hide Fills;
    AddedWithinRoom(pool, s, Room(maxAgents, s));
    PlacedIsAdded(pool, Fills(pool, s, Room(maxAgents, s)));
  }

  ghost predicate NoneOverfull(pool: Pool, atWork: map<PoolKey, int>) {
    forall i :: 0 <= i < |pool| && !pool[i].Key().Researches() ==> At(atWork, pool[i].Key()) <= pool[i].count
  }

  lemma {:induction false} NoSurplus(pool: Pool, atWork: map<PoolKey, int>)
    ensures NoneOverfull(pool, atWork) <==> Surplus(pool, atWork) == 0
  {
    if |pool| > 0 {
      NoSurplus(pool[1..], atWork);
      assert forall i :: 0 < i < |pool| ==> pool[i] == pool[1..][i - 1];
      assert forall i :: 0 <= i < |pool[1..]| ==> pool[1..][i] == pool[i + 1];
    }
  }

  /** The surplus is all added where someone wants it: with nobody ended and room, a last entry that
      wants enough takes a pass to the very bound, whatever the entries before it. */
  lemma {:induction false} SurplusIsAdded(pool: Pool, e: Entry, s: Counts, room: int)
    requires room >= 0 && NobodyEnded(s) && !e.Key().Researches()
    requires e.count - At(s.atWork, e.Key()) >= room + Surplus(pool, s.atWork)
    ensures ExecutorsAdded(pool + [e], Fills(pool + [e], s, room)) == room + Surplus(pool, s.atWork)
  {
    var all := pool + [e];
    if |pool| == 0 {
      assert all == [e] && all[1..] == [];
      TakesWhatFits(e, s, room);
    } else {
      assert all[0] == pool[0] && all[1..] == pool[1..] + [e];
      TakesWhatFits(pool[0], s, room);
      hide FillAt;
      SurplusIsAdded(pool[1..], e, s, RoomAfter(pool[0], FillAt(pool[0], s, room), room));
    }
  }

  ghost predicate NobodyEnded(s: Counts) { forall key: PoolKey :: EndedOf(s.ended, key) == [] }

  lemma TakesWhatFits(e: Entry, s: Counts, room: int)
    requires NobodyEnded(s)
    ensures var f := FillAt(e, s, room);
            f.Added() == Max(0, f.fits) && (!e.Key().Researches() ==> f.fits == Min(e.count - At(s.atWork, e.Key()), room))
  {
    assert EndedOf(s.ended, e.Key()) == [];
  }

  ghost predicate CapKept(pool: Pool, maxAgents: int, s: Counts) {
    var working := Tally(s.atWork, false);
    working + ExecutorPlaces(AllPlaces(pool, Fills(pool, s, Room(maxAgents, s)))) <= Max(maxAgents, working)
  }

  /** The cap as it is promised holds exactly when no executor entry is overfull: then whatever
      max_agents is, whoever ended and whatever one more entry wants; and otherwise not. */
  lemma CapExactly(pool: Pool, atWork: map<PoolKey, int>)
    ensures NoneOverfull(pool, atWork) <==>
            forall maxAgents: int, e: Entry, s: Counts ::
              s.atWork == atWork && !e.Key().Researches() && At(atWork, e.Key()) <= e.count ==>
                CapKept(pool + [e], maxAgents, s)
  {
    hide Fills, ExecutorsAdded, Surplus, Tally, AllPlaces, ExecutorPlaces;
    NoSurplus(pool, atWork);
    if NoneOverfull(pool, atWork) {
      forall maxAgents: int, e: Entry, s: Counts
        | s.atWork == atWork && !e.Key().Researches() && At(atWork, e.Key()) <= e.count
        ensures CapKept(pool + [e], maxAgents, s)
      {
        NoSurplus(pool + [e], atWork);
        PassKeepsCap(pool + [e], maxAgents, s);
      }
    } else {
      var s := Counts(atWork, map[], map[]);
      var e := WantsSurplus(pool, atWork);
      SurplusIsAdded(pool, e, s, 0);
      PlacedIsAdded(pool + [e], Fills(pool + [e], s, 0));
      assert !CapKept(pool + [e], Tally(atWork, false), s);
    }
  }

  lemma WantsSurplus(pool: Pool, atWork: map<PoolKey, int>) returns (e: Entry)
    ensures !e.Key().Researches() && e.count == At(atWork, e.Key()) + Surplus(pool, atWork)
  {
    var key := PoolKey("", "");
    assert !key.Researches();
    e := Entry("", "", "", At(atWork, key) + Surplus(pool, atWork));
  }

  // ----- applying a pass ------------------------------------------------------------------------

  /** The ended agents once the ones named were replaced. */
  function Without(ended: seq<EndedPlace>, replaced: seq<string>): seq<EndedPlace> {
    if |ended| == 0 then [] else
    var n := |ended| - 1;
    Without(ended[..n], replaced) + if !ended[n].early && ended[n].agentID in replaced then [] else [ended[n]]
  }

  /** A place filled: its agent at work, the one it replaces, if any, no longer among the ended and
      counted among the hour's replacements. */
  function ApplyPlace(s: Counts, p: Place): Counts {
    var key := p.entry.Key();
    var atWork := s.atWork[key := At(s.atWork, key) + 1];
    if p.taking.PlaceOf? then
      Counts(atWork, s.ended[key := Without(EndedOf(s.ended, key), [p.taking.agentID])], s.recent[key := At(s.recent, key) + 1])
    else s.(atWork := atWork)
  }

  function ApplyPlaces(s: Counts, places: seq<Place>): Counts {
    if |places| == 0 then s else ApplyPlace(ApplyPlaces(s, places[..|places| - 1]), places[|places| - 1])
  }

  /** Every place of a pass filled. */
  function ApplyAll(pool: Pool, fills: seq<Fill>, s: Counts): Counts
    requires |pool| == |fills|
  {
    ApplyPlaces(s, AllPlaces(pool, fills))
  }

  ghost predicate DistinctKeys(pool: Pool) {
    forall i, j :: 0 <= i < j < |pool| ==> pool[i].Key() != pool[j].Key()
  }

  /** What the counts say of one key. */
  datatype AtKey = AtKey(atWork: int, ended: seq<EndedPlace>, recent: int)

  function OfKey(s: Counts, key: PoolKey): AtKey {
    AtKey(At(s.atWork, key), EndedOf(s.ended, key), At(s.recent, key))
  }

  function Applied(k: AtKey, fill: Fill): AtKey {
    AtKey(k.atWork + fill.Added(), Without(k.ended, fill.replaced), k.recent + |fill.replaced|)
  }

  lemma {:induction false} WithoutNone(ended: seq<EndedPlace>)
    ensures Without(ended, []) == ended
  {
    hide Without;
    if |ended| == 0 {
      WithoutNobody([]);
    } else {
      var n := |ended| - 1;
      WithoutNone(ended[..n]);
      WithoutAppend(ended[..n], ended[n], []);
      assert ended == ended[..n] + [ended[n]];
    }
  }

  lemma WithoutAppend(ended: seq<EndedPlace>, e: EndedPlace, ids: seq<string>)
    ensures Without(ended + [e], ids) == Without(ended, ids) + if !e.early && e.agentID in ids then [] else [e]
  {
    assert (ended + [e])[..|ended|] == ended;
  }

  lemma {:induction false} WithoutMore(ended: seq<EndedPlace>, ids: seq<string>, id: string)
    ensures Without(Without(ended, ids), [id]) == Without(ended, ids + [id])
  {
    hide Without;
    if |ended| == 0 {
      WithoutNobody(ids);
      WithoutNobody([id]);
      WithoutNobody(ids + [id]);
    } else {
      var n := |ended| - 1;
      var e := ended[n];
      assert ended == ended[..n] + [e];
      WithoutMore(ended[..n], ids, id);
      WithoutAppend(ended[..n], e, ids);
      WithoutAppend(ended[..n], e, ids + [id]);
      WithoutAppend(Without(ended[..n], ids), e, [id]);
      assert e.agentID in ids + [id] <==> e.agentID in ids || e.agentID in [id];
      var before := Without(ended[..n], ids);
      assert before + [] == before;
    }
  }

  lemma WithoutNobody(ids: seq<string>)
    ensures Without([], ids) == []
  {
  }

  /** What filling places makes of each key: so many more at work, the named no longer among the ended,
      and counted as recent. */
  lemma {:induction false} ApplyPlacesAt(s: Counts, places: seq<Place>, key: PoolKey)
    ensures var k, named := OfKey(s, key), NamedIn(places, key);
            OfKey(ApplyPlaces(s, places), key) ==
              AtKey(k.atWork + PlacesIn(places, key), Without(k.ended, named), k.recent + |named|)
  {
    hide Without, OfKey;
    if |places| == 0 {
      WithoutNone(OfKey(s, key).ended);
    } else {
      var n := |places| - 1;
      ApplyPlacesAt(s, places[..n], key);
      ApplyPlaceAt(ApplyPlaces(s, places[..n]), places[n], key);
      var named := NamedIn(places[..n], key);
      if places[n].entry.Key() == key && places[n].taking.PlaceOf? {
        WithoutMore(OfKey(s, key).ended, named, places[n].taking.agentID);
      } else {
        assert named + [] == named;
      }
    }
  }

  lemma ApplyPlaceAt(s: Counts, p: Place, key: PoolKey)
    ensures var k := OfKey(s, key);
            OfKey(ApplyPlace(s, p), key) ==
              if p.entry.Key() != key then k
              else if p.taking.PlaceOf? then AtKey(k.atWork + 1, Without(k.ended, [p.taking.agentID]), k.recent + 1)
              else k.(atWork := k.atWork + 1)
  {
    hide Without;
  }

  lemma ApplyAllElsewhere(pool: Pool, fills: seq<Fill>, s: Counts, key: PoolKey)
    requires |pool| == |fills| && forall i :: 0 <= i < |pool| ==> pool[i].Key() != key
    ensures OfKey(ApplyAll(pool, fills, s), key) == OfKey(s, key)
  {
    hide ApplyPlaces, NamedIn, PlacesIn, AllPlaces, Without;
    ApplyPlacesAt(s, AllPlaces(pool, fills), key);
    PlacedElsewhere(pool, fills, key);
    WithoutNone(EndedOf(s.ended, key));
  }

  lemma ApplyAllAt(pool: Pool, fills: seq<Fill>, s: Counts, i: nat)
    requires |pool| == |fills| && i < |pool| && DistinctKeys(pool)
    ensures OfKey(ApplyAll(pool, fills, s), pool[i].Key()) == Applied(OfKey(s, pool[i].Key()), fills[i])
  {
    hide ApplyPlaces, NamedIn, PlacesIn, AllPlaces, Without;
    ApplyPlacesAt(s, AllPlaces(pool, fills), pool[i].Key());
    PlacedAt(pool, fills, i);
  }

  lemma {:induction false} ApplyPlacesTally(s: Counts, places: seq<Place>)
    ensures Tally(ApplyPlaces(s, places).atWork, false) == Tally(s.atWork, false) + ExecutorPlaces(places)
  {
    hide Tally;
    if |places| > 0 {
      var n := |places| - 1;
      var before, key := ApplyPlaces(s, places[..n]), places[n].entry.Key();
      ApplyPlacesTally(s, places[..n]);
      TallyUpdate(before.atWork, key, At(before.atWork, key) + 1, false);
    }
  }

  /** A pass adds what it says to the executors at work. */
  lemma ApplyAllTally(pool: Pool, fills: seq<Fill>, s: Counts)
    requires |pool| == |fills|
    ensures Tally(ApplyAll(pool, fills, s).atWork, false) == Tally(s.atWork, false) + ExecutorsAdded(pool, fills)
  {
    hide Tally, ApplyPlaces, AllPlaces, ExecutorsAdded, ExecutorPlaces;
    ApplyPlacesTally(s, AllPlaces(pool, fills));
    PlacedIsAdded(pool, fills);
  }

  // ----- the ended, in order --------------------------------------------------------------------

  ghost predicate DistinctIds(ended: seq<EndedPlace>) {
    forall i, j :: 0 <= i < j < |ended| ==> ended[i].agentID != ended[j].agentID
  }

  ghost predicate Among(id: string, ended: seq<EndedPlace>) {
    exists i :: 0 <= i < |ended| && ended[i].agentID == id
  }

  lemma {:induction false} IdsAmong(ended: seq<EndedPlace>)
    ensures forall id :: id in Predecessors(ended) || id in EarlyIds(ended) ==> Among(id, ended)
  {
    if |ended| > 0 {
      var n := |ended| - 1;
      IdsAmong(ended[..n]);
      forall id | id in Predecessors(ended) || id in EarlyIds(ended)
        ensures Among(id, ended)
      {
        if id != ended[n].agentID {
          assert Among(id, ended[..n]);
          var i :| 0 <= i < n && ended[..n][i].agentID == id;
          assert ended[i].agentID == id;
        }
      }
    }
  }

  /** Of agents that each ended once, each is a predecessor once or ended early, and not both. */
  lemma {:induction false} IdsOnce(ended: seq<EndedPlace>)
    requires DistinctIds(ended)
    ensures forall i, j :: 0 <= i < j < |Predecessors(ended)| ==> Predecessors(ended)[i] != Predecessors(ended)[j]
    ensures forall id :: id in Predecessors(ended) ==> id !in EarlyIds(ended)
  {
    if |ended| > 0 {
      var n := |ended| - 1;
      IdsOnce(ended[..n]);
      IdsAmong(ended[..n]);
      assert !Among(ended[n].agentID, ended[..n]);
    }
  }

  lemma {:induction false} WithoutAll(ended: seq<EndedPlace>, replaced: seq<string>)
    requires forall id :: id in Predecessors(ended) ==> id in replaced
    ensures Predecessors(Without(ended, replaced)) == []
    ensures EarlyIds(Without(ended, replaced)) == EarlyIds(ended)
  {
    if |ended| > 0 {
      var n := |ended| - 1;
      WithoutAll(ended[..n], replaced);
      Keeping(ended, replaced);
      assert !ended[n].early ==> ended[n].agentID in Predecessors(ended);
    }
  }

  lemma Keeping(ended: seq<EndedPlace>, replaced: seq<string>)
    requires |ended| > 0
    ensures var n := |ended| - 1;
            var kept, all := Without(ended[..n], replaced), Without(ended, replaced);
            && (!ended[n].early && ended[n].agentID in replaced ==> all == kept)
            && (ended[n].early ==> Predecessors(all) == Predecessors(kept) && EarlyIds(all) == EarlyIds(kept) + [ended[n].agentID])
            && (!ended[n].early && ended[n].agentID !in replaced ==>
                  Predecessors(all) == Predecessors(kept) + [ended[n].agentID] && EarlyIds(all) == EarlyIds(kept))
  {
    var n := |ended| - 1;
    var kept := Without(ended[..n], replaced);
    assert (kept + [ended[n]])[..|kept|] == kept;
  }

  /** Dropping the first predecessors leaves the others in order, and whoever ended early. */
  lemma {:induction false} WithoutPrefix(ended: seq<EndedPlace>, replaced: seq<string>)
    requires DistinctIds(ended) && replaced <= Predecessors(ended)
    ensures Predecessors(Without(ended, replaced)) == Predecessors(ended)[|replaced|..]
    ensures EarlyIds(Without(ended, replaced)) == EarlyIds(ended)
  {
    hide Without;
    if |ended| == 0 {
      WithoutAll(ended, replaced);
    } else {
      var n := |ended| - 1;
      if |replaced| == |Predecessors(ended)| {
        WithoutAll(ended, replaced);
      } else {
        assert replaced <= Predecessors(ended[..n]);
        IdsOnce(ended);
        assert !ended[n].early ==> ended[n].agentID == Predecessors(ended)[|Predecessors(ended)| - 1];
        assert !ended[n].early ==> ended[n].agentID !in replaced;
        WithoutPrefix(ended[..n], replaced);
        Keeping(ended, replaced);
      }
    }
  }
}
