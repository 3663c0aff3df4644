/** What one pass does with its room, and that quiescence holds for no wider a family of teams. */
module AgentPoolExact {
  import opened AgentPool
  import opened AgentPoolLaws
  import opened AgentPoolRuns

  // ----- the room of one pass -------------------------------------------------------------------

  /** How many executors an entry has beyond its count. */
  function SurplusOf(e: Entry, atWork: map<PoolKey, int>): nat { Max(0, At(atWork, e.Key()) - e.count) }

  /** What a pass has to give: the room and the surplus. A lack of room ends at the first executor
      entry, which is charged the whole of it, less its own surplus. */
  function ToGive(pool: Pool, atWork: map<PoolKey, int>, room: int): int {
    if |pool| == 0 || room >= 0 then room + Surplus(pool, atWork)
    else if pool[0].Key().Researches() then ToGive(pool[1..], atWork, room)
    else Max(0, room + SurplusOf(pool[0], atWork)) + Surplus(pool[1..], atWork)
  }

  /** What fits in the room of an executor entry: all of it where it is short, and no less than the
      surplus gives back. */
  lemma FitsIs(need: int, early: nat, predecessors: nat, allowed: nat, room: int)
    ensures var fits := SizesOf(need, early, predecessors, allowed, true, room).fits;
            && fits <= room && (need >= 0 ==> fits >= Min(0, room)) && (need < 0 ==> fits == Min(need, room))
  {
  }

  lemma FillFits(e: Entry, s: Counts, room: int)
    requires !e.Key().Researches()
    ensures var need, fits := e.count - At(s.atWork, e.Key()), FillAt(e, s, room).fits;
            && fits <= room && (need >= 0 ==> fits >= Min(0, room)) && (need < 0 ==> fits == Min(need, room))
  {
    hide SizesOf;
    var key := e.Key();
    var ended := EndedOf(s.ended, key);
    FitsIs(e.count - At(s.atWork, key), |EarlyIds(ended)|, |Predecessors(ended)|, Allowed(At(s.recent, key)), room);
  }

  /** What an executor entry does with the room, by its own count alone. */
  lemma RoomAfterIs(e: Entry, s: Counts, room: int)
    requires !e.Key().Researches()
    ensures var f := FillAt(e, s, room);
            var left := RoomAfter(e, f, room);
            && left >= 0
            && f.Added() + |f.limited| + left == if room >= 0 then room + SurplusOf(e, s.atWork) else Max(0, room + SurplusOf(e, s.atWork))
  {
    hide FillOf;
    var key := e.Key();
    FillFacts(e, At(s.atWork, key), EndedOf(s.ended, key), At(s.recent, key), room);
    FillFits(e, s, room);
  }

  /** Every pass, over any pool, with any room: what is added, what the limit holds and what is left is
      what there was to give. */
  lemma {:induction false} PassAccounts(pool: Pool, s: Counts, room: int)
    ensures ExecutorsAdded(pool, Fills(pool, s, room)) + LimitedExecutors(pool, s, room) + RoomLeft(pool, s, room)
         == ToGive(pool, s.atWork, room)
  {
    hide FillAt, SurplusOf;
    if |pool| > 0 {
      var f := FillAt(pool[0], s, room);
      PassAccounts(pool[1..], s, RoomAfter(pool[0], f, room));
      SurplusFirst(pool, s.atWork);
      if !pool[0].Key().Researches() { RoomAfterIs(pool[0], s, room); }
    }
  }

  lemma SurplusFirst(pool: Pool, atWork: map<PoolKey, int>)
    requires |pool| > 0
    ensures Surplus(pool, atWork) == Surplus(pool[1..], atWork) + if pool[0].Key().Researches() then 0 else SurplusOf(pool[0], atWork)
  {
  }

  /** One pass keeps the cap exactly when what it gives beyond its room is left over or held. With
      room, that is when the surplus is. */
  lemma CapOfPass(pool: Pool, maxAgents: int, s: Counts)
    ensures var room := Room(maxAgents, s);
            var spare := RoomLeft(pool, s, room) + LimitedExecutors(pool, s, room);
            && (CapKept(pool, maxAgents, s) <==> ToGive(pool, s.atWork, room) - Max(0, room) <= spare)
            && (room >= 0 ==> (CapKept(pool, maxAgents, s) <==> Surplus(pool, s.atWork) <= spare))
  {
    hide RoomLeft, LimitedExecutors, ExecutorsAdded, Fills, Surplus, Tally, AllPlaces, ExecutorPlaces;
    PassAccounts(pool, s, Room(maxAgents, s));
    PlacedIsAdded(pool, Fills(pool, s, Room(maxAgents, s)));
  }

  // ----- a second pass --------------------------------------------------------------------------

  /** A second pass right after the first fills nothing and holds the same places again. */
  ghost predicate Quiet(pool: Pool, maxAgents: int, s: Counts) {
    var fills := Fills(pool, s, Room(maxAgents, s));
    var s' := ApplyPlaces(s, AllPlaces(pool, fills));
    var again := Fills(pool, s', Room(maxAgents, s'));
    AllPlaces(pool, again) == [] && AllHolds(pool, again) == AllHolds(pool, fills)
  }

  ghost predicate Executing(e: Entry, atWork: map<PoolKey, int>) {
    !e.Key().Researches() && At(atWork, e.Key()) <= e.count
  }

  /** An entry before and one after a pool. */
  function Between(first: Entry, pool: Pool, last: Entry): Pool { [first] + pool + [last] }

  // ----- a pass with nobody ended and no room ---------------------------------------------------

  lemma {:induction false} AddedIsPlaced(pool: Pool, fills: seq<Fill>)
    requires |pool| == |fills| && AllPlaces(pool, fills) == []
    ensures ExecutorsAdded(pool, fills) == 0
  {
    if |pool| > 0 {
      assert |PlacesOf(pool[0], fills[0])| == fills[0].Added();
      AddedIsPlaced(pool[1..], fills[1..]);
    }
  }

  lemma NobodyEndsByAPass(pool: Pool, fills: seq<Fill>, s: Counts)
    requires |pool| == |fills| && NobodyEnded(s)
    ensures NobodyEnded(ApplyAll(pool, fills, s))
  {
    hide ApplyPlaces, AllPlaces;
    forall key: PoolKey ensures EndedOf(ApplyAll(pool, fills, s).ended, key) == [] {
      ApplyPlacesAt(s, AllPlaces(pool, fills), key);
      assert EndedOf(s.ended, key) == [];
    }
  }

  /** Overfull entries stay overfull by as much, and no other becomes overfull. */
  lemma {:induction false} SurplusStays(pool: Pool, s: Counts, s': Counts, fills: seq<Fill>)
    requires |pool| == |fills| && FirstPassAt(pool, s, s', fills)
    requires forall i :: 0 <= i < |pool| ==>
               At(s.atWork, pool[i].Key()) + fills[i].Added() <= Max(pool[i].count, At(s.atWork, pool[i].Key()))
    ensures Surplus(pool, s'.atWork) == Surplus(pool, s.atWork)
  {
    if |pool| > 0 {
      FirstPassTail(pool, s, s', fills);
      assert forall i :: 0 <= i < |pool[1..]| ==> pool[1..][i] == pool[i + 1] && fills[1..][i] == fills[i + 1];
      SurplusStays(pool[1..], s, s', fills[1..]);
    }
  }

  lemma FillWithinCount(pool: Pool, s: Counts, room: int, i: nat)
    requires i < |pool|
    ensures At(s.atWork, pool[i].Key()) + Fills(pool, s, room)[i].Added() <= Max(pool[i].count, At(s.atWork, pool[i].Key()))
  {
    var r := FillsAt(pool, s, room, i);
    var key := pool[i].Key();
    FillFacts(pool[i], At(s.atWork, key), EndedOf(s.ended, key), At(s.recent, key), r);
  }

  /** The first pass, with no room: it adds the surplus, of which the last entry gets no more. */
  lemma FirstPass(pool: Pool, s: Counts, last: Entry) returns (s': Counts)
    requires DistinctKeys(pool + [last]) && NobodyEnded(s) && !last.Key().Researches()
    requires last.count - At(s.atWork, last.Key()) >= 2 * Surplus(pool, s.atWork)
    ensures s' == ApplyAll(pool + [last], Fills(pool + [last], s, 0), s)
    ensures NobodyEnded(s') && Surplus(pool, s'.atWork) == Surplus(pool, s.atWork)
    ensures Tally(s'.atWork, false) == Tally(s.atWork, false) + Surplus(pool, s.atWork)
    ensures last.count - At(s'.atWork, last.Key()) >= Surplus(pool, s.atWork)
    ensures forall i :: 0 <= i < |pool| ==> At(s'.atWork, pool[i].Key()) <= Max(pool[i].count, At(s.atWork, pool[i].Key()))
  {
    hide Surplus, FillAt, Tally;
    var all := pool + [last];
    var fills := Fills(all, s, 0);
    s' := ApplyAll(all, fills, s);
    SurplusIsAdded(pool, last, s, 0);
    ApplyAllTally(all, fills, s);
    NobodyEndsByAPass(all, fills, s);
    forall i | 0 <= i < |all|
      ensures OfKey(s', all[i].Key()) == Applied(OfKey(s, all[i].Key()), fills[i])
      ensures At(s.atWork, all[i].Key()) + fills[i].Added() <= Max(all[i].count, At(s.atWork, all[i].Key()))
    {
      ApplyAllAt(all, fills, s, i);
      FillWithinCount(all, s, 0, i);
    }
    var n := |pool|;
    assert forall i :: 0 <= i < n ==> pool[i] == all[i] && fills[..n][i] == fills[i];
    SurplusStays(pool, s, s', fills[..n]);
    AddedToOne(all, fills, n);
    assert all[n] == last;
  }

  /** One executor's entry is given no more than all of them. */
  lemma {:induction false} AddedToOne(pool: Pool, fills: seq<Fill>, i: nat)
    requires |pool| == |fills| && i < |pool|
    ensures !pool[i].Key().Researches() ==> fills[i].Added() <= ExecutorsAdded(pool, fills)
  {
    if i > 0 {
      assert pool[1..][i - 1] == pool[i] && fills[1..][i - 1] == fills[i];
      AddedToOne(pool[1..], fills[1..], i - 1);
    }
  }

  /** The second pass: the first entry takes the room below zero for none, and the surplus is added
      again. */
  lemma SecondPass(first: Entry, pool: Pool, last: Entry, s: Counts, room: int)
    requires NobodyEnded(s) && room <= 0 && Executing(first, s.atWork) && !last.Key().Researches()
    requires last.count - At(s.atWork, last.Key()) >= Surplus(pool, s.atWork)
    ensures ExecutorsAdded(Between(first, pool, last), Fills(Between(first, pool, last), s, room)) == Surplus(pool, s.atWork)
  {
    hide FillAt, Surplus;
    var all := Between(first, pool, last);
    assert all[0] == first && all[1..] == pool + [last];
    TakesWhatFits(first, s, room);
    SurplusIsAdded(pool, last, s, 0);
  }

  /** With an overfull entry between two of the right counts, the second pass adds again. */
  lemma LoudBetween(first: Entry, pool: Pool, last: Entry, s: Counts)
    requires DistinctKeys(Between(first, pool, last)) && NobodyEnded(s) && Surplus(pool, s.atWork) > 0
    requires Executing(first, s.atWork) && Executing(last, s.atWork)
    requires last.count - At(s.atWork, last.Key()) >= 2 * Surplus(pool, s.atWork)
    ensures !Quiet(Between(first, pool, last), Tally(s.atWork, false), s)
  {
    hide FillAt, Surplus, Tally, AllPlaces, AllHolds, Fills, ApplyPlaces;
    var all, front := Between(first, pool, last), [first] + pool;
    assert all == front + [last];
    SurplusBehind(first, pool, s.atWork);
    var s' := FirstPass(front, s, last);
    assert front[0] == first && At(s'.atWork, first.Key()) <= first.count;
    SurplusBehind(first, pool, s'.atWork);
    var max := Tally(s.atWork, false);
    SecondPass(first, pool, last, s', Room(max, s'));
    var again := Fills(all, s', Room(max, s'));
    if AllPlaces(all, again) == [] { AddedIsPlaced(all, again); }
  }

  lemma SurplusBehind(first: Entry, pool: Pool, atWork: map<PoolKey, int>)
    requires Executing(first, atWork)
    ensures Surplus([first] + pool, atWork) == Surplus(pool, atWork)
  {
    assert ([first] + pool)[1..] == pool;
  }

  // ----- keys no entry has ----------------------------------------------------------------------

  /** A type longer than every type of a pool. */
  lemma {:induction false} LongerType(pool: Pool) returns (t: string)
    ensures |t| > |RESEARCHER| && forall i :: 0 <= i < |pool| ==> |pool[i].agentType| < |t|
  {
    t := RESEARCHER + "s";
    if |pool| > 0 {
      t := LongerType(pool[1..]);
      assert forall i :: 0 < i < |pool| ==> pool[i] == pool[1..][i - 1];
      t := t + pool[0].agentType + "s";
    }
  }

  lemma FreshAround(pool: Pool, first: Entry, last: Entry)
    requires DistinctKeys(pool) && first.Key() != last.Key()
    requires forall i :: 0 <= i < |pool| ==> |pool[i].agentType| < |first.agentType| == |last.agentType|
    requires |first.agentType| == |last.agentType|
    ensures DistinctKeys(Between(first, pool, last))
  {
    var all := Between(first, pool, last);
    assert forall i :: 0 < i < |all| - 1 ==> all[i] == pool[i - 1];
  }

  /** Passes over a team settle at once exactly when no executor entry is overfull: then whatever
      max_agents is, whoever ended, and whatever entries stand before and after; and otherwise not. */
  lemma QuietExactly(pool: Pool, atWork: map<PoolKey, int>)
    requires DistinctKeys(pool)
    ensures NoneOverfull(pool, atWork) <==>
            forall maxAgents: int, first: Entry, last: Entry, s: Counts ::
              s.atWork == atWork && EndedOnce(s) && Executing(first, atWork) && Executing(last, atWork)
              && DistinctKeys(Between(first, pool, last)) ==>
                Quiet(Between(first, pool, last), maxAgents, s)
  {
    hide Quiet, DistinctKeys, Surplus, Tally;
    NoSurplus(pool, atWork);
    if NoneOverfull(pool, atWork) {
      forall maxAgents: int, first: Entry, last: Entry, s: Counts
        | s.atWork == atWork && EndedOnce(s) && Executing(first, atWork) && Executing(last, atWork)
          && DistinctKeys(Between(first, pool, last))
        ensures Quiet(Between(first, pool, last), maxAgents, s)
      {
        QuietBetween(first, pool, last, maxAgents, s);
      }
    } else {
      var t := LongerType(pool);
      var none := Entry(t, "", "", 0);
      var more := Entry(t, "more", "", 0);
      var first := none.(count := At(atWork, none.Key()));
      var last := more.(count := At(atWork, more.Key()) + 2 * Surplus(pool, atWork));
      FreshAround(pool, first, last);
      var s := Counts(atWork, map[], map[]);
      LoudBetween(first, pool, last, s);
      assert !Quiet(Between(first, pool, last), Tally(atWork, false), s);
    }
  }

  lemma QuietBetween(first: Entry, pool: Pool, last: Entry, maxAgents: int, s: Counts)
    requires NoneOverfull(pool, s.atWork) && EndedOnce(s) && Executing(first, s.atWork) && Executing(last, s.atWork)
    requires DistinctKeys(Between(first, pool, last))
    ensures Quiet(Between(first, pool, last), maxAgents, s)
  {
    hide Fills, ApplyPlaces, AllPlaces, AllHolds, Room;
    var all := Between(first, pool, last);
    assert forall i :: 0 < i < |all| - 1 ==> all[i] == pool[i - 1];
    assert NoneOverfull(all, s.atWork);
    PassIsQuiescent(all, maxAgents, s);
  }
}
