/** What the answer of a pass says, place by place and hold by hold. */
module AgentPoolAnswer {
  import opened AgentPool
  import opened AgentPoolLaws
  import opened AgentPoolRuns

  /** The agents a list of holds names of a key for a reason, in order. */
  function HeldIn(holds: seq<Hold>, key: PoolKey, reason: HoldReason): seq<string> {
    if |holds| == 0 then [] else
    var n := |holds| - 1;
    HeldIn(holds[..n], key, reason) + if holds[n].key == key && holds[n].reason == reason then [holds[n].agentID] else []
  }

  lemma {:induction false} HeldInBoth(a: seq<Hold>, b: seq<Hold>, key: PoolKey, reason: HoldReason)
    ensures HeldIn(a + b, key, reason) == HeldIn(a, key, reason) + HeldIn(b, key, reason)
  {
    if |b| == 0 {
      assert a + b == a;
    } else {
      assert (a + b)[..|a| + |b| - 1] == a + b[..|b| - 1];
      HeldInBoth(a, b[..|b| - 1], key, reason);
    }
  }

  lemma {:induction false} HoldingHeld(of: PoolKey, ids: seq<string>, why: HoldReason, key: PoolKey, reason: HoldReason)
    ensures HeldIn(Holding(of, ids, why), key, reason) == if key == of && reason == why then ids else []
  {
    if |ids| > 0 {
      var n := |ids| - 1;
      assert Holding(of, ids, why)[..n] == Holding(of, ids[..n], why);
      HoldingHeld(of, ids[..n], why, key, reason);
      assert ids[..n] + [ids[n]] == ids;
    }
  }

  function HeldBy(f: Fill, reason: HoldReason): seq<string> { if reason.EndedEarly? then f.early else f.limited }

  lemma EntryHolds(e: Entry, f: Fill, key: PoolKey, reason: HoldReason)
    ensures HeldIn(HoldsOf(e, f), key, reason) == if key == e.Key() then HeldBy(f, reason) else []
  {
    hide HeldIn, Holding;
    HoldingHeld(e.Key(), f.early, EndedEarly, key, reason);
    HoldingHeld(e.Key(), f.limited, ReplacementLimit, key, reason);
    HeldInBoth(Holding(e.Key(), f.early, EndedEarly), Holding(e.Key(), f.limited, ReplacementLimit), key, reason);
    assert [] + f.limited == f.limited && f.early + [] == f.early;
  }

  lemma {:induction false} HeldElsewhere(pool: Pool, fills: seq<Fill>, key: PoolKey, reason: HoldReason)
    requires |pool| == |fills| && forall i :: 0 <= i < |pool| ==> pool[i].Key() != key
    ensures HeldIn(AllHolds(pool, fills), key, reason) == []
  {
    hide HoldsOf;
    if |pool| > 0 {
      HeldElsewhere(pool[1..], fills[1..], key, reason);
      EntryHolds(pool[0], fills[0], key, reason);
      HeldInBoth(HoldsOf(pool[0], fills[0]), AllHolds(pool[1..], fills[1..]), key, reason);
    }
  }

  lemma {:induction false} HeldAt(pool: Pool, fills: seq<Fill>, i: nat, reason: HoldReason)
    requires |pool| == |fills| && i < |pool| && DistinctKeys(pool)
    ensures HeldIn(AllHolds(pool, fills), pool[i].Key(), reason) == HeldBy(fills[i], reason)
  {
    hide HeldIn, HoldsOf, HeldBy;
    var key := pool[i].Key();
    EntryHolds(pool[0], fills[0], key, reason);
    HeldInBoth(HoldsOf(pool[0], fills[0]), AllHolds(pool[1..], fills[1..]), key, reason);
    if i == 0 {
      HeldElsewhere(pool[1..], fills[1..], key, reason);
      assert HeldBy(fills[0], reason) + [] == HeldBy(fills[0], reason);
    } else {
      HeldAt(pool[1..], fills[1..], i - 1, reason);
      assert [] + HeldBy(fills[i], reason) == HeldBy(fills[i], reason);
    }
  }

  /** Every place is for an entry of the pool. */
  lemma {:induction false} PlacesAreEntries(pool: Pool, fills: seq<Fill>)
    requires |pool| == |fills|
    ensures forall j :: 0 <= j < |AllPlaces(pool, fills)| ==> AllPlaces(pool, fills)[j].entry in pool
  {
    if |pool| > 0 {
      PlacesAreEntries(pool[1..], fills[1..]);
      var first, rest := PlacesOf(pool[0], fills[0]), AllPlaces(pool[1..], fills[1..]);
      assert forall j :: 0 <= j < |first| ==> first[j].entry == pool[0];
      assert forall e :: e in pool[1..] ==> e in pool;
    }
  }

  /** Of each entry of a pool of distinct keys, the answer's places name the first of its agents that
      ended and not early, in order, at most as many as the hour still allows; those after them that
      would fit are held for the limit, and only once it is reached; a place is nobody's only once all
      of them are named or held; those that ended early are held, in order; places and limit together
      take the entry no further than its count, less the held; and every place is for an entry of the
      pool. */
  lemma AnswerInTurn(pool: Pool, maxAgents: int, s: Counts, i: nat)
    requires DistinctKeys(pool) && i < |pool|
    ensures var fills, k := Fills(pool, s, Room(maxAgents, s)), OfKey(s, pool[i].Key());
            var places, holds, key := AllPlaces(pool, fills), AllHolds(pool, fills), pool[i].Key();
            var named, limited, early := NamedIn(places, key), HeldIn(holds, key, ReplacementLimit), HeldIn(holds, key, EndedEarly);
            && named + limited <= Predecessors(k.ended) && |named| <= Allowed(k.recent)
            && (limited != [] ==> |named| == Allowed(k.recent))
            && (PlacesIn(places, key) > |named| ==> named + limited == Predecessors(k.ended))
            && early <= EarlyIds(k.ended)
            && k.atWork + |early| + PlacesIn(places, key) + |limited| <= Max(pool[i].count, k.atWork)
            && forall j :: 0 <= j < |places| ==> places[j].entry in pool
  {
    hide AllPlaces, AllHolds, Fills, NamedIn, PlacesIn, HeldIn, FillOf;
    var fills, key := Fills(pool, s, Room(maxAgents, s)), pool[i].Key();
    var k := OfKey(s, key);
    PlacedAt(pool, fills, i);
    HeldAt(pool, fills, i, ReplacementLimit);
    HeldAt(pool, fills, i, EndedEarly);
    PlacesAreEntries(pool, fills);
    var room := FillsAt(pool, s, Room(maxAgents, s), i);
    FillFacts(pool[i], k.atWork, k.ended, k.recent, room);
    GainedLast(pool[i], k.atWork, k.ended, k.recent, room);
  }

  /** The room the entries before the i-th leave it. */
  function RoomAt(pool: Pool, s: Counts, room: int, i: nat): int
    requires i <= |pool|
  {
    if i == 0 then room
    else
      var before := RoomAt(pool, s, room, i - 1);
      RoomAfter(pool[i - 1], FillAt(pool[i - 1], s, before), before)
  }

  lemma {:induction false} FillsAtRoom(pool: Pool, s: Counts, room: int, i: nat)
    requires i < |pool|
    ensures Fills(pool, s, room)[i] == FillAt(pool[i], s, RoomAt(pool, s, room, i))
  {
    hide FillAt, RoomAfter;
    if i > 0 {
      var room' := RoomAfter(pool[0], FillAt(pool[0], s, room), room);
      FillsAtRoom(pool[1..], s, room', i - 1);
      RoomAtTail(pool, s, room, i);
    }
  }

  lemma {:induction false} RoomAtTail(pool: Pool, s: Counts, room: int, i: nat)
    requires 0 < i <= |pool|
    ensures RoomAt(pool, s, room, i) == RoomAt(pool[1..], s, RoomAfter(pool[0], FillAt(pool[0], s, room), room), i - 1)
  {
    hide FillAt, RoomAfter;
    if i > 1 { RoomAtTail(pool, s, room, i - 1); }
  }

  /** And no fewer: of what an entry wants, those that ended early are held as far as they go; all of the
      rest is filled, or held for the limit, as far as the room goes that the entries before it leave an
      executor's, and all of it for a researcher's. */
  lemma AnswerFillsAll(pool: Pool, maxAgents: int, s: Counts, i: nat)
    requires DistinctKeys(pool) && i < |pool|
    ensures var room := Room(maxAgents, s);
            var fills, k, key := Fills(pool, s, room), OfKey(s, pool[i].Key()), pool[i].Key();
            var places, holds := AllPlaces(pool, fills), AllHolds(pool, fills);
            var early, want := |HeldIn(holds, key, EndedEarly)|, pool[i].count - k.atWork;
            && early == Max(0, Min(want, |EarlyIds(k.ended)|))
            && PlacesIn(places, key) + |HeldIn(holds, key, ReplacementLimit)| ==
               Max(0, if key.Researches() then want - early else Min(want - early, RoomAt(pool, s, room, i)))
  {
    hide AllPlaces, AllHolds, Fills, NamedIn, PlacesIn, HeldIn, RoomAt, EarlyIds, Predecessors;
    var room := Room(maxAgents, s);
    PlacedAt(pool, Fills(pool, s, room), i);
    HeldAt(pool, Fills(pool, s, room), i, ReplacementLimit);
    HeldAt(pool, Fills(pool, s, room), i, EndedEarly);
    FillsAtRoom(pool, s, room, i);
  }

  /** An entry gains places nobody left only once its predecessors are all named or held. */
  lemma GainedLast(e: Entry, atWork: int, ended: seq<EndedPlace>, recent: int, room: int)
    ensures var f := FillOf(e, atWork, ended, recent, room); f.gained > 0 ==> f.replaced + f.limited == Predecessors(ended)
  {
    hide EarlyIds, Predecessors;
    var f, predecessors := FillOf(e, atWork, ended, recent, room), Predecessors(ended);
    if f.gained > 0 {
      assert f.replaced + f.limited == predecessors[..|f.replaced| + |f.limited|];
    }
  }
}
