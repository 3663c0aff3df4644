/** The team a platform experiment is to have at work, and the pass that keeps it. */
module AgentPool {

  const RESEARCHER := "researcher"
  const MAX_REPLACEMENTS_AN_HOUR := 3

  datatype PoolKey = PoolKey(agentType: string, model: string) {
    predicate Researches() { agentType == RESEARCHER }
  }

  datatype Entry = Entry(agentType: string, model: string, hyperparameters: string, count: int) {
    function Key(): PoolKey { PoolKey(agentType, model) }
  }

  type Pool = seq<Entry>

  datatype EndedPlace = EndedPlace(agentID: string, early: bool)

  /** Whose place an added agent takes, nobody's for a place the pool gained. */
  datatype Taking = Nobodys | PlaceOf(agentID: string)

  datatype Place = Place(entry: Entry, taking: Taking)

  datatype HoldReason = EndedEarly | ReplacementLimit

  datatype Hold = Hold(key: PoolKey, agentID: string, reason: HoldReason)

  function Max(a: int, b: int): int { if a >= b then a else b }
  function Min(a: int, b: int): int { if a <= b then a else b }

  /** What a Go map of counts says of a key: zero when it holds none. */
  function At(m: map<PoolKey, int>, key: PoolKey): int { if key in m then m[key] else 0 }

  function EndedOf(m: map<PoolKey, seq<EndedPlace>>, key: PoolKey): seq<EndedPlace> {
    if key in m then m[key] else []
  }

  // ----- counts by key --------------------------------------------------------------------------

  /** The counts of a map together, of executors alone or of everyone. */
  ghost function Tally(m: map<PoolKey, int>, everyone: bool): int {
    if m == map[] then 0
    else var key :| key in m; Counted(m, key, everyone) + Tally(m - {key}, everyone)
  }

  function Counted(m: map<PoolKey, int>, key: PoolKey, everyone: bool): int {
    if everyone || !key.Researches() then At(m, key) else 0
  }

  lemma CountedKept(m: map<PoolKey, int>, gone: PoolKey, key: PoolKey, everyone: bool)
    requires gone != key
    ensures Counted(m - {gone}, key, everyone) == Counted(m, key, everyone)
  {
  }

  lemma CountedAbsent(m: map<PoolKey, int>, key: PoolKey, everyone: bool)
    requires key !in m
    ensures Counted(m, key, everyone) == 0
  {
  }

  /** A tally does not depend on the order a map is read in. */
  lemma {:induction false} TallyAny(m: map<PoolKey, int>, key: PoolKey, everyone: bool)
    ensures Tally(m, everyone) == Counted(m, key, everyone) + Tally(m - {key}, everyone)
    decreases |m|
  {
    hide Counted;
    if key !in m {
      CountedAbsent(m, key, everyone);
      assert m - {key} == m;
    } else {
      var first :| first in m && Tally(m, everyone) == Counted(m, first, everyone) + Tally(m - {first}, everyone);
      if first != key {
        TallyAny(m - {first}, key, everyone);
        TallyAny(m - {key}, first, everyone);
        assert m - {first} - {key} == m - {key} - {first};
        CountedKept(m, first, key, everyone);
        CountedKept(m, key, first, everyone);
      }
    }
  }

  lemma TallyUpdate(m: map<PoolKey, int>, key: PoolKey, n: int, everyone: bool)
    ensures Tally(m[key := n], everyone)
         == Tally(m, everyone) + if everyone || !key.Researches() then n - At(m, key) else 0
  {
    TallyAny(m, key, everyone);
    TallyAny(m[key := n], key, everyone);
    assert m[key := n] - {key} == m - {key};
  }

  method Working(atWork: map<PoolKey, int>) returns (working: int)
    ensures working == Tally(atWork, false)
  {
    working := 0;
    var unread := atWork;
    while unread != map[]
      invariant working + Tally(unread, false) == Tally(atWork, false)
      decreases |unread|
    {
      var key :| key in unread;
      TallyAny(unread, key, false);
      if !key.Researches() {
        working := working + unread[key];
      }
      unread := unread - {key};
    }
  }

  // ----- what one entry is given in a pass ------------------------------------------------------

  function EarlyIds(ended: seq<EndedPlace>): seq<string> {
    if |ended| == 0 then [] else
    var n := |ended| - 1;
    EarlyIds(ended[..n]) + if ended[n].early then [ended[n].agentID] else []
  }

  /** The agents whose places are taken in turn: the ones that did not end early. */
  function Predecessors(ended: seq<EndedPlace>): seq<string> {
    if |ended| == 0 then [] else
    var n := |ended| - 1;
    Predecessors(ended[..n]) + if ended[n].early then [] else [ended[n].agentID]
  }

  /** What a pass does for one entry: whose places it holds for ending early, whose places it fills,
      whose it holds for the hourly limit, how many more it adds, and what that takes of the room. */
  datatype Fill = Fill(early: seq<string>, replaced: seq<string>, limited: seq<string>, gained: nat, fits: int) {
    function Added(): nat { |replaced| + gained }
  }

  /** The same in numbers: of so many early ends and predecessors, how many are held for ending early,
      how many predecessors' places fit, how many of those are filled. */
  datatype Sizes = Sizes(early: nat, taken: nat, replaced: nat, gained: nat, fits: int)

  function SizesOf(need: int, early: nat, predecessors: nat, allowed: nat, capped: bool, room: int): (z: Sizes)
    ensures z.early <= early && z.replaced <= z.taken <= predecessors && z.replaced <= allowed
  {
    var held := Max(0, Min(need, early));
    var fits := if capped then Min(need - held, room) else need - held;
    var taken := Max(0, Min(fits, predecessors));
    Sizes(held, taken, Min(taken, allowed), Max(0, fits - predecessors), fits)
  }

  /** How many replacements the hour still allows. */
  function Allowed(recent: int): nat { Max(0, MAX_REPLACEMENTS_AN_HOUR - recent) }

  function FillOf(e: Entry, atWork: int, ended: seq<EndedPlace>, recent: int, room: int): Fill {
    var early, predecessors := EarlyIds(ended), Predecessors(ended);
    var z := SizesOf(e.count - atWork, |early|, |predecessors|, Allowed(recent), !e.Key().Researches(), room);
    Fill(early[..z.early], predecessors[..z.replaced], predecessors[z.replaced..z.taken], z.gained, z.fits)
  }

  /** The room the entries after e are left. */
  function RoomAfter(e: Entry, fill: Fill, room: int): int {
    if e.Key().Researches() then room else room - fill.fits
  }

  datatype Counts = Counts(atWork: map<PoolKey, int>, ended: map<PoolKey, seq<EndedPlace>>, recent: map<PoolKey, int>)

  function FillAt(e: Entry, s: Counts, room: int): Fill {
    FillOf(e, At(s.atWork, e.Key()), EndedOf(s.ended, e.Key()), At(s.recent, e.Key()), room)
  }

  function Fills(pool: Pool, s: Counts, room: int): (fills: seq<Fill>)
    ensures |fills| == |pool|
  {
    if |pool| == 0 then [] else
    var fill := FillAt(pool[0], s, room);
    [fill] + Fills(pool[1..], s, RoomAfter(pool[0], fill, room))
  }

  function Replacing(e: Entry, ids: seq<string>): seq<Place> {
    seq(|ids|, i requires 0 <= i < |ids| => Place(e, PlaceOf(ids[i])))
  }

  function Holding(key: PoolKey, ids: seq<string>, reason: HoldReason): seq<Hold> {
    seq(|ids|, i requires 0 <= i < |ids| => Hold(key, ids[i], reason))
  }

  function PlacesOf(e: Entry, fill: Fill): seq<Place> {
    Replacing(e, fill.replaced) + seq(fill.gained, _ => Place(e, Nobodys))
  }

  function HoldsOf(e: Entry, fill: Fill): seq<Hold> {
    Holding(e.Key(), fill.early, EndedEarly) + Holding(e.Key(), fill.limited, ReplacementLimit)
  }

  function AllPlaces(pool: Pool, fills: seq<Fill>): seq<Place>
    requires |pool| == |fills|
  {
    if |pool| == 0 then [] else PlacesOf(pool[0], fills[0]) + AllPlaces(pool[1..], fills[1..])
  }

  function AllHolds(pool: Pool, fills: seq<Fill>): seq<Hold>
    requires |pool| == |fills|
  {
    if |pool| == 0 then [] else HoldsOf(pool[0], fills[0]) + AllHolds(pool[1..], fills[1..])
  }

  ghost function Room(maxAgents: int, s: Counts): int { maxAgents - Tally(s.atWork, false) }

  // ----- the pass -------------------------------------------------------------------------------

  /** The places of agents that ended early are held while the entry needs anyone, and the others
      are its predecessors in the order they ended. */
  method ReadEnded(key: PoolKey, ended: seq<EndedPlace>, wanted: int)
    returns (need: int, predecessors: seq<string>, holds: seq<Hold>)
    ensures predecessors == Predecessors(ended)
    ensures var early := EarlyIds(ended)[..Max(0, Min(wanted, |EarlyIds(ended)|))];
            need == wanted - |early| && holds == Holding(key, early, EndedEarly)
  {
    need, predecessors, holds := wanted, [], [];
    for i := 0 to |ended|
      invariant predecessors == Predecessors(ended[..i])
      invariant var early := EarlyIds(ended[..i])[..Max(0, Min(wanted, |EarlyIds(ended[..i])|))];
                need == wanted - |early| && holds == Holding(key, early, EndedEarly)
    {
      assert ended[..i + 1][..i] == ended[..i];
      if !ended[i].early {
        predecessors := predecessors + [ended[i].agentID];
        continue;
      }
      if need > 0 {
        holds := holds + [Hold(key, ended[i].agentID, EndedEarly)];
        need := need - 1;
      }
    }
    assert ended[..|ended|] == ended;
  }

  /** The places an entry is given: its predecessors' in turn while the hour allows, the rest of them
      held, then places nobody left. */
  method FillPlaces(e: Entry, fits: int, predecessors: seq<string>, limit: int)
    returns (places: seq<Place>, holds: seq<Hold>)
    requires limit >= 0
    ensures var taken := Max(0, Min(fits, |predecessors|));
            var replaced := Min(taken, limit);
            && places == Replacing(e, predecessors[..replaced])
                         + seq(Max(0, fits - |predecessors|), _ => Place(e, Nobodys))
            && holds == Holding(e.Key(), predecessors[replaced..taken], ReplacementLimit)
  {
    places, holds := [], [];
    var allowed, n := limit, 0;
    while n < fits
      invariant 0 <= n <= Max(0, fits)
      invariant var taken := Min(n, |predecessors|);
                var replaced := Min(taken, limit);
                && allowed == limit - replaced
                && places == Replacing(e, predecessors[..replaced])
                             + seq(Max(0, n - |predecessors|), _ => Place(e, Nobodys))
                && holds == Holding(e.Key(), predecessors[replaced..taken], ReplacementLimit)
    {
      if n >= |predecessors| {
        places := places + [Place(e, Nobodys)];
      } else if allowed == 0 {
        holds := holds + [Hold(e.Key(), predecessors[n], ReplacementLimit)];
      } else {
        allowed := allowed - 1;
        places := places + [Place(e, PlaceOf(predecessors[n]))];
      }
      n := n + 1;
    }
  }

  /** The pass over one entry, with the room the entries after it are left. */
  method KeepEntry(e: Entry, s: Counts, room: int) returns (places: seq<Place>, holds: seq<Hold>, left: int)
    ensures places == PlacesOf(e, FillAt(e, s, room)) && holds == HoldsOf(e, FillAt(e, s, room))
    ensures left == RoomAfter(e, FillAt(e, s, room), room)
  {
    var need, predecessors, early := ReadEnded(e.Key(), EndedOf(s.ended, e.Key()), e.count - At(s.atWork, e.Key()));
    var limit := Allowed(At(s.recent, e.Key()));
    var fits := need;
    left := room;
    if !e.Key().Researches() {
      fits := Min(need, room);
      left := room - fits;
    }
    places, holds := FillPlaces(e, fits, predecessors, limit);
    holds := early + holds;
  }

  method PoolDeficit(pool: Pool, maxAgents: int, s: Counts) returns (places: seq<Place>, holds: seq<Hold>)
    ensures places == AllPlaces(pool, Fills(pool, s, Room(maxAgents, s)))
    ensures holds == AllHolds(pool, Fills(pool, s, Room(maxAgents, s)))
  {
    hide FillAt, PlacesOf, HoldsOf, RoomAfter;
    var working := Working(s.atWork);
    var room := maxAgents - working;
    places, holds := [], [];
    for i := 0 to |pool|
      invariant places + AllPlaces(pool[i..], Fills(pool[i..], s, room))
             == AllPlaces(pool, Fills(pool, s, Room(maxAgents, s)))
      invariant holds + AllHolds(pool[i..], Fills(pool[i..], s, room))
             == AllHolds(pool, Fills(pool, s, Room(maxAgents, s)))
    {
      assert pool[i..][0] == pool[i] && pool[i..][1..] == pool[i + 1..];
      var filled, held;
      filled, held, room := KeepEntry(pool[i], s, room);
      places, holds := places + filled, holds + held;
    }
  }
}
