/** The normal forms of a pool: its entries merged by key, capped, and counted against who is at work. */
module PoolForms {
  import opened AgentPool
  import opened AgentPoolLaws

  /** How many executors a pool wants. */
  function Wanted(p: Pool): int {
    if |p| == 0 then 0 else
    var n := |p| - 1;
    Wanted(p[..n]) + if p[n].Key().Researches() then 0 else p[n].count
  }

  method Executors(p: Pool) returns (total: int)
    ensures total == Wanted(p)
  {
    total := 0;
    for i := 0 to |p|
      invariant total == Wanted(p[..i])
    {
      assert p[..i + 1][..i] == p[..i];
      if !p[i].Key().Researches() {
        total := total + p[i].count;
      }
    }
    assert p[..|p|] == p;
  }

  // ----- capped ---------------------------------------------------------------------------------

  lemma {:induction false} WantedUpdate(p: Pool, i: nat, count: int)
    requires i < |p|
    ensures Wanted(p[i := p[i].(count := count)])
         == Wanted(p) + if p[i].Key().Researches() then 0 else count - p[i].count
  {
    var n := |p| - 1;
    var q := p[i := p[i].(count := count)];
    if i == n {
      assert q[..n] == p[..n];
    } else {
      assert q[..n] == p[..n][i := p[i].(count := count)];
      WantedUpdate(p[..n], i, count);
    }
  }

  lemma {:induction false} WantedZero(p: Pool)
    requires forall i :: 0 <= i < |p| && !p[i].Key().Researches() ==> p[i].count == 0
    ensures Wanted(p) == 0
  {
    if |p| > 0 { WantedZero(p[..|p| - 1]); }
  }

  /** What lowering the last executors of a pool means: no entry raised or below zero, researchers as
      they are, and an executor entry lowered only once every one after it wants nobody. */
  ghost predicate LoweredFromTheEnd(p: Pool, out: Pool) {
    && |out| == |p|
    && (forall i :: 0 <= i < |p| ==> out[i] == p[i].(count := out[i].count) && 0 <= out[i].count <= p[i].count)
    && (forall i :: 0 <= i < |p| && p[i].Key().Researches() ==> out[i] == p[i])
    && (forall i, j :: 0 <= i < j < |p| && out[i].count < p[i].count && !p[j].Key().Researches() ==> out[j].count == 0)
  }

  method Capped(p: Pool, maxAgents: int) returns (out: Pool)
    requires forall i :: 0 <= i < |p| ==> p[i].count >= 0
    ensures LoweredFromTheEnd(p, out)
    ensures Wanted(out) == Min(Wanted(p), Max(0, maxAgents))
  {
    hide Wanted, LoweredFromTheEnd, NoneAfter;
    out := p;
    var wanted := Executors(p);
    var over := wanted - maxAgents;
    var i := |out| - 1;
    LowerNothing(p);
    while i >= 0 && over > 0
      invariant -1 <= i < |p| && |out| == |p|
      invariant if over > 0 then NoneAfter(p, out, i) else LoweredFromTheEnd(p, out)
      invariant if wanted > maxAgents then over == Wanted(out) - maxAgents >= 0 else out == p && over <= 0
    {
      NoneAfterAt(p, out, i);
      if !out[i].Key().Researches() {
        var cut := Min(out[i].count, over);
        WantedUpdate(out, i, out[i].count - cut);
        LowerOne(p, out, i, out[i].count - cut);
        out := out[i := out[i].(count := out[i].count - cut)];
        over := over - cut;
      }
      i := i - 1;
    }
    WantedNonNegative(p);
    if over > 0 {
      NoneAtAll(p, out);
    } else {
      LoweredNonNegative(p, out);
    }
  }

  /** Every executor entry after i wants nobody, and everything else is as it was. */
  ghost predicate NoneAfter(p: Pool, out: Pool, i: int) {
    && |out| == |p|
    && forall j :: 0 <= j < |p| ==>
         out[j] == if j > i && !p[j].Key().Researches() then p[j].(count := 0) else p[j]
  }

  lemma LowerNothing(p: Pool)
    requires forall i :: 0 <= i < |p| ==> p[i].count >= 0
    ensures LoweredFromTheEnd(p, p) && NoneAfter(p, p, |p| - 1)
  {
  }

  lemma NoneAfterAt(p: Pool, out: Pool, i: nat)
    requires NoneAfter(p, out, i) && i < |p|
    ensures out[i] == p[i] && (p[i].Key().Researches() ==> NoneAfter(p, out, i - 1))
  {
  }

  lemma NoneAtAll(p: Pool, out: Pool)
    requires NoneAfter(p, out, -1) && forall i :: 0 <= i < |p| ==> p[i].count >= 0
    ensures Wanted(out) == 0 && LoweredFromTheEnd(p, out)
  {
    WantedZero(out);
  }

  lemma LoweredNonNegative(p: Pool, out: Pool)
    requires LoweredFromTheEnd(p, out)
    ensures Wanted(out) >= 0
  {
    WantedNonNegative(out);
  }

  lemma LowerOne(p: Pool, out: Pool, i: nat, count: int)
    requires NoneAfter(p, out, i) && i < |p| && !p[i].Key().Researches() && 0 <= count <= p[i].count
    requires forall j :: 0 <= j < |p| ==> p[j].count >= 0
    ensures var lowered := out[i := out[i].(count := count)];
            LoweredFromTheEnd(p, lowered) && (count == 0 ==> NoneAfter(p, lowered, i - 1))
  {
  }

  lemma {:induction false} WantedNonNegative(p: Pool)
    requires forall i :: 0 <= i < |p| ==> p[i].count >= 0
    ensures Wanted(p) >= 0
  {
    if |p| > 0 { WantedNonNegative(p[..|p| - 1]); }
  }

  lemma {:induction false} WantedLess(p: Pool, q: Pool)
    requires |p| == |q| && forall i :: 0 <= i < |p| ==> p[i].Key() == q[i].Key() && p[i].count <= q[i].count
    ensures Wanted(p) <= Wanted(q)
    ensures forall i :: 0 <= i < |p| && !p[i].Key().Researches() && p[i].count < q[i].count ==> Wanted(p) < Wanted(q)
  {
    if |p| > 0 { WantedLess(p[..|p| - 1], q[..|q| - 1]); }
  }

  /** There is one way to lower a pool from the end to a total, so that is what Capped does. */
  lemma CappedIsUnique(p: Pool, a: Pool, b: Pool)
    requires LoweredFromTheEnd(p, a) && LoweredFromTheEnd(p, b) && Wanted(a) == Wanted(b)
    ensures a == b
  {
    if a != b {
      var i :| 0 <= i < |p| && a[i] != b[i];
      if a[i].count < b[i].count {
        Behind(p, a, b, i);
      } else {
        Behind(p, b, a, i);
      }
    }
  }

  lemma Behind(p: Pool, a: Pool, b: Pool, i: nat)
    requires LoweredFromTheEnd(p, a) && LoweredFromTheEnd(p, b) && i < |p| && a[i].count < b[i].count
    ensures Wanted(a) < Wanted(b)
  {
    forall j | 0 <= j < |p|
      ensures a[j].count <= b[j].count
    {
      assert j > i && !p[j].Key().Researches() ==> a[j].count == 0;
    }
    WantedLess(a, b);
  }

  // ----- merged by key --------------------------------------------------------------------------

  function IndexOf(p: Pool, key: PoolKey): (i: nat)
    ensures i <= |p|
    ensures i < |p| ==> p[i].Key() == key
    ensures forall j :: 0 <= j < i ==> p[j].Key() != key
  {
    if |p| == 0 then 0 else
    var n := |p| - 1;
    var i := IndexOf(p[..n], key);
    if i < n then i else if p[n].Key() == key then n else |p|
  }

  /** One more entry: its count added to the entry of its key, or itself at the end. */
  function MergeOne(out: Pool, e: Entry): Pool {
    var i := IndexOf(out, e.Key());
    if i < |out| then out[i := out[i].(count := out[i].count + e.count)] else out + [e]
  }

  function Merge(p: Pool): Pool {
    if |p| == 0 then [] else MergeOne(Merge(p[..|p| - 1]), p[|p| - 1])
  }

  /** How many of a key a pool wants. */
  function CountOf(p: Pool, key: PoolKey): int {
    if |p| == 0 then 0 else
    var n := |p| - 1;
    CountOf(p[..n], key) + if p[n].Key() == key then p[n].count else 0
  }

  function Keys(p: Pool): seq<PoolKey> { seq(|p|, i requires 0 <= i < |p| => p[i].Key()) }

  /** The keys of a pool in the order each first appears. */
  function FirstAppearances(p: Pool): seq<PoolKey> {
    if |p| == 0 then [] else
    var n := |p| - 1;
    var before := FirstAppearances(p[..n]);
    if p[n].Key() in before then before else before + [p[n].Key()]
  }

  lemma {:induction false} CountOfUpdate(p: Pool, i: nat, count: int, key: PoolKey)
    requires i < |p|
    ensures CountOf(p[i := p[i].(count := count)], key)
         == CountOf(p, key) + if p[i].Key() == key then count - p[i].count else 0
  {
    var n := |p| - 1;
    var q := p[i := p[i].(count := count)];
    if i == n {
      assert q[..n] == p[..n];
    } else {
      assert q[..n] == p[..n][i := p[i].(count := count)];
      CountOfUpdate(p[..n], i, count, key);
    }
  }

  lemma MergeOneCounts(out: Pool, e: Entry, key: PoolKey)
    ensures CountOf(MergeOne(out, e), key) == CountOf(out, key) + if e.Key() == key then e.count else 0
    ensures Wanted(MergeOne(out, e)) == Wanted(out) + if e.Key().Researches() then 0 else e.count
  {
    hide IndexOf;
    var i := IndexOf(out, e.Key());
    if i < |out| {
      CountOfUpdate(out, i, out[i].count + e.count, key);
      WantedUpdate(out, i, out[i].count + e.count);
    } else {
      assert (out + [e])[..|out|] == out;
    }
  }

  lemma MergeOneKeys(out: Pool, e: Entry)
    requires DistinctKeys(out)
    ensures DistinctKeys(MergeOne(out, e))
    ensures Keys(MergeOne(out, e)) == if e.Key() in Keys(out) then Keys(out) else Keys(out) + [e.Key()]
  {
    hide IndexOf;
    var i := IndexOf(out, e.Key());
    if i < |out| {
      assert Keys(out)[i] == e.Key();
      assert Keys(MergeOne(out, e)) == Keys(out);
    } else {
      assert e.Key() !in Keys(out);
      assert Keys(out + [e]) == Keys(out) + [e.Key()];
    }
  }

  /** A merged pool names each key once, in the order it first appeared, wants of each what the pool
      wanted in all, and as many executors. */
  lemma {:induction false} MergeKeeps(p: Pool, key: PoolKey)
    ensures DistinctKeys(Merge(p))
    ensures CountOf(Merge(p), key) == CountOf(p, key)
    ensures Wanted(Merge(p)) == Wanted(p)
    ensures Keys(Merge(p)) == FirstAppearances(p)
  {
    hide MergeOne, Keys, DistinctKeys;
    if |p| == 0 {
      NoKeys();
    } else {
      var n := |p| - 1;
      MergeKeeps(p[..n], key);
      MergeOneCounts(Merge(p[..n]), p[n], key);
      MergeOneKeys(Merge(p[..n]), p[n]);
    }
  }

  lemma NoKeys()
    ensures Keys([]) == [] && DistinctKeys([])
  {
  }

  /** A pool that names each key once is merged already. */
  lemma {:induction false} MergeIsIdempotent(p: Pool)
    requires DistinctKeys(p)
    ensures Merge(p) == p
  {
    if |p| > 0 {
      var n := |p| - 1;
      MergeIsIdempotent(p[..n]);
      assert p[..n] + [p[n]] == p;
    }
  }

  /** What an org's catalog accepts of a new agent: an agent type of a role, a model, hyperparameters. */
  datatype Catalog = Catalog(types: set<(string, bool)>, models: set<string>, hyperparameters: set<string>)

  const GENERALIST := "generalist"

  /** An entry as a joining agent of it would be started: the default type for none, refused when the
      catalog has no such type of the entry's role, or does not take its model or hyperparameters. */
  function Launch(c: Catalog, e: Entry): (string, bool) {
    var agentType := if e.agentType == "" then GENERALIST else e.agentType;
    (agentType, (agentType, e.Key().Researches()) in c.types && (e.model == "" || e.model in c.models)
                && e.hyperparameters in c.hyperparameters)
  }

  function Launched(c: Catalog, p: Pool): Pool {
    seq(|p|, i requires 0 <= i < |p| => p[i].(agentType := Launch(c, p[i]).0))
  }

  datatype Resolution = Refused(index: nat) | Resolved(pool: Pool)

  /** AgentPool.Resolved: refused at the first entry no agent can be started as, and otherwise the
      launched entries merged. */
  method Resolve(c: Catalog, p: Pool) returns (r: Resolution)
    ensures r.Resolved? ==> (forall i :: 0 <= i < |p| ==> Launch(c, p[i]).1) && r.pool == Merge(Launched(c, p))
    ensures r.Refused? ==> r.index < |p| && !Launch(c, p[r.index]).1 && forall i :: 0 <= i < r.index ==> Launch(c, p[i]).1
  {
    hide IndexOf, Launch, IsIndex;
    var out: Pool, at: map<PoolKey, nat> := [], map[];
    NothingIndexed();
    for i := 0 to |p|
      invariant forall j :: 0 <= j < i ==> Launch(c, p[j]).1
      invariant out == Merge(Launched(c, p)[..i])
      invariant IsIndex(at, out)
    {
      var (agentType, ok) := Launch(c, p[i]);
      if !ok {
        return Refused(i);
      }
      var e := p[i].(agentType := agentType);
      assert Launched(c, p)[..i + 1][..i] == Launched(c, p)[..i];
      IndexAfter(at, out, e);
      IndexFinds(at, out, e.Key());
      if e.Key() in at {
        var j := at[e.Key()];
        out := out[j := out[j].(count := out[j].count + e.count)];
        continue;
      }
      at := at[e.Key() := |out|];
      out := out + [e];
    }
    assert Launched(c, p)[..|p|] == Launched(c, p);
    r := Resolved(out);
  }

  /** A map that says where each key of a pool is. */
  ghost predicate IsIndex(at: map<PoolKey, nat>, out: Pool) {
    && (forall key :: key in at ==> at[key] < |out| && out[at[key]].Key() == key)
    && (forall j :: 0 <= j < |out| ==> out[j].Key() in at && at[out[j].Key()] == j)
  }

  lemma NothingIndexed()
    ensures IsIndex(map[], [])
  {
  }

  /** The map finds the entry a key is merged into, and stays right when a new key goes to the end. */
  lemma IndexAfter(at: map<PoolKey, nat>, out: Pool, e: Entry)
    requires IsIndex(at, out)
    ensures if e.Key() in at then IndexOf(out, e.Key()) == at[e.Key()] && IsIndex(at, MergeOne(out, e))
            else IndexOf(out, e.Key()) == |out| && IsIndex(at[e.Key() := |out|], MergeOne(out, e))
  {
    hide IndexOf, IsIndex, MergeOne;
    IndexFinds(at, out, e.Key());
    MergeOneIs(out, e);
    if e.Key() in at {
      IsIndexOfKeys(at, out, MergeOne(out, e));
    } else {
      IndexOneMore(at, out, e);
    }
  }

  lemma MergeOneIs(out: Pool, e: Entry)
    ensures if IndexOf(out, e.Key()) == |out| then MergeOne(out, e) == out + [e]
            else |MergeOne(out, e)| == |out| && forall i :: 0 <= i < |out| ==> MergeOne(out, e)[i].Key() == out[i].Key()
  {
    hide IndexOf;
  }

  lemma IndexFinds(at: map<PoolKey, nat>, out: Pool, key: PoolKey)
    requires IsIndex(at, out)
    ensures IndexOf(out, key) == if key in at then at[key] else |out|
    ensures key in at ==> at[key] < |out|
  {
    hide IndexOf;
    var i := IndexOf(out, key);
    assert i < |out| ==> out[i].Key() == key;
  }

  lemma IndexOneMore(at: map<PoolKey, nat>, out: Pool, e: Entry)
    requires IsIndex(at, out) && e.Key() !in at
    ensures IsIndex(at[e.Key() := |out|], out + [e])
  {
  }

  lemma IsIndexOfKeys(at: map<PoolKey, nat>, p: Pool, q: Pool)
    requires IsIndex(at, p) && |p| == |q| && forall i :: 0 <= i < |p| ==> p[i].Key() == q[i].Key()
    ensures IsIndex(at, q)
  {
  }

  lemma {:induction false} WantedLaunched(c: Catalog, p: Pool)
    ensures Wanted(Launched(c, p)) == Wanted(p)
  {
    if |p| > 0 {
      assert Launched(c, p)[..|p| - 1] == Launched(c, p[..|p| - 1]);
      WantedLaunched(c, p[..|p| - 1]);
    }
  }

  /** Resolving wants the executors the pool wanted, and resolving again refuses nothing and changes
      nothing. */
  lemma ResolvedKeeps(c: Catalog, p: Pool)
    ensures var out := Merge(Launched(c, p));
            && Wanted(out) == Wanted(p) && DistinctKeys(out) && Merge(Launched(c, out)) == out
            && ((forall i :: 0 <= i < |p| ==> Launch(c, p[i]).1) ==> forall i :: 0 <= i < |out| ==> Launch(c, out[i]).1)
  {
    hide Merge, Wanted, DistinctKeys, Launch, Launched;
    var out := Merge(Launched(c, p));
    MergeKeeps(Launched(c, p), PoolKey("", ""));
    WantedLaunched(c, p);
    ResolvedIsLaunched(c, p);
    MergeIsIdempotent(out);
    if forall i :: 0 <= i < |p| ==> Launch(c, p[i]).1 {
      LaunchedLaunches(c, p);
      MergeLaunches(c, Launched(c, p));
    }
  }

  lemma LaunchedLaunches(c: Catalog, p: Pool)
    requires forall i :: 0 <= i < |p| ==> Launch(c, p[i]).1
    ensures |Launched(c, p)| == |p| && forall i :: 0 <= i < |p| ==> Launch(c, Launched(c, p)[i]).1
  {
  }

  lemma ResolvedIsLaunched(c: Catalog, p: Pool)
    ensures var out := Merge(Launched(c, p)); Launched(c, out) == out
  {
    hide Merge;
    MergeNamed(Launched(c, p));
  }

  lemma {:induction false} MergeLaunches(c: Catalog, p: Pool)
    requires forall i :: 0 <= i < |p| ==> Launch(c, p[i]).1
    ensures forall i :: 0 <= i < |Merge(p)| ==> Launch(c, Merge(p)[i]).1
  {
    if |p| > 0 {
      MergeLaunches(c, p[..|p| - 1]);
      MergeOneLaunches(c, Merge(p[..|p| - 1]), p[|p| - 1]);
    }
  }

  lemma MergeOneLaunches(c: Catalog, out: Pool, e: Entry)
    requires Launch(c, e).1 && forall i :: 0 <= i < |out| ==> Launch(c, out[i]).1
    ensures forall i :: 0 <= i < |MergeOne(out, e)| ==> Launch(c, MergeOne(out, e)[i]).1
  {
    hide IndexOf;
    var i := IndexOf(out, e.Key());
    if i < |out| { assert Launch(c, out[i].(count := out[i].count + e.count)).1; }
  }

  lemma {:induction false} MergeNamed(p: Pool)
    requires forall i :: 0 <= i < |p| ==> p[i].agentType != ""
    ensures forall i :: 0 <= i < |Merge(p)| ==> Merge(p)[i].agentType != ""
  {
    if |p| > 0 { MergeNamed(p[..|p| - 1]); }
  }

  // ----- against who is at work -----------------------------------------------------------------

  datatype AgentsAtWork = AgentsAtWork(total: int, pool: seq<int>, outsideTeam: int)

  function SumOf(xs: seq<int>): int {
    if |xs| == 0 then 0 else SumOf(xs[..|xs| - 1]) + xs[|xs| - 1]
  }

  /** Counts with the keys of a pool left out. */
  function Outside(atWork: map<PoolKey, int>, p: Pool): map<PoolKey, int> {
    map key | key in atWork && key !in Keys(p) :: atWork[key]
  }

  /** Everyone at work is counted once: on the entry of its key, or outside the team. */
  lemma {:induction false} EntriesAndOutside(p: Pool, atWork: map<PoolKey, int>)
    requires DistinctKeys(p)
    ensures SumOf(seq(|p|, i requires 0 <= i < |p| => At(atWork, p[i].Key()))) + Tally(Outside(atWork, p), true)
         == Tally(atWork, true)
  {
    var all := seq(|p|, i requires 0 <= i < |p| => At(atWork, p[i].Key()));
    if |p| == 0 {
      assert Outside(atWork, p) == atWork;
    } else {
      var n := |p| - 1;
      var key := p[n].Key();
      EntriesAndOutside(p[..n], atWork);
      assert all[..n] == seq(n, i requires 0 <= i < n => At(atWork, p[..n][i].Key()));
      TallyAny(Outside(atWork, p[..n]), key, true);
      assert forall k :: k in Keys(p) <==> k in Keys(p[..n]) || k == key by { KeysLast(p); }
      assert key !in Keys(p[..n]);
      assert Outside(atWork, p[..n]) - {key} == Outside(atWork, p);
    }
  }

  lemma KeysLast(p: Pool)
    requires |p| > 0
    ensures forall k :: k in Keys(p) <==> k in Keys(p[..|p| - 1]) || k == p[|p| - 1].Key()
  {
    assert Keys(p) == Keys(p[..|p| - 1]) + [p[|p| - 1].Key()];
  }

  method AtWorkOf(p: Pool, atWork: map<PoolKey, int>) returns (out: AgentsAtWork)
    ensures out.total == Tally(atWork, false)
    ensures out.pool == seq(|p|, i requires 0 <= i < |p| => At(atWork, p[i].Key()))
    ensures DistinctKeys(p) ==> SumOf(out.pool) + out.outsideTeam == Tally(atWork, true)
  {
    var entries: seq<int>, named: set<PoolKey> := [], {};
    for i := 0 to |p|
      invariant entries == seq(i, j requires 0 <= j < i => At(atWork, p[j].Key()))
      invariant forall key :: key in named <==> key in Keys(p[..i])
    {
      KeysLast(p[..i + 1]);
      assert p[..i + 1][..i] == p[..i];
      entries := entries + [At(atWork, p[i].Key())];
      named := named + {p[i].Key()};
    }
    var total, outside, unread := 0, 0, atWork;
    assert p[..|p|] == p;
    while unread != map[]
      invariant unread.Keys <= atWork.Keys && forall key :: key in unread ==> unread[key] == atWork[key]
      invariant total + Tally(unread, false) == Tally(atWork, false)
      invariant outside + Tally(Outside(unread, p), true) == Tally(Outside(atWork, p), true)
      decreases |unread|
    {
      var key :| key in unread;
      TallyAny(unread, key, false);
      TallyAny(Outside(unread, p), key, true);
      assert Outside(unread - {key}, p) == Outside(unread, p) - {key};
      if !key.Researches() {
        total := total + unread[key];
      }
      if key !in named {
        outside := outside + unread[key];
      }
      unread := unread - {key};
    }
    assert Outside(map[], p) == map[];
    if DistinctKeys(p) {
      EntriesAndOutside(p, atWork);
    }
    out := AgentsAtWork(total, entries, outside);
  }
}
