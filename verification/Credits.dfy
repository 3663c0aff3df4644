/** Shares of a run's budget: the split at the start and the share of an executor that joins late. */
module Credits {
  import opened Hours
  import opened Sums

  // ----- the split at the start ---------------------------------------------------------------

  /** What every one of n agents is given before its own bonus: an even part of what the bonuses leave. */
  function AdjustedBase(budget: real, n: int, totalBonus: real): real
    requires n > 0
  {
    (budget - budget / n as real * totalBonus) / n as real
  }

  /** The guaranteed hours of one of n agents, its own bonus and the sum of all bonuses given. */
  function AllocateGuaranteed(m: Rounding, budget: real, n: int, bonus: real, totalBonus: real): real {
    if n <= 0 then 0.0
    else Round(m, Unrounded(budget, n, bonus, totalBonus))
  }

  /** The same before rounding. */
  function Unrounded(budget: real, n: int, bonus: real, totalBonus: real): real
    requires n > 0
  {
    AdjustedBase(budget, n, totalBonus) + Product(bonus, budget / n as real)
  }

  function AllocateBurst(m: Rounding, guaranteed: real, burstFraction: real): real {
    Round(m, Product(guaranteed, burstFraction))
  }

  function Allocations(m: Rounding, budget: real, bonuses: seq<real>): seq<real> {
    seq(|bonuses|, i requires 0 <= i < |bonuses| =>
      AllocateGuaranteed(m, budget, |bonuses|, bonuses[i], Sum(bonuses)))
  }

  function UnroundedAll(budget: real, bonuses: seq<real>): (r: seq<real>)
    ensures |r| == |bonuses|
  {
    seq(|bonuses|, i requires 0 <= i < |bonuses| => Unrounded(budget, |bonuses|, bonuses[i], Sum(bonuses)))
  }

  /** The shares the start hands out sum to the budget, to half a millionth for each agent:
      exactly, with no rounding. */
  lemma AllocationsSumToBudget(m: Rounding, budget: real, bonuses: seq<real>)
    requires |bonuses| > 0
    ensures Abs(Sum(Allocations(m, budget, bonuses)) - budget) <= Times(|bonuses|, Delta(m))
  {
    hide Unrounded, Round, Delta;
    var all := seq(|bonuses|, i => true);
    forall i | 0 <= i < |bonuses|
      ensures -Delta(m) <= Allocations(m, budget, bonuses)[i] - UnroundedAll(budget, bonuses)[i] <= Delta(m)
    {
      RoundNear(m, UnroundedAll(budget, bonuses)[i]);
    }
    UnroundedSum(budget, bonuses);
    CountAll(|bonuses|);
    SumWithin(Allocations(m, budget, bonuses), UnroundedAll(budget, bonuses), all, Delta(m));
  }

  lemma UnroundedSum(budget: real, bonuses: seq<real>)
    requires |bonuses| > 0
    ensures Sum(UnroundedAll(budget, bonuses)) == budget
  {
    var n := |bonuses|;
    var base, flat := budget / n as real, AdjustedBase(budget, n, Sum(bonuses));
    var even, all := seq(n, i => flat), seq(n, i => true);
    hide Product, AdjustedBase;
    CountAll(n);
    SumFlagged(even, all, flat);
    SumScale(bonuses, base);
    SumAdd(even, Scale(bonuses, base), UnroundedAll(budget, bonuses));
    AdjustedBaseIs(budget, n, Sum(bonuses));
  }

  lemma AdjustedBaseIs(budget: real, n: nat, totalBonus: real)
    requires n > 0
    ensures Times(n, AdjustedBase(budget, n, totalBonus)) + Product(totalBonus, budget / n as real) == budget
  {
    TimesIsProduct(n, AdjustedBase(budget, n, totalBonus));
    DivMul(budget - budget / n as real * totalBonus, n as real);
  }

  lemma {:induction false} CountAll(n: nat)
    ensures Count(seq(n, i => true)) == n
  {
    if n > 0 {
      assert seq(n, i => true)[..n - 1] == seq(n - 1, i => true);
      CountAll(n - 1);
    }
  }

  lemma AllocationMonotone(m: Rounding, budget: real, n: int, low: real, high: real, totalBonus: real)
    requires budget >= 0.0 && low <= high
    ensures AllocateGuaranteed(m, budget, n, low, totalBonus) <= AllocateGuaranteed(m, budget, n, high, totalBonus)
  {
    if n > 0 {
      DivMul(budget, n as real);
      MulMonotone(low, high, budget / n as real);
      RoundMonotone(m, Unrounded(budget, n, low, totalBonus), Unrounded(budget, n, high, totalBonus));
    }
  }

  /** An agent's allocation before rounding is negative exactly when the bonuses of all exceed one
      whole share for each agent and its own bonus for each agent besides. */
  lemma AllocationSign(budget: real, n: int, bonus: real, totalBonus: real)
    requires n > 0 && budget > 0.0
    ensures AllocateGuaranteed(Exact, budget, n, bonus, totalBonus) >= 0.0 <==> totalBonus <= n as real * (1.0 + bonus)
  {
    var k := n as real;
    var base := budget / k;
    var x := AllocateGuaranteed(Exact, budget, n, bonus, totalBonus);
    DivMul(budget, k);
    DivMul(budget - base * totalBonus, k);
    assert k * x == base * (k * (1.0 + bonus) - totalBonus);
    SameSign(k, x, base, k * (1.0 + bonus) - totalBonus);
  }

  lemma SameSign(a: real, x: real, b: real, y: real)
    requires a > 0.0 && b > 0.0 && a * x == b * y
    ensures x >= 0.0 <==> y >= 0.0
  {
  }

  lemma AllocationTimes(budget: real, n: int, bonus: real, totalBonus: real)
    requires n > 0
    ensures var k := n as real;
            Unrounded(budget, n, bonus, totalBonus) * (k * k) == budget * (k * (1.0 + bonus) - totalBonus)
  {
    var k := n as real;
    var base, x := budget / k, Unrounded(budget, n, bonus, totalBonus);
    DivMul(budget, k);
    DivMul(budget - base * totalBonus, k);
    assert k * x == base * (k * (1.0 + bonus) - totalBonus);
    TimesBoth(k, x, base, k * (1.0 + bonus) - totalBonus, budget);
  }

  lemma TimesBoth(k: real, x: real, base: real, y: real, budget: real)
    requires k * x == base * y && base * k == budget
    ensures x * (k * k) == budget * y
  {
    assert x * (k * k) == (k * x) * k;
    assert (base * y) * k == (base * k) * y;
  }

  /** As it is rounded, an allocation is negative exactly when it falls below nothing by half a
      millionth or more. */
  lemma AllocationSignRounded(budget: real, n: int, bonus: real, totalBonus: real)
    requires n > 0
    ensures var k := n as real;
            AllocateGuaranteed(Millionth, budget, n, bonus, totalBonus) >= 0.0 <==>
            budget * (totalBonus - k * (1.0 + bonus)) < Delta(Millionth) * (k * k)
  {
    var k := n as real;
    var x, delta := Unrounded(budget, n, bonus, totalBonus), Delta(Millionth);
    hide Unrounded, Delta;
    RoundSign(x);
    AllocationTimes(budget, n, bonus, totalBonus);
    MulPositive(k, k);
    OrderTimes(-delta, x, k * k);
    Negated(budget, k * (1.0 + bonus), totalBonus);
    assert -delta * (k * k) == -(delta * (k * k));
  }

  lemma Negated(a: real, b: real, c: real)
    ensures a * (c - b) == -(a * (b - c))
  {
  }

  /** A bonus of two whole shares for three of four agents leaves the fourth less than nothing. */
  lemma NegativeAllocation(m: Rounding)
    ensures AllocateGuaranteed(m, 10.0, 4, 0.0, 6.0) == -1.25
  {
    assert Unrounded(10.0, 4, 0.0, 6.0) == -1.25;
    assert RoundInt(-1.25 * MILLION) == -1250000;
  }

  // ----- the share of a late executor ---------------------------------------------------------

  datatype ExecutorQuota = ExecutorQuota(agentID: string, guaranteed: real, burst: real, used: real, ended: bool) {
    function Unspent(): (u: real)
      ensures u >= 0.0
    {
      var share := if guaranteed <= 0.0 then burst else guaranteed;
      Max(0.0, share - used)
    }
  }

  ghost predicate DistinctAgents(qs: seq<ExecutorQuota>) {
    forall i, j :: 0 <= i < j < |qs| ==> qs[i].agentID != qs[j].agentID
  }

  function Unspents(qs: seq<ExecutorQuota>): seq<real> {
    seq(|qs|, i requires 0 <= i < |qs| => qs[i].Unspent())
  }

  /** What the executors that ended left, zero at the places of the others. */
  function EndedUnspents(qs: seq<ExecutorQuota>): seq<real> {
    seq(|qs|, i requires 0 <= i < |qs| => if qs[i].ended then qs[i].Unspent() else 0.0)
  }

  /** What the executors at work hold above a share. */
  function Excesses(qs: seq<ExecutorQuota>, share: real): seq<real> {
    seq(|qs|, i requires 0 <= i < |qs| => if qs[i].ended then 0.0 else Max(0.0, qs[i].Unspent() - share))
  }

  function AtWork(qs: seq<ExecutorQuota>): seq<bool> {
    seq(|qs|, i requires 0 <= i < |qs| => !qs[i].ended)
  }

  function Workers(qs: seq<ExecutorQuota>): nat { Count(AtWork(qs)) }

  function ShareOf(m: Rounding, qs: seq<ExecutorQuota>): real {
    Round(m, Sum(Unspents(qs)) / (Workers(qs) + 1) as real)
  }

  /** What a share still needs once the ended executors among the first k gave what they left. */
  function Need(share: real, qs: seq<ExecutorQuota>, k: nat): real
    requires k <= |qs|
  {
    Max(0.0, share - Sum(EndedUnspents(qs)[..k]))
  }

  function Take(m: Rounding, share: real, qs: seq<ExecutorQuota>, i: nat): real
    requires i < |qs|
  {
    var need, above := Need(share, qs, |qs|), Sum(Excesses(qs, share));
    var excess := qs[i].Unspent() - share;
    if qs[i].ended then Min(Need(share, qs, i), qs[i].Unspent())
    else if need <= 0.0 || above <= 0.0 || excess <= 0.0 then 0.0
    else WorkerGives(m, excess, need, above)
  }

  /** What an executor at work gives of its excess, when those at work hold above together. */
  function WorkerGives(m: Rounding, excess: real, need: real, above: real): real
    requires above > 0.0
  {
    Round(m, Product(excess, Min(1.0, need / above)))
  }

  function Takes(m: Rounding, qs: seq<ExecutorQuota>): (takes: seq<real>)
    ensures |takes| == |qs|
  {
    seq(|qs|, i requires 0 <= i < |qs| => Take(m, ShareOf(m, qs), qs, i))
  }

  /** What a map of amounts by agent says of one, zero for an agent it does not name. */
  function AmountOf(taken: map<string, real>, agentID: string): real {
    if agentID in taken then taken[agentID] else 0.0
  }

  /** What agent j gave once the ended and the first i executors at work were asked. */
  function TakenBy(m: Rounding, share: real, qs: seq<ExecutorQuota>, i: nat, j: nat): real
    requires j < |qs|
  {
    if qs[j].ended || j < i then Take(m, share, qs, j) else 0.0
  }

  /** LateShare, rounding as m says: the platform's is Millionth. */
  method LateShare(m: Rounding, quotas: seq<ExecutorQuota>) returns (share: real, taken: map<string, real>)
    requires DistinctAgents(quotas)
    ensures share == ShareOf(m, quotas)
    ensures forall i :: 0 <= i < |quotas| ==> AmountOf(taken, quotas[i].agentID) == Takes(m, quotas)[i]
    ensures forall id :: id in taken ==> exists i :: 0 <= i < |quotas| && quotas[i].agentID == id
  {
    share := EvenPart(m, quotas);
    ShareNonNegative(m, quotas);
    hide ShareOf, WorkerGives;
    var need;
    need, taken := TakeFromEnded(m, share, quotas);
    var above := 0.0;
    for i := 0 to |quotas|
      invariant above == Sum(Excesses(quotas, share)[..i])
    {
      SumPrefix(Excesses(quotas, share), i);
      if !quotas[i].ended {
        above := above + Max(0.0, quotas[i].Unspent() - share);
      }
    }
    assert Excesses(quotas, share)[..|quotas|] == Excesses(quotas, share);
    if need <= 0.0 || above <= 0.0 {
      return;
    }
    taken := TakeFromWorkers(m, share, quotas, need, above, taken);
  }

  /** The first loop: an even part, with the executors at work, of what all left unspent. */
  method EvenPart(m: Rounding, quotas: seq<ExecutorQuota>) returns (share: real)
    ensures share == ShareOf(m, quotas)
  {
    var unspent, atWork := 0.0, 0;
    for i := 0 to |quotas|
      invariant unspent == Sum(Unspents(quotas)[..i])
      invariant atWork == Count(AtWork(quotas)[..i])
    {
      SumPrefix(Unspents(quotas), i);
      assert AtWork(quotas)[..i + 1][..i] == AtWork(quotas)[..i];
      unspent := unspent + quotas[i].Unspent();
      if !quotas[i].ended {
        atWork := atWork + 1;
      }
    }
    assert Unspents(quotas)[..|quotas|] == Unspents(quotas) && AtWork(quotas)[..|quotas|] == AtWork(quotas);
    share := Round(m, unspent / (atWork + 1) as real);
  }

  /** The second loop: the executors that ended give first, in order, and what the share still needs. */
  method TakeFromEnded(m: Rounding, share: real, quotas: seq<ExecutorQuota>)
    returns (need: real, taken: map<string, real>)
    requires DistinctAgents(quotas) && share >= 0.0
    ensures need == Need(share, quotas, |quotas|)
    ensures forall id :: id in taken ==> exists j :: 0 <= j < |quotas| && quotas[j].agentID == id
    ensures forall j :: 0 <= j < |quotas| ==> AmountOf(taken, quotas[j].agentID) == TakenBy(m, share, quotas, 0, j)
  {
    hide WorkerGives;
    need, taken := share, map[];
    for i := 0 to |quotas|
      invariant need == Need(share, quotas, i)
      invariant forall id :: id in taken ==> exists j :: 0 <= j < i && quotas[j].agentID == id
      invariant forall j :: 0 <= j < i ==> AmountOf(taken, quotas[j].agentID) == TakenBy(m, share, quotas, 0, j)
    {
      SumPrefix(EndedUnspents(quotas), i);
      if !quotas[i].ended || need <= 0.0 {
        continue;
      }
      var take := Min(need, quotas[i].Unspent());
      if take > 0.0 {
        taken := taken[quotas[i].agentID := take];
        need := need - take;
      }
    }
  }

  /** The last loop: the executors at work that hold more than the share give in proportion to it. */
  method TakeFromWorkers(m: Rounding, share: real, quotas: seq<ExecutorQuota>, need: real, above: real,
                         given: map<string, real>)
    returns (taken: map<string, real>)
    requires DistinctAgents(quotas)
    requires need == Need(share, quotas, |quotas|) > 0.0 && above == Sum(Excesses(quotas, share)) > 0.0
    requires forall id :: id in given ==> exists j :: 0 <= j < |quotas| && quotas[j].agentID == id
    requires forall j :: 0 <= j < |quotas| ==> AmountOf(given, quotas[j].agentID) == TakenBy(m, share, quotas, 0, j)
    ensures forall id :: id in taken ==> exists j :: 0 <= j < |quotas| && quotas[j].agentID == id
    ensures forall j :: 0 <= j < |quotas| ==> AmountOf(taken, quotas[j].agentID) == Take(m, share, quotas, j)
  {
    hide WorkerGives, Need, Excesses, EndedUnspents, Sum;
    taken := given;
    for i := 0 to |quotas|
      invariant forall id :: id in taken ==> exists j :: 0 <= j < |quotas| && quotas[j].agentID == id
      invariant forall j :: 0 <= j < |quotas| ==> AmountOf(taken, quotas[j].agentID) == TakenBy(m, share, quotas, i, j)
    {
      var excess := quotas[i].Unspent() - share;
      if !quotas[i].ended && excess > 0.0 {
        taken := taken[quotas[i].agentID := WorkerGives(m, excess, need, above)];
      }
    }
  }

  // ----- what LateShare keeps -----------------------------------------------------------------

  lemma ShareNonNegative(m: Rounding, qs: seq<ExecutorQuota>)
    ensures ShareOf(m, qs) >= 0.0
    ensures Times(Workers(qs) + 1, ShareOf(m, qs)) <= Sum(Unspents(qs)) + Times(Workers(qs) + 1, Delta(m))
  {
    SumNonNegative(Unspents(qs));
    var n := Workers(qs) + 1;
    var total := Sum(Unspents(qs));
    DivMul(total, n as real);
    RoundNear(m, total / n as real);
    assert ShareOf(m, qs) == Round(m, total / n as real);
    hide *;
    TimesAtMost(n, total, ShareOf(m, qs), Delta(m));
  }

  /** The newcomer's share is an even part, with those at work, of what all left unspent: as many times
      it as there are to share come to all of it, to one rounding each, and exactly without rounding. */
  lemma ShareIsEven(m: Rounding, qs: seq<ExecutorQuota>)
    ensures var n := Workers(qs) + 1;
            -Times(n, Delta(m)) <= Times(n, ShareOf(m, qs)) - Sum(Unspents(qs)) <= Times(n, Delta(m))
  {
    hide Sum, Times;
    var n := Workers(qs) + 1;
    RoundNear(m, Sum(Unspents(qs)) / n as real);
    TimesAtMost(n, Sum(Unspents(qs)), ShareOf(m, qs), Delta(m));
    TimesAtLeast(n, Sum(Unspents(qs)), ShareOf(m, qs), Delta(m));
  }

  /** Before any rounding of what each gives, the share never needs more than what the executors
      at work hold above it, but for the rounding of the share itself. */
  lemma NeedWithinAbove(m: Rounding, qs: seq<ExecutorQuota>)
    ensures var share := ShareOf(m, qs);
            Need(share, qs, |qs|) <= Sum(Excesses(qs, share)) + Times(Workers(qs) + 1, Delta(m))
  {
    ShareNonNegative(m, qs);
    TimesNonNegative(Workers(qs) + 1, Delta(m));
    EvenPartLeavesEnough(qs, ShareOf(m, qs), Times(Workers(qs) + 1, Delta(m)));
  }

  lemma EvenPartLeavesEnough(qs: seq<ExecutorQuota>, share: real, slack: real)
    requires share >= 0.0 && slack >= 0.0
    requires Times(Workers(qs) + 1, share) <= Sum(Unspents(qs)) + slack
    ensures Need(share, qs, |qs|) <= Sum(Excesses(qs, share)) + slack
  {
    var least := seq(|qs|, i requires 0 <= i < |qs| => if qs[i].ended then 0.0 else qs[i].Unspent() - share);
    var kept := seq(|qs|, i requires 0 <= i < |qs| => if !qs[i].ended then share else 0.0);
    var both := seq(|qs|, i requires 0 <= i < |qs| => EndedUnspents(qs)[i] + least[i]);
    hide Sum, Times, Count;
    SumFlagged(kept, AtWork(qs), share);
    SumAdd(EndedUnspents(qs), least, both);
    SumAdd(both, kept, Unspents(qs));
    SumLe(least, Excesses(qs, share));
    SumNonNegative(Excesses(qs, share));
    assert EndedUnspents(qs)[..|qs|] == EndedUnspents(qs);
  }

  /** What the ended give together: the whole share, or all they left of it. */
  lemma EndedGive(m: Rounding, share: real, qs: seq<ExecutorQuota>, k: nat)
    requires k <= |qs| && share >= 0.0
    ensures var given := seq(|qs|, i requires 0 <= i < |qs| => if qs[i].ended then Take(m, share, qs, i) else 0.0);
            Sum(given[..k]) == share - Need(share, qs, k)
  {
    var given := seq(|qs|, i requires 0 <= i < |qs| => if qs[i].ended then Take(m, share, qs, i) else 0.0);
    if k > 0 {
      EndedGive(m, share, qs, k - 1);
      SumPrefix(given, k - 1);
      SumPrefix(EndedUnspents(qs), k - 1);
    }
  }

  /** The part of its excess each executor at work gives. */
  function Part(need: real, above: real): real {
    if need <= 0.0 || above <= 0.0 then 0.0 else Min(1.0, need / above)
  }

  lemma PartOfAll(need: real, above: real)
    ensures 0.0 <= Part(need, above) <= 1.0
    ensures need <= 0.0 || above <= 0.0 ==> Part(need, above) == 0.0 && Product(above, Part(need, above)) == 0.0
    ensures need > 0.0 && above > 0.0 ==> Part(need, above) > 0.0 && Product(above, Part(need, above)) == Min(need, above)
  {
    if need > 0.0 && above > 0.0 {
      DivMul(need, above);
      DivOne(need, above);
    }
  }

  lemma WorkerGivesPart(m: Rounding, excess: real, need: real, above: real)
    requires need > 0.0 && above > 0.0 && excess > 0.0
    ensures -Delta(m) <= WorkerGives(m, excess, need, above) - Product(excess, Part(need, above)) <= Delta(m)
    ensures 0.0 <= WorkerGives(m, excess, need, above) <= Round(m, excess)
  {
    PartOfAll(need, above);
    assert 0.0 <= Product(excess, Part(need, above)) <= excess by {
      MulMonotone(Part(need, above), 1.0, excess);
      MulMonotone(0.0, Part(need, above), excess);
    }
    hide Product, Round, Delta;
    RoundNear(m, Product(excess, Part(need, above)));
    RoundMonotone(m, Product(excess, Part(need, above)), excess);
  }

  /** What the executors at work give together, to one rounding for each. */
  lemma WorkersGive(m: Rounding, share: real, qs: seq<ExecutorQuota>)
    ensures var need, above := Need(share, qs, |qs|), Sum(Excesses(qs, share));
            var given := seq(|qs|, i requires 0 <= i < |qs| => if qs[i].ended then 0.0 else Take(m, share, qs, i));
            -Times(Workers(qs), Delta(m)) <= Sum(given) - Product(above, Part(need, above)) <= Times(Workers(qs), Delta(m))
  {
    var need, above := Need(share, qs, |qs|), Sum(Excesses(qs, share));
    var given := seq(|qs|, i requires 0 <= i < |qs| => if qs[i].ended then 0.0 else Take(m, share, qs, i));
    var exact := Scale(Excesses(qs, share), Part(need, above));
    hide WorkerGives, Part, Delta;
    assert Part(need, above) == 0.0 || (need > 0.0 && above > 0.0) by { PartOfAll(need, above); }
    forall i | 0 <= i < |qs|
      ensures if AtWork(qs)[i] then -Delta(m) <= given[i] - exact[i] <= Delta(m) else given[i] == exact[i]
    {
      if AtWork(qs)[i] && Excesses(qs, share)[i] > 0.0 && need > 0.0 && above > 0.0 {
        WorkerGivesPart(m, Excesses(qs, share)[i], need, above);
      }
    }
    hide *;
    SumScale(Excesses(qs, share), Part(need, above));
    SumWithin(given, exact, AtWork(qs), Delta(m));
  }

  /** Conservation of a late join: what is taken sums to the newcomer's share, but for one rounding
      of the share spread over those at work and one of what each of them gives. Without
      rounding the two are equal. */
  lemma LateShareConserves(m: Rounding, qs: seq<ExecutorQuota>)
    ensures var drift := ShareOf(m, qs) - Sum(Takes(m, qs));
            -Times(Workers(qs), Delta(m)) <= drift <= Times(2 * Workers(qs) + 1, Delta(m))
  {
    var share := ShareOf(m, qs);
    var need, above := Need(share, qs, |qs|), Sum(Excesses(qs, share));
    var ended := seq(|qs|, i requires 0 <= i < |qs| => if qs[i].ended then Take(m, share, qs, i) else 0.0);
    var work := seq(|qs|, i requires 0 <= i < |qs| => if qs[i].ended then 0.0 else Take(m, share, qs, i));
    hide Take, Round, Delta, ShareOf, Part, Product;
    ShareNonNegative(m, qs);
    EndedGive(m, share, qs, |qs|);
    assert ended[..|qs|] == ended;
    WorkersGive(m, share, qs);
    NeedWithinAbove(m, qs);
    SumAdd(ended, work, Takes(m, qs));
    SumNonNegative(Excesses(qs, share));
    PartOfAll(need, above);
    TimesAdd(Workers(qs), Workers(qs) + 1, Delta(m));
    TimesNonNegative(Workers(qs) + 1, Delta(m));
    assert 2 * Workers(qs) + 1 == Workers(qs) + (Workers(qs) + 1);
  }

  /** Nobody gives more than it left unspent; whoever is at work keeps what it had or the
      newcomer's share, less one rounding; an executor at work that gives has something of its
      unspent left; and none at work gives before every ended one gave all it left. */
  lemma LateShareIsFair(m: Rounding, qs: seq<ExecutorQuota>, i: nat)
    requires i < |qs|
    ensures var share, take := ShareOf(m, qs), Takes(m, qs)[i];
            && 0.0 <= take <= qs[i].Unspent()
            && (!qs[i].ended ==> qs[i].Unspent() - take >= Min(qs[i].Unspent(), share - Delta(m)))
            && (!qs[i].ended && take > 0.0 ==> take < qs[i].Unspent())
            && (!qs[i].ended && take > 0.0 ==>
                  forall j :: 0 <= j < |qs| && qs[j].ended ==> Takes(m, qs)[j] == qs[j].Unspent())
  {
    var share := ShareOf(m, qs);
    var need, above := Need(share, qs, |qs|), Sum(Excesses(qs, share));
    ShareNonNegative(m, qs);
    EndedNonNegative(qs, i);
    var excess := qs[i].Unspent() - share;
    if !qs[i].ended && need > 0.0 && above > 0.0 && excess > 0.0 {
      WorkerGivesPart(m, excess, need, above);
      RoundNear(m, excess);
      EndedNonNegative(qs, |qs|);
      RoundPositive(m, Sum(Unspents(qs)) / (Workers(qs) + 1) as real);
      forall j | 0 <= j < |qs| && qs[j].ended
        ensures Takes(m, qs)[j] == qs[j].Unspent()
      {
        EndedGivesAll(m, share, qs, j);
      }
    }
  }

  /** Those at work give in proportion to what they hold above the share: each within one rounding of the
      same part of it, and without rounding exactly. */
  lemma WorkersGiveInProportion(m: Rounding, qs: seq<ExecutorQuota>, i: nat)
    requires i < |qs| && !qs[i].ended
    ensures var share := ShareOf(m, qs);
            var need, above := Need(share, qs, |qs|), Sum(Excesses(qs, share));
            var part := Product(Excesses(qs, share)[i], Part(need, above));
            -Delta(m) <= Takes(m, qs)[i] - part <= Delta(m)
  {
    hide ShareOf, Need, Sum, WorkerGives, Delta;
    var share := ShareOf(m, qs);
    var need, above := Need(share, qs, |qs|), Sum(Excesses(qs, share));
    PartOfAll(need, above);
    var excess := qs[i].Unspent() - share;
    if need > 0.0 && above > 0.0 && excess > 0.0 {
      WorkerGivesPart(m, excess, need, above);
    } else {
      assert Product(Excesses(qs, share)[i], Part(need, above)) == 0.0;
    }
  }

  lemma EndedGivesAll(m: Rounding, share: real, qs: seq<ExecutorQuota>, j: nat)
    requires j < |qs| && qs[j].ended && Need(share, qs, |qs|) > 0.0
    ensures Take(m, share, qs, j) == qs[j].Unspent()
  {
    NeedFalls(share, qs, j + 1, |qs|);
    SumPrefix(EndedUnspents(qs), j);
  }

  lemma EndedNonNegative(qs: seq<ExecutorQuota>, k: nat)
    requires k <= |qs|
    ensures Sum(EndedUnspents(qs)[..k]) >= 0.0
  {
    SumNonNegative(EndedUnspents(qs)[..k]);
  }

  lemma {:induction false} NeedFalls(share: real, qs: seq<ExecutorQuota>, j: nat, k: nat)
    requires j <= k <= |qs|
    ensures Sum(EndedUnspents(qs)[..j]) <= Sum(EndedUnspents(qs)[..k])
    decreases k - j
  {
    if j < k {
      SumPrefix(EndedUnspents(qs), k - 1);
      NeedFalls(share, qs, j, k - 1);
    }
  }

  /** What those at work hold above the share is what it needs after the ended gave, when none of them
      holds less and nothing is rounded. */
  lemma NeedIsAbove(qs: seq<ExecutorQuota>)
    requires forall i :: 0 <= i < |qs| && !qs[i].ended ==> qs[i].Unspent() >= ShareOf(Exact, qs)
    ensures var share := ShareOf(Exact, qs); Need(share, qs, |qs|) == Sum(Excesses(qs, share))
  {
    var share, n := ShareOf(Exact, qs), |qs|;
    var kept := seq(n, i requires 0 <= i < n => if !qs[i].ended then share else 0.0);
    var both := seq(n, i requires 0 <= i < n => EndedUnspents(qs)[i] + Excesses(qs, share)[i]);
    hide Sum, Times, Count, ShareOf;
    SumFlagged(kept, AtWork(qs), share);
    SumAdd(EndedUnspents(qs), Excesses(qs, share), both);
    SumAdd(both, kept, Unspents(qs));
    ShareIsEven(Exact, qs);
    NoRounding(Workers(qs) + 1);
    TimesOneMore(Workers(qs), share);
    SumNonNegative(Excesses(qs, share));
    assert EndedUnspents(qs)[..n] == EndedUnspents(qs);
  }

  lemma {:induction false} NoRounding(n: nat)
    ensures Times(n, Delta(Exact)) == 0.0
  {
    if n > 0 { NoRounding(n - 1); }
  }

  lemma TimesOneMore(n: nat, x: real)
    ensures Times(n + 1, x) == Times(n, x) + x
  {
  }

  /** Without rounding, everyone at work ends a join with what the newcomer got, exactly when none of
      them came to it with less. */
  lemma JoinLeavesEven(qs: seq<ExecutorQuota>)
    ensures (forall i :: 0 <= i < |qs| && !qs[i].ended ==> qs[i].Unspent() - Takes(Exact, qs)[i] == ShareOf(Exact, qs)) <==>
            (forall i :: 0 <= i < |qs| && !qs[i].ended ==> qs[i].Unspent() >= ShareOf(Exact, qs))
  {
    var share := ShareOf(Exact, qs);
    hide ShareOf, Need, Excesses, Sum, EndedUnspents;
    forall i | 0 <= i < |qs| ensures Takes(Exact, qs)[i] >= 0.0 { LateShareIsFair(Exact, qs, i); }
    if forall i :: 0 <= i < |qs| && !qs[i].ended ==> qs[i].Unspent() >= share {
      NeedIsAbove(qs);
      forall i | 0 <= i < |qs| && !qs[i].ended ensures Takes(Exact, qs)[i] == qs[i].Unspent() - share {
        ExcessWithin(qs, share, i);
        GivesAll(qs[i].Unspent() - share, Sum(Excesses(qs, share)));
      }
    }
  }

  lemma ExcessWithin(qs: seq<ExecutorQuota>, share: real, i: nat)
    requires i < |qs| && !qs[i].ended && qs[i].Unspent() >= share
    ensures qs[i].Unspent() - share <= Sum(Excesses(qs, share))
  {
    SumNonNegative(Excesses(qs, share));
    assert Excesses(qs, share)[i] == qs[i].Unspent() - share;
  }

  lemma GivesAll(excess: real, above: real)
    requires 0.0 <= excess <= above
    ensures above > 0.0 ==> WorkerGives(Exact, excess, above, above) == excess
  {
    if above > 0.0 {
      DivUnique(above, above, 1.0);
      assert Product(excess, 1.0) == excess;
    }
  }

  /** Who is left without an hour of its share by a join: an ended executor that used nothing, reached
      while the share still needs all it holds. Nobody at work ever is. */
  lemma EmptiedExactly(m: Rounding, qs: seq<ExecutorQuota>, i: nat)
    requires i < |qs| && qs[i].used >= 0.0
    ensures var share := if qs[i].guaranteed <= 0.0 then qs[i].burst else qs[i].guaranteed;
            share > 0.0 ==>
              (Takes(m, qs)[i] == share <==>
               qs[i].ended && qs[i].used == 0.0 && share + Sum(EndedUnspents(qs)[..i]) <= ShareOf(m, qs))
  {
    LateShareIsFair(m, qs, i);
    EndedNonNegative(qs, i);
  }

  /** Who is drained of its last guaranteed hour, and falls back on its burst hours. */
  lemma DrainedExactly(m: Rounding, qs: seq<ExecutorQuota>, i: nat)
    requires i < |qs| && qs[i].guaranteed > 0.0 && qs[i].used >= 0.0
    ensures Takes(m, qs)[i] == qs[i].guaranteed <==>
            qs[i].ended && qs[i].used == 0.0 && qs[i].guaranteed + Sum(EndedUnspents(qs)[..i]) <= ShareOf(m, qs)
  {
    EmptiedExactly(m, qs, i);
  }
}
