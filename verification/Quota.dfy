/** One agent's quota: what its share is, what is left of it, and what a job holds and is billed. */
module Quota {
  import opened Hours
  import opened Sums

  datatype QuotaTier = TierGuaranteed | TierBurstOnly
  datatype CapacityTier = CapacityGuaranteed | CapacityBurst

  datatype AgentQuota = AgentQuota(guaranteed: real, burst: real, usedGuaranteed: real, usedBurst: real) {
    function Share(): real { if guaranteed > 0.0 then guaranteed else burst }

    function Used(): real { usedGuaranteed + usedBurst }

    function Remaining(tier: CapacityTier): real {
      var limit := if tier.CapacityGuaranteed? then guaranteed else burst;
      var used := if tier.CapacityGuaranteed? then usedGuaranteed else usedBurst;
      Max(0.0, Min(limit - used, Share() - Used()))
    }
  }

  /** What remains at a tier is exactly what a job may hold: no more than the tier's hours leave, and no
      more than the share does. */
  lemma RemainingExactly(q: AgentQuota, tier: CapacityTier, hold: real)
    requires hold > 0.0
    ensures hold <= q.Remaining(tier) <==>
            hold <= q.Share() - q.Used() && if tier.CapacityGuaranteed? then hold <= q.guaranteed - q.usedGuaranteed
                                            else hold <= q.burst - q.usedBurst
  {
  }

  /** Where a participant's (guaranteed, burst) pair lands. */
  function ApplyQuotaTier(tier: QuotaTier, guaranteed: real, burst: real): (real, real) {
    if tier.TierGuaranteed? then (guaranteed, burst) else (0.0, guaranteed)
  }

  /** The tier moves a share and never sizes it: whatever the tier, the share is the guaranteed
      amount. One that is not positive is read from the burst column, which must agree with it. */
  lemma TierKeepsShare(tier: QuotaTier, guaranteed: real, burst: real, usedGuaranteed: real, usedBurst: real)
    ensures var (g, b) := ApplyQuotaTier(tier, guaranteed, burst);
            AgentQuota(g, b, usedGuaranteed, usedBurst).Share() == guaranteed
            <==> (tier.TierGuaranteed? && guaranteed <= 0.0 ==> burst == guaranteed)
  {
  }

  /** A job that has not ended: what it holds of its quota, for how many hours it was estimated, the
      hours it was observed to run so far, and whether it is running and has been observed. */
  datatype Job = Job(hold: real, estimatedHours: real, hours: real, running: bool) {
    /** One that was not seen running has run no hour, and only hours hold anything. */
    ghost predicate Valid() {
      hold >= 0.0 && hours >= 0.0 && (!running ==> hours == 0.0) && (hold > 0.0 ==> estimatedHours > 0.0)
    }

    function Cost(): real { RatedCost(estimatedHours, hold, hours) }

    /** What a late join counts it at: its cost so far once it was seen running, until then its hold. */
    function Seen(): real { if running then Cost() else hold }

    /** What the job cost past its hold. */
    function Overrun(): real { Max(0.0, Cost() - hold) }
  }

  /** The admission-time rate of an estimate times the hours observed. */
  function RatedCost(estimatedHours: real, estimated: real, hours: real): real {
    if estimatedHours <= 0.0 then 0.0 else Product(estimated / estimatedHours, hours)
  }

  /** A job is billed its hold or less exactly while it runs no longer than it was estimated to. */
  lemma RatedCostWithinHold(estimatedHours: real, estimated: real, hours: real)
    requires estimatedHours > 0.0 && estimated > 0.0
    ensures RatedCost(estimatedHours, estimated, hours) <= estimated <==> hours <= estimatedHours
  {
    var rate := estimated / estimatedHours;
    DivMul(estimated, estimatedHours);
    if hours <= estimatedHours {
      MulMonotone(hours, estimatedHours, rate);
    } else {
      assert rate * (hours - estimatedHours) > 0.0;
    }
  }

  /** A job is billed by the hour at one rate, which over the hours it was estimated for comes to its
      estimate. */
  lemma RatedCostByTheHour(estimatedHours: real, estimated: real, a: real, b: real)
    requires estimatedHours > 0.0
    ensures RatedCost(estimatedHours, estimated, a + b) == RatedCost(estimatedHours, estimated, a) + RatedCost(estimatedHours, estimated, b)
    ensures RatedCost(estimatedHours, estimated, estimatedHours) == estimated
  {
    DivMul(estimated, estimatedHours);
    MulDistribute(a, b, estimated / estimatedHours);
  }

  /** A preempted job is requeued with its estimate and its hours scaled alike, and is billed the same. */
  lemma RatedCostRescaled(estimatedHours: real, estimated: real, hours: real, factor: real)
    requires factor > 0.0
    ensures RatedCost(estimatedHours * factor, estimated * factor, hours) == RatedCost(estimatedHours, estimated, hours)
  {
    if estimatedHours > 0.0 {
      MulPositive(estimatedHours, factor);
      DivMul(estimated, estimatedHours);
      DivUnique(estimated * factor, estimatedHours * factor, estimated / estimatedHours);
    } else {
      MulMonotone(estimatedHours, 0.0, factor);
    }
  }

  lemma CostNonNegative(j: Job)
    requires j.Valid()
    ensures j.Cost() >= 0.0 && j.Cost() <= j.hold + j.Overrun()
  {
    if j.estimatedHours > 0.0 {
      DivMul(j.hold, j.estimatedHours);
      MulNonNegative(j.hold / j.estimatedHours, j.hours);
    }
  }

  /** What an agent spent at one capacity tier: its ended jobs as they were billed, what those cost
      past their holds, and the jobs that have not ended. */
  datatype TierUse = TierUse(settled: real, overrun: real, jobs: seq<Job>) {
    ghost predicate Valid() {
      settled >= 0.0 && overrun >= 0.0 && forall i :: 0 <= i < |jobs| ==> jobs[i].Valid()
    }

    /** As admission counts: every job that has not ended at its whole estimate. */
    function Used(): real { settled + Sum(Holds()) }

    /** As a late join reads it: every running job at what it cost so far, every other at its hold. */
    function Seen(): real { settled + Sum(Seens()) }

    /** As observed: every job that has not ended at what it cost so far. */
    function Observed(): real { settled + Sum(Costs()) }

    /** What ended and running jobs cost past their holds. */
    function Overrun(): real { overrun + Sum(Overruns()) }

    function Holds(): seq<real> { seq(|jobs|, i requires 0 <= i < |jobs| => jobs[i].hold) }
    function Seens(): seq<real> { seq(|jobs|, i requires 0 <= i < |jobs| => jobs[i].Seen()) }
    function Costs(): seq<real> { seq(|jobs|, i requires 0 <= i < |jobs| => jobs[i].Cost()) }
    function Overruns(): seq<real> { seq(|jobs|, i requires 0 <= i < |jobs| => jobs[i].Overrun()) }

    function Reserve(j: Job): TierUse { this.(jobs := jobs + [j]) }

    /** The job is seen running, so many hours in all. */
    function Observe(k: nat, hours: real): TierUse
      requires k < |jobs|
    {
      this.(jobs := jobs[k := jobs[k].(hours := hours, running := true)])
    }

    /** The job ends and is billed what it cost, or nothing when the environment failed it. */
    function Settle(k: nat, refunded: bool): TierUse
      requires k < |jobs|
    {
      var bill := if refunded then jobs[k].(hours := 0.0) else jobs[k];
      TierUse(settled + bill.Cost(), overrun + bill.Overrun(), jobs[..k] + jobs[k + 1..])
    }

    /** Every job ends at what it cost so far. */
    function SettleAll(): TierUse { TierUse(Observed(), Overrun(), []) }
  }

  lemma UseBounds(u: TierUse)
    requires u.Valid()
    ensures u.Used() >= 0.0 && u.Observed() >= 0.0 && u.Overrun() >= u.overrun >= 0.0
    ensures u.Observed() <= u.Used() + u.Overrun() - u.overrun
  {
    hide RatedCost;
    var n := |u.jobs|;
    forall i | 0 <= i < n
      ensures u.Holds()[i] >= 0.0 && u.Costs()[i] >= 0.0 && u.Overruns()[i] >= 0.0
      ensures u.Costs()[i] <= u.Holds()[i] + u.Overruns()[i]
    {
      CostNonNegative(u.jobs[i]);
    }
    SumNonNegative(u.Holds());
    SumNonNegative(u.Costs());
    SumNonNegative(u.Overruns());
    var both := seq(n, i requires 0 <= i < n => u.Holds()[i] + u.Overruns()[i]);
    SumAdd(u.Holds(), u.Overruns(), both);
    SumLe(u.Costs(), both);
  }

  lemma ReserveUse(u: TierUse, j: Job)
    requires u.Valid() && j.Valid()
    ensures u.Reserve(j).Valid()
    ensures u.Reserve(j).Used() == u.Used() + j.hold && u.Reserve(j).overrun == u.overrun
    ensures u.Reserve(j).Observed() == u.Observed() + j.Cost()
    ensures Bearing(u.Reserve(j)) <==> Bearing(u) || j.hold > 0.0
  {
    hide RatedCost;
    var v := u.Reserve(j);
    SumAppend(u.Holds(), j.hold);
    SumAppend(u.Costs(), j.Cost());
    assert v.Holds() == u.Holds() + [j.hold] && v.Costs() == u.Costs() + [j.Cost()];
    assert v.jobs[|u.jobs|] == j && forall i :: 0 <= i < |u.jobs| ==> v.jobs[i] == u.jobs[i];
  }

  lemma JobSeen(j: Job)
    requires j.Valid()
    ensures 0.0 <= j.Cost() <= j.Seen()
  {
    hide Product;
    CostNonNegative(j);
    if !j.running { NothingRun(j); }
  }

  lemma NothingRun(j: Job)
    requires j.hours == 0.0 || j.hold == 0.0
    ensures j.Cost() == 0.0
  {
    if j.estimatedHours > 0.0 && j.hold == 0.0 { DivUnique(0.0, j.estimatedHours, 0.0); }
  }

  /** What a join reads is no less than what was spent, and no less than what admission counts when no
      running job has cost less than it holds. */
  lemma SeenBounds(u: TierUse)
    requires u.Valid()
    ensures 0.0 <= u.Observed() <= u.Seen()
    ensures (forall i :: 0 <= i < |u.jobs| && u.jobs[i].running ==> u.jobs[i].Cost() >= u.jobs[i].hold) ==> u.Seen() >= u.Used()
  {
    hide RatedCost;
    forall i | 0 <= i < |u.jobs|
      ensures 0.0 <= u.Costs()[i] <= u.Seens()[i]
    {
      JobSeen(u.jobs[i]);
    }
    SumNonNegative(u.Costs());
    SumLe(u.Costs(), u.Seens());
    if forall i :: 0 <= i < |u.jobs| && u.jobs[i].running ==> u.jobs[i].Cost() >= u.jobs[i].hold {
      SumLe(u.Holds(), u.Seens());
    }
  }

  /** Whether some job of a tier can cost anything. */
  ghost predicate Bearing(u: TierUse) { exists i :: 0 <= i < |u.jobs| && u.jobs[i].hold > 0.0 }

  /** Where no job can, what was settled is all that was spent. */
  lemma NoneBearing(u: TierUse)
    requires u.Valid() && !Bearing(u)
    ensures u.Observed() == u.Used() == u.settled
  {
    hide RatedCost;
    forall i | 0 <= i < |u.jobs|
      ensures u.Costs()[i] == 0.0 && u.Holds()[i] == 0.0
    {
      assert u.jobs[i].hold == 0.0;
      NothingRun(u.jobs[i]);
    }
    NothingSums(u.Costs());
    NothingSums(u.Holds());
  }

  lemma {:induction false} NothingSums(xs: seq<real>)
    requires forall i :: 0 <= i < |xs| ==> xs[i] == 0.0
    ensures Sum(xs) == 0.0
  {
    if |xs| > 0 { NothingSums(xs[..|xs| - 1]); }
  }

  lemma ObserveUse(u: TierUse, k: nat, hours: real)
    requires u.Valid() && k < |u.jobs| && hours >= u.jobs[k].hours
    ensures var v := u.Observe(k, hours);
            && v.Valid() && v.Used() == u.Used() && v.overrun == u.overrun && v.settled == u.settled
            && v.Observed() >= u.Observed() && (v.Observed() > u.Observed() ==> Bearing(u)) && (Bearing(v) <==> Bearing(u))
  {
    hide RatedCost;
    var v := u.Observe(k, hours);
    assert v.Holds() == u.Holds();
    forall i | 0 <= i < |u.jobs|
      ensures u.Costs()[i] <= v.Costs()[i]
    {
      CostGrows(u.jobs[k], hours);
    }
    SumLe(u.Costs(), v.Costs());
    assert forall i :: 0 <= i < |u.jobs| ==> v.jobs[i].hold == u.jobs[i].hold;
    if !Bearing(u) {
      NoneBearing(u);
      NoneBearing(v);
    }
  }

  lemma CostGrows(j: Job, hours: real)
    requires j.Valid() && hours >= j.hours
    ensures j.Cost() <= j.(hours := hours, running := true).Cost()
  {
    if j.estimatedHours > 0.0 {
      DivMul(j.hold, j.estimatedHours);
      MulMonotone(j.hours, hours, j.hold / j.estimatedHours);
    }
  }

  lemma {:induction false} SumRemove(xs: seq<real>, k: nat)
    requires k < |xs|
    ensures Sum(xs[..k] + xs[k + 1..]) == Sum(xs) - xs[k]
  {
    var n := |xs| - 1;
    if k == n {
      assert xs[..k] + xs[k + 1..] == xs[..n];
    } else {
      SumRemove(xs[..n], k);
      var rest := xs[..n][..k] + xs[..n][k + 1..];
      assert xs[..k] + xs[k + 1..] == rest + [xs[n]];
      SumAppend(rest, xs[n]);
    }
  }

  /** A settlement takes the job out and bills it what it cost, or nothing when it is refunded: what was
      spent stays, or falls by the cost; and admission counts the bill in place of the hold. */
  lemma SettleBills(u: TierUse, k: nat, refunded: bool)
    requires u.Valid() && k < |u.jobs|
    ensures var v, cost := u.Settle(k, refunded), u.jobs[k].Cost();
            var bill := if refunded then 0.0 else cost;
            && v.jobs == u.jobs[..k] + u.jobs[k + 1..] && v.Valid()
            && v.settled == u.settled + bill && v.Observed() == u.Observed() - cost + bill
            && v.Used() == u.Used() - u.jobs[k].hold + bill
            && v.overrun == u.overrun + if refunded then 0.0 else u.jobs[k].Overrun()
  {
    hide RatedCost, Sum;
    var bill := if refunded then u.jobs[k].(hours := 0.0) else u.jobs[k];
    CostNonNegative(bill);
    if refunded { NothingRun(bill); }
    SumRemove(u.Holds(), k);
    SumRemove(u.Costs(), k);
    JobsRemoved(u, k);
  }

  /** So admission counts no more for a settled job than its hold, but for what it overran. */
  lemma SettleUse(u: TierUse, k: nat, refunded: bool)
    requires u.Valid() && k < |u.jobs|
    ensures var v := u.Settle(k, refunded);
            && v.Valid() && v.Used() - v.overrun <= u.Used() - u.overrun && v.overrun >= u.overrun
            && v.Observed() <= u.Observed() && (Bearing(v) ==> Bearing(u)) && v.settled <= u.settled + u.jobs[k].Cost()
  {
    hide RatedCost, Sum, TierUse.Settle;
    SettleBills(u, k, refunded);
    CostNonNegative(u.jobs[k]);
    JobsRemoved(u, k);
    SameBearing(u.Settle(k, refunded), u.(jobs := u.jobs[..k] + u.jobs[k + 1..]));
  }

  lemma SameBearing(u: TierUse, v: TierUse)
    requires u.jobs == v.jobs
    ensures Bearing(u) == Bearing(v)
  {
  }

  lemma JobsRemoved(u: TierUse, k: nat)
    requires u.Valid() && k < |u.jobs|
    ensures var v := u.(jobs := u.jobs[..k] + u.jobs[k + 1..]);
            && v.Holds() == u.Holds()[..k] + u.Holds()[k + 1..] && v.Costs() == u.Costs()[..k] + u.Costs()[k + 1..]
            && v.Valid() && (Bearing(v) ==> Bearing(u))
  {
    hide RatedCost;
    var v := u.(jobs := u.jobs[..k] + u.jobs[k + 1..]);
    assert forall i :: 0 <= i < |v.jobs| ==> v.jobs[i] == u.jobs[if i < k then i else i + 1];
  }

  /** A tier whose jobs all ended at what they cost spent what it had and holds nothing more. */
  lemma SettleAllUse(u: TierUse)
    requires u.Valid()
    ensures var v := u.SettleAll();
            && v.Valid() && v.Observed() == v.Used() == v.settled == u.Observed() && !Bearing(v)
            && v.Overrun() == v.overrun == u.Overrun()
  {
    UseBounds(u);
    var v := u.SettleAll();
    assert v.Costs() == [] && v.Overruns() == [] && v.Holds() == [];
  }
}
