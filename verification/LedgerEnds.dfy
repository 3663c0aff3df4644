/** When the check of a quota ends a job before the job has spent what it holds. */
module LedgerEnds {
  import opened Hours
  import opened Sums
  import opened Credits
  import opened Quota
  import opened LedgerRows
  import opened Ledger
  import opened LedgerLaws

  /** A job with more of its hold yet to spend than the check tolerates. */
  predicate Short(j: Job) { j.hold - j.Cost() > TOLERANCE }

  /** The check ends the k-th job of a tier, and the job is short. */
  ghost predicate EndsShort(r: Row, tier: CapacityTier, k: nat) {
    k < |UseOf(r, tier).jobs| && Short(UseOf(r, tier).jobs[k]) && UseOf(Check(r), tier).jobs == []
  }

  // ----- jobs that run on -----------------------------------------------------------------------

  function RunFor(j: Job, hours: real): Job { j.(hours := hours, running := true) }

  /** More hours of a job that do not take it past its hold, unless it is past it already. */
  predicate KeepsJob(j: Job, hours: real) { hours >= j.hours && RunFor(j, hours).Cost() <= Max(j.hold, j.Cost()) }

  ghost predicate Keeps(u: TierUse, hours: seq<real>) {
    |hours| == |u.jobs| && forall i :: 0 <= i < |hours| ==> KeepsJob(u.jobs[i], hours[i])
  }

  /** The first n jobs of a tier are observed at these hours, one after the other. */
  function ObserveAll(r: Row, tier: CapacityTier, hours: seq<real>, n: nat): Row
    requires n <= |hours|
  {
    if n == 0 then r else Observe(ObserveAll(r, tier, hours, n - 1), tier, n - 1, hours[n - 1])
  }

  function RunOn(r: Row, hoursG: seq<real>, hoursB: seq<real>): Row {
    ObserveAll(ObserveAll(r, CapacityGuaranteed, hoursG, |hoursG|), CapacityBurst, hoursB, |hoursB|)
  }

  /** Jobs of the agent can run on, none of them past its hold that is not, to where the check ends one
      that is short. */
  ghost predicate EndsEarly(r: Row) {
    exists hoursG, hoursB, tier, k ::
      Keeps(r.useG, hoursG) && Keeps(r.useB, hoursB) && EndsShort(RunOn(r, hoursG, hoursB), tier, k)
  }

  /** A tier with the first n jobs at these hours. */
  function WithHours(u: TierUse, hours: seq<real>, n: nat): TierUse
    requires n <= |hours| == |u.jobs|
  {
    u.(jobs := seq(|u.jobs|, i requires 0 <= i < |u.jobs| => if i < n then RunFor(u.jobs[i], hours[i]) else u.jobs[i]))
  }

  lemma {:induction false} ObserveAllIs(r: Row, tier: CapacityTier, hours: seq<real>, n: nat)
    requires !r.cut && Keeps(UseOf(r, tier), hours) && n <= |hours|
    ensures var after := ObserveAll(r, tier, hours, n);
            after == WithUse(r, tier, WithHours(UseOf(r, tier), hours, n)).(watch := after.watch)
  {
    hide TierUse.Observed, RatedCost;
    var u := UseOf(r, tier);
    if n == 0 {
      assert WithHours(u, hours, 0) == u;
    } else {
      ObserveAllIs(r, tier, hours, n - 1);
      OneMoreObserved(u, hours, n - 1);
      assert KeepsJob(u.jobs[n - 1], hours[n - 1]);
    }
  }

  lemma OneMoreObserved(u: TierUse, hours: seq<real>, n: nat)
    requires n < |hours| == |u.jobs|
    ensures WithHours(u, hours, n).jobs[n] == u.jobs[n]
    ensures WithHours(u, hours, n).Observe(n, hours[n]) == WithHours(u, hours, n + 1)
  {
  }

  lemma RunOnIs(r: Row, hoursG: seq<real>, hoursB: seq<real>)
    requires !r.cut && Keeps(r.useG, hoursG) && Keeps(r.useB, hoursB)
    ensures var after := RunOn(r, hoursG, hoursB);
            after == r.(useG := WithHours(r.useG, hoursG, |hoursG|), useB := WithHours(r.useB, hoursB, |hoursB|), watch := after.watch)
  {
    hide ObserveAll, Keeps, WithHours;
    ObserveAllIs(r, CapacityGuaranteed, hoursG, |hoursG|);
    ObserveAllIs(ObserveAll(r, CapacityGuaranteed, hoursG, |hoursG|), CapacityBurst, hoursB, |hoursB|);
  }

  // ----- the most a tier can come to spend ------------------------------------------------------

  function HoursOf(r: Row, tier: CapacityTier): real { if tier.CapacityGuaranteed? then r.guaranteed else r.burst }

  /** What admission counts of a tier, and what its running jobs cost past their holds. */
  function Most(u: TierUse): real { u.Used() + Sum(u.Overruns()) }

  function Mosts(u: TierUse): seq<real> {
    seq(|u.jobs|, i requires 0 <= i < |u.jobs| => Max(u.jobs[i].hold, u.jobs[i].Cost()))
  }

  lemma MostIs(u: TierUse)
    ensures Most(u) == u.settled + Sum(Mosts(u))
  {
    hide Sum, Job.Cost;
    SumAdd(u.Holds(), u.Overruns(), Mosts(u));
  }

  lemma {:induction false} SumBelow(xs: seq<real>, ys: seq<real>, k: nat, d: real)
    requires |xs| == |ys| && k < |xs| && (forall i :: 0 <= i < |xs| ==> xs[i] <= ys[i]) && xs[k] + d < ys[k]
    ensures Sum(xs) + d < Sum(ys)
  {
    var n := |xs| - 1;
    if k == n {
      SumLe(xs[..n], ys[..n]);
    } else {
      SumBelow(xs[..n], ys[..n], k, d);
    }
  }

  /** A tier with a short job has spent less than it can come to by more than the check tolerates. */
  lemma ShortIsBelow(u: TierUse, k: nat)
    requires k < |u.jobs| && Short(u.jobs[k])
    ensures u.Observed() + TOLERANCE < Most(u)
  {
    hide Sum, Job.Cost;
    MostIs(u);
    SumBelow(u.Costs(), Mosts(u), k, TOLERANCE);
  }

  lemma SpentWithinMost(u: TierUse)
    ensures u.Observed() <= Most(u)
  {
    hide Sum, Job.Cost;
    MostIs(u);
    SumLe(u.Costs(), Mosts(u));
  }

  lemma KeptJob(j: Job, hours: real)
    requires j.Valid() && KeepsJob(j, hours)
    ensures var after := RunFor(j, hours); j.Cost() <= after.Cost() && Max(after.hold, after.Cost()) == Max(j.hold, j.Cost())
  {
    hide RatedCost;
    CostGrows(j, hours);
  }

  /** Jobs that run on so can come to spend the same, and a short one was short before. */
  lemma RunningKeepsMost(u: TierUse, hours: seq<real>)
    requires u.Valid() && Keeps(u, hours)
    ensures var v := WithHours(u, hours, |hours|);
            && |v.jobs| == |u.jobs| && Most(v) == Most(u)
            && forall k :: 0 <= k < |v.jobs| && Short(v.jobs[k]) ==> Short(u.jobs[k])
  {
    hide Sum, Job.Cost;
    var v := WithHours(u, hours, |hours|);
    forall i | 0 <= i < |u.jobs| ensures Mosts(v)[i] == Mosts(u)[i] && u.jobs[i].Cost() <= v.jobs[i].Cost() {
      assert u.jobs[i].Valid();
      KeptJob(u.jobs[i], hours[i]);
    }
    assert Mosts(v) == Mosts(u);
    MostIs(u);
    MostIs(v);
  }

  // ----- the condition --------------------------------------------------------------------------

  /** A short job of an agent that can come to spend more than its share, or of a tier that can come to
      spend more than its hours. */
  ghost predicate Threatens(r: Row, tier: CapacityTier, k: nat) {
    && k < |UseOf(r, tier).jobs| && Short(UseOf(r, tier).jobs[k])
    && (|| (r.Share() > 0.0 && Most(r.useG) + Most(r.useB) > r.Share())
        || (HoursOf(r, tier) > 0.0 && Most(UseOf(r, tier)) > HoursOf(r, tier)))
  }

  predicate EndsTier(r: Row, tier: CapacityTier) {
    Exhausts(r.Share(), r.Spent()) || Exhausts(HoursOf(r, tier), UseOf(r, tier).Observed())
  }

  lemma CheckEndsTier(r: Row, tier: CapacityTier)
    requires !r.cut && |UseOf(r, tier).jobs| > 0
    ensures UseOf(Check(r), tier).jobs == [] <==> EndsTier(r, tier)
  {
    hide TierUse.Observed, Exhausts, Row.Share, Row.Spent, TierUse.Overrun;
  }

  lemma EndedWasThreatened(r: Row, hoursG: seq<real>, hoursB: seq<real>, tier: CapacityTier, k: nat)
    requires !r.cut && r.useG.Valid() && r.useB.Valid() && Keeps(r.useG, hoursG) && Keeps(r.useB, hoursB)
    requires EndsShort(RunOn(r, hoursG, hoursB), tier, k)
    ensures Threatens(r, tier, k)
  {
    hide Keeps, WithHours, RunOn, Short, Most, Check, TierUse.Observed, TierUse.Valid, TierUse.Used;
    var after := RunOn(r, hoursG, hoursB);
    RunOnIs(r, hoursG, hoursB);
    RunningKeepsMost(r.useG, hoursG);
    RunningKeepsMost(r.useB, hoursB);
    CheckEndsTier(after, tier);
    ShortIsBelow(UseOf(after, tier), k);
    SpentWithinMost(after.useG);
    SpentWithinMost(after.useB);
  }

  // ----- how it comes to pass -------------------------------------------------------------------

  /** A job at its estimate, or past it already. */
  function FullHours(j: Job): real { Max(j.hours, j.estimatedHours) }

  lemma FullCost(j: Job)
    requires j.Valid()
    ensures KeepsJob(j, FullHours(j)) && RunFor(j, FullHours(j)).Cost() == Max(j.hold, j.Cost())
  {
    if j.estimatedHours > 0.0 {
      var rate := j.hold / j.estimatedHours;
      DivMul(j.hold, j.estimatedHours);
      if j.hours <= j.estimatedHours {
        MulMonotone(j.hours, j.estimatedHours, rate);
      } else {
        MulMonotone(j.estimatedHours, j.hours, rate);
      }
    }
  }

  /** The hours at which a job has so much of its hold left. */
  function HoursLeaving(j: Job, left: real): real
    requires j.hold > 0.0 && j.estimatedHours > 0.0
  {
    if j.hold / j.estimatedHours > 0.0 then (j.hold - left) / (j.hold / j.estimatedHours) else 0.0
  }

  lemma LeavingCost(j: Job, left: real)
    requires j.Valid() && j.hold > 0.0 && 0.0 <= left <= j.hold - j.Cost()
    ensures KeepsJob(j, HoursLeaving(j, left)) && RunFor(j, HoursLeaving(j, left)).Cost() == j.hold - left
  {
    var rate := j.hold / j.estimatedHours;
    DivMul(j.hold, j.estimatedHours);
    DivMul(j.hold - left, rate);
    var hours := HoursLeaving(j, left);
    OrderTimes(hours, j.hours, rate);
    assert Product(rate, hours) == j.hold - left && Product(rate, j.hours) == j.Cost();
  }

  /** Every job at its estimate but the k-th, which has so much left. */
  function HoursBut(u: TierUse, k: nat, left: real): seq<real>
    requires k < |u.jobs| ==> u.jobs[k].hold > 0.0 && u.jobs[k].estimatedHours > 0.0
  {
    seq(|u.jobs|, i requires 0 <= i < |u.jobs| => if i == k then HoursLeaving(u.jobs[k], left) else FullHours(u.jobs[i]))
  }

  lemma {:induction false} SumLess(xs: seq<real>, ys: seq<real>, k: nat, d: real)
    requires |xs| == |ys| && forall i :: 0 <= i < |xs| ==> xs[i] == if i == k then ys[i] - d else ys[i]
    ensures Sum(xs) == if k < |xs| then Sum(ys) - d else Sum(ys)
  {
    if |xs| > 0 { SumLess(xs[..|xs| - 1], ys[..|ys| - 1], k, d); }
  }

  lemma RunToAllBut(u: TierUse, k: nat, left: real)
    requires u.Valid()
    requires k < |u.jobs| ==> u.jobs[k].hold > 0.0 && 0.0 <= left <= u.jobs[k].hold - u.jobs[k].Cost()
    ensures var hours := HoursBut(u, k, left);
            var v := WithHours(u, hours, |hours|);
            && Keeps(u, hours) && |hours| == |v.jobs| == |u.jobs| && v.Observed() == Most(u) - (if k < |u.jobs| then left else 0.0)
            && (k < |u.jobs| ==> v.jobs[k].hold - v.jobs[k].Cost() == left)
  {
    hide Sum, Job.Cost, FullHours, HoursLeaving;
    var hours := HoursBut(u, k, left);
    var v := WithHours(u, hours, |hours|);
    forall i | 0 <= i < |u.jobs|
      ensures KeepsJob(u.jobs[i], hours[i]) && v.Costs()[i] == if i == k then Mosts(u)[i] - left else Mosts(u)[i]
      ensures i == k ==> v.jobs[k].hold - v.jobs[k].Cost() == left
    {
      assert u.jobs[i].Valid();
      if i == k {
        LeavingCost(u.jobs[k], left);
      } else {
        FullCost(u.jobs[i]);
      }
    }
    MostIs(u);
    SumLess(v.Costs(), Mosts(u), k, left);
  }

  /** What the k-th job is left: no more than it has, and more than the check tolerates by what its agent
      or its tier can come to spend too much, at most. */
  function LeftTo(r: Row, tier: CapacityTier, k: nat): real
    requires k < |UseOf(r, tier).jobs|
  {
    var j, over := UseOf(r, tier).jobs[k], Most(r.useG) + Most(r.useB) - r.Share();
    var own := Most(UseOf(r, tier)) - HoursOf(r, tier);
    Min(j.hold - j.Cost(), TOLERANCE + if r.Share() > 0.0 && over > 0.0 then over else own)
  }

  lemma LeftToIs(r: Row, tier: CapacityTier, k: nat)
    requires Threatens(r, tier, k) && UseOf(r, tier).Valid()
    ensures var j, left := UseOf(r, tier).jobs[k], LeftTo(r, tier, k);
            && TOLERANCE < left <= j.hold - j.Cost() && j.hold > 0.0 && j.estimatedHours > 0.0
            && (|| (r.Share() > 0.0 && Most(r.useG) + Most(r.useB) - left >= r.Share() - TOLERANCE)
                || (HoursOf(r, tier) > 0.0 && Most(UseOf(r, tier)) - left >= HoursOf(r, tier) - TOLERANCE))
  {
    hide Most, RatedCost, Row.Share;
    var j := UseOf(r, tier).jobs[k];
    assert j.Valid();
    CostNonNegative(j);
  }

  lemma ThreatenedEnds(r: Row, tier: CapacityTier, k: nat)
    requires !r.cut && r.useG.Valid() && r.useB.Valid() && Threatens(r, tier, k)
    ensures EndsEarly(r)
  {
    hide Keeps, WithHours, RunOn, Most, Check, TierUse.Observed, TierUse.Valid, TierUse.Used, Job.Cost, HoursBut, LeftTo, Short;
    LeftToIs(r, tier, k);
    var left := LeftTo(r, tier, k);
    var kG := if tier.CapacityGuaranteed? then k else |r.useG.jobs|;
    var kB := if tier.CapacityGuaranteed? then |r.useB.jobs| else k;
    var hoursG, hoursB := HoursBut(r.useG, kG, left), HoursBut(r.useB, kB, left);
    RunToAllBut(r.useG, kG, left);
    RunToAllBut(r.useB, kB, left);
    RunOnIs(r, hoursG, hoursB);
    var after := RunOn(r, hoursG, hoursB);
    CheckEndsTier(after, tier);
    assert Short(UseOf(after, tier).jobs[k]) by { ShortBy(UseOf(after, tier).jobs[k]); }
    assert EndsShort(after, tier, k);
  }

  lemma ShortBy(j: Job)
    ensures Short(j) <==> j.hold - j.Cost() > TOLERANCE
  {
  }

  ghost predicate Threatened(r: Row) { exists tier, k :: Threatens(r, tier, k) }

  /** Exactly when the check can end a job early: some job has more of its hold yet to spend than the
      check tolerates, and with what admission counts and what other jobs overran, its agent can come
      to spend more than its share, or its tier more than its hours. */
  lemma EndsEarlyExactly(r: Row)
    requires !r.cut && r.useG.Valid() && r.useB.Valid()
    ensures EndsEarly(r) <==> Threatened(r)
  {
    hide Keeps, RunOn, EndsShort, Threatens, TierUse.Valid;
    if EndsEarly(r) {
      var hoursG, hoursB, tier, k :|
        Keeps(r.useG, hoursG) && Keeps(r.useB, hoursB) && EndsShort(RunOn(r, hoursG, hoursB), tier, k);
      EndedWasThreatened(r, hoursG, hoursB, tier, k);
    }
    if Threatened(r) {
      var tier, k :| Threatens(r, tier, k);
      ThreatenedEnds(r, tier, k);
    }
  }

  /** A check that ends a short job now is one of those. */
  lemma EndsShortIsEarly(r: Row, tier: CapacityTier, k: nat)
    requires !r.cut && r.useG.Valid() && r.useB.Valid() && EndsShort(r, tier, k)
    ensures Threatens(r, tier, k)
  {
    hide Short, Most, Check, TierUse.Observed, TierUse.Valid, TierUse.Used;
    CheckEndsTier(r, tier);
    ShortIsBelow(UseOf(r, tier), k);
    SpentWithinMost(r.useG);
    SpentWithinMost(r.useB);
  }

  // ----- every run ------------------------------------------------------------------------------

  ghost predicate NoneOvertaken(rows: seq<Row>) { forall i :: 0 <= i < |rows| ==> rows[i].overtaken == 0.0 }

  /** A run none of whose joins takes hours that jobs hold. */
  ghost predicate NeverTakesHeld(c: Config, run: Run, steps: seq<Step>) {
    forall k :: 0 <= k < |steps| ==> !StepTakesHeld(c, After(c, run, steps[..k]), steps[k])
  }

  ghost predicate StepTakesHeld(c: Config, run: Run, step: Step) {
    step.DoJoin? && Accepts(c, run, step.agent) && exists i :: 0 <= i < |run.rows| && TakesHeld(c, run, i)
  }

  lemma NextOvertakesNone(c: Config, run: Run, step: Step)
    requires NoneOvertaken(run.rows) && !StepTakesHeld(c, run, step)
    ensures NoneOvertaken(Next(c, run, step).rows)
  {
    hide Next, Accepts, TakesHeld;
    var rows := Next(c, run, step).rows;
    forall i | 0 <= i < |rows| ensures rows[i].overtaken == 0.0 {
      if i < |run.rows| {
        NextOvertakes(c, run, step, i);
      } else {
        NewcomerOvertaken(c, run, step, i);
      }
    }
  }

  lemma NewcomerOvertaken(c: Config, run: Run, step: Step, i: nat)
    requires |run.rows| <= i < |Next(c, run, step).rows|
    ensures Next(c, run, step).rows[i].overtaken == 0.0
  {
    hide ShareOf, Eligible, TakeAt, Taken, DrainGain, Workers, Named, BoundaryCredit, StepRow, Across, Count, Product, AllocateBurst;
  }

  lemma {:induction false} AfterOvertakesNone(c: Config, ps: seq<Participant>, steps: seq<Step>)
    requires |c.stages| > 0 && NeverTakesHeld(c, Start(c, ps), steps)
    ensures NoneOvertaken(After(c, Start(c, ps), steps).rows)
  {
    hide Next, StepTakesHeld, StartShares, AllocateBurst;
    if |steps| > 0 {
      var n := |steps| - 1;
      assert forall k :: 0 <= k < n ==> steps[..n][..k] == steps[..k];
      AfterOvertakesNone(c, ps, steps[..n]);
      NextOvertakesNone(c, After(c, Start(c, ps), steps[..n]), steps[n]);
    }
  }

  /** A sound row nothing was taken of, lost to or overrun cannot come to spend more than its hours. */
  lemma FreeRowIsSafe(r: Row, tier: CapacityTier, k: nat)
    requires Sound(r) && !r.cut && r.overtaken == 0.0 && r.lost == 0.0 && r.Overrun() == 0.0
    ensures !Threatens(r, tier, k)
  {
    hide TierUse.Used, TierUse.Observed, TierUse.Valid, Short;
    NoOverruns(r.useG);
    NoOverruns(r.useB);
  }

  lemma NoOverruns(u: TierUse)
    requires u.Valid()
    ensures u.Overrun() >= 0.0 && (u.Overrun() == 0.0 ==> u.overrun == 0.0 && Most(u) == u.Used())
  {
    hide RatedCost;
    UseBounds(u);
  }

  /** The law: in every run in which no join drains a row or takes hours that jobs hold, no check of an
      agent whose jobs never cost past their holds ends one that is short, now or however they run on
      within their holds. */
  lemma AdmittedJobsRunOut(c: Config, ps: seq<Participant>, steps: seq<Step>, i: nat)
    requires ValidConfig(c) && Startable(ps)
    requires NeverDrains(c, Start(c, ps), steps) && NeverTakesHeld(c, Start(c, ps), steps)
    requires i < |After(c, Start(c, ps), steps).rows|
    ensures var r := After(c, Start(c, ps), steps).rows[i];
            !r.cut && r.Overrun() == 0.0 ==> !EndsEarly(r) && forall tier, k :: !EndsShort(r, tier, k)
  {
    hide Start, After, NeverDrains, NeverTakesHeld, Balanced, Distinct, Row.Overrun, Threatens, EndsEarly, EndsShort, Row.Collapsed;
    var r := After(c, Start(c, ps), steps).rows[i];
    StartKeepsInv(c, ps);
    StartClean(c, ps);
    AfterClean(c, Start(c, ps), steps);
    EveryRunBalances(c, ps, steps);
    AfterOvertakesNone(c, ps, steps);
    assert Sound(r) && Backed(r);
    if !r.cut && r.Overrun() == 0.0 {
      forall tier, k: nat ensures !Threatens(r, tier, k) { FreeRowIsSafe(r, tier, k); }
      EndsEarlyExactly(r);
      forall tier, k: nat ensures !EndsShort(r, tier, k) {
        if EndsShort(r, tier, k) { EndsShortIsEarly(r, tier, k); }
      }
    }
  }
}
