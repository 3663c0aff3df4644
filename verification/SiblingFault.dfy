/** A run in which a job's overrun costs its agent another job that kept to its estimate. */
module SiblingFault {
  import opened Hours
  import opened Sums
  import opened Quota
  import opened LedgerRows
  import opened Ledger
  import opened LedgerFault
  import opened HeldHoursFault

  /** A job that holds five hours for five. */
  function Five(hours: real, running: bool): Job { Job(5.0, 5.0, hours, running) }

  lemma CostOfFive(hours: real, running: bool)
    ensures Five(hours, running).Cost() == hours
  {
    assert 5.0 / 5.0 == 1.0;
  }

  function Two(first: Job, second: Job): TierUse { TierUse(0.0, 0.0, [first, second]) }

  lemma TwoUse(a: real, b: real, running: bool)
    ensures var u := Two(Five(a, true), Five(b, running)); u.Observed() == a + b
  {
    hide Job.Cost, Five;
    CostOfFive(a, true);
    CostOfFive(b, running);
    var u := Two(Five(a, true), Five(b, running));
    assert u.Costs() == [] + [a] + [b];
    SumAppend([], a);
    SumAppend([] + [a], b);
  }

  /** An executor of ten hours with two jobs. */
  ghost predicate Has(r: Row, first: Job, second: Job) {
    r == Idle("a", 10.0, 20.0, false).(useG := Two(first, second), watch := r.watch)
  }

  lemma RemainingFive(r: Row)
    requires r == Idle("a", 10.0, 20.0, false).(useG := TierUse(0.0, 0.0, [Five(0.0, false)]))
    ensures r.Q().Remaining(CapacityGuaranteed) == 5.0
  {
    hide TierUse.Used, TierUse.Seen;
    OneFive();
    NothingUsed(NO_USE);
  }

  lemma OneFive()
    ensures TierUse(0.0, 0.0, [Five(0.0, false)]).Used() == 5.0
  {
    var u := TierUse(0.0, 0.0, [Five(0.0, false)]);
    assert u.Holds() == [] + [5.0];
    SumAppend([], 5.0);
  }

  /** Both jobs are admitted: together they hold the whole share. */
  lemma BothAdmitted(r: Row)
    requires r == Idle("a", 10.0, 20.0, false)
    ensures Has(Reserve(Reserve(r, CapacityGuaranteed, 5.0, 5.0), CapacityGuaranteed, 5.0, 5.0), Five(0.0, false), Five(0.0, false))
  {
    hide TierUse.Used, AgentQuota.Remaining, Row.Q;
    RemainingWhole("a", 10.0, 20.0);
    var one := Reserve(r, CapacityGuaranteed, 5.0, 5.0);
    assert [] + [Five(0.0, false)] == [Five(0.0, false)];
    assert one == r.(useG := TierUse(0.0, 0.0, [Five(0.0, false)]));
    RemainingFive(one);
    assert [Five(0.0, false)] + [Five(0.0, false)] == [Five(0.0, false), Five(0.0, false)];
  }

  lemma ObserveFirst(r: Row, hours: real)
    requires Has(r, Five(0.0, false), Five(0.0, false)) && hours >= 0.0
    ensures Has(Observe(r, CapacityGuaranteed, 0, hours), Five(hours, true), Five(0.0, false))
  {
    hide TierUse.Observed;
    assert [Five(0.0, false), Five(0.0, false)][0 := Five(hours, true)] == [Five(hours, true), Five(0.0, false)];
  }

  lemma ObserveSecond(r: Row, a: real, hours: real)
    requires Has(r, Five(a, true), Five(0.0, false)) && hours >= 0.0
    ensures Has(Observe(r, CapacityGuaranteed, 1, hours), Five(a, true), Five(hours, true))
  {
    hide TierUse.Observed;
    assert [Five(a, true), Five(0.0, false)][1 := Five(hours, true)] == [Five(a, true), Five(hours, true)];
  }

  lemma HasSpent(r: Row, a: real, b: real, running: bool)
    requires Has(r, Five(a, true), Five(b, running))
    ensures r.Spent() == r.useG.Observed() == a + b && r.useB.Observed() == 0.0
    ensures r.Share() == r.guaranteed == 10.0 && r.burst == 20.0 && !r.cut && r.useG.jobs == [Five(a, true), Five(b, running)]
  {
    hide TierUse.Observed, TierUse.Used;
    TwoUse(a, b, running);
    assert NO_USE.Observed() == 0.0 by { NothingSpent(NO_USE); }
  }

  /** At nine hours of ten the check ends nothing. */
  lemma CheckLetsBoth(r: Row)
    requires Has(r, Five(9.0, true), Five(0.0, false))
    ensures Has(Check(r), Five(9.0, true), Five(0.0, false))
  {
    hide TierUse.Observed, TierUse.SettleAll, Row.Share, Row.Spent, Two, Five;
    HasSpent(r, 9.0, 0.0, false);
    assert !Exhausts(r.Share(), r.Spent()) && !Exhausts(r.guaranteed, r.useG.Observed()) && !Exhausts(r.burst, r.useB.Observed());
  }

  lemma CheckEndsBoth(r: Row)
    requires Has(r, Five(9.0, true), Five(1.0, true))
    ensures Check(r).useG.jobs == []
  {
    hide TierUse.Observed, Row.Share, Row.Spent, Two, Five, Check, Has;
    HasSpent(r, 9.0, 1.0, true);
    CheckIs(r);
  }

  // ----- the run --------------------------------------------------------------------------------

  const STEPS := [DoReserve(0, CapacityGuaranteed, 5.0, 5.0), DoReserve(0, CapacityGuaranteed, 5.0, 5.0),
                  DoObserve(0, CapacityGuaranteed, 0, 9.0), DoCheck(0), DoObserve(0, CapacityGuaranteed, 1, 1.0), DoCheck(0)]

  lemma NextOnly(c: Config, run: Run, step: Step)
    requires |run.rows| == 1 && !step.DoJoin? && !step.DoAdvance? && step.row == 0
    ensures Next(c, run, step) == run.(rows := [StepRow(run.rows[0], step)])
  {
    hide StepRow;
  }

  lemma AfterOnly(c: Config, start: Run, k: nat)
    requires k < |STEPS| && |After(c, start, STEPS[..k]).rows| == 1
    ensures After(c, start, STEPS[..k + 1]).rows == [StepRow(After(c, start, STEPS[..k]).rows[0], STEPS[k])]
  {
    hide After, StepRow;
    AfterStep(c, start, STEPS, k);
    NextOnly(c, After(c, start, STEPS[..k]), STEPS[k]);
  }

  lemma StepsAre(r: Row)
    ensures StepRow(r, STEPS[0]) == StepRow(r, STEPS[1]) == Reserve(r, CapacityGuaranteed, 5.0, 5.0)
    ensures StepRow(r, STEPS[2]) == Observe(r, CapacityGuaranteed, 0, 9.0) && StepRow(r, STEPS[3]) == Check(r)
    ensures StepRow(r, STEPS[4]) == Observe(r, CapacityGuaranteed, 1, 1.0) && StepRow(r, STEPS[5]) == Check(r)
  {
    hide Reserve, Observe, Check;
  }

  /** A job one of its five hours in is ended because the other job of its agent ran nine: nobody joined
      and admission counted no more than the share. */
  lemma SiblingIsEnded(m: Rounding)
    ensures ValidConfig(Ten(m)) && Startable([FIRST])
    ensures var c, start := Ten(m), Start(Ten(m), [FIRST]);
            var before, after := After(c, start, STEPS[..5]), After(c, start, STEPS);
            && |before.rows| == |after.rows| == 1
            && before.rows[0].useG.jobs == [Job(5.0, 5.0, 9.0, true), Job(5.0, 5.0, 1.0, true)]
            && before.rows[0].overtaken == 0.0 && after.rows[0].useG.jobs == []
  {
    hide After, Start, Idle, Ten;
    TenIsValid(m);
    StartTen(m);
    SiblingRun(m, Start(Ten(m), [FIRST]));
  }

  lemma SiblingRun(m: Rounding, start: Run)
    requires start.rows == [Idle("a", 10.0, 20.0, false)]
    ensures var before, after := After(Ten(m), start, STEPS[..5]), After(Ten(m), start, STEPS);
            && |before.rows| == |after.rows| == 1
            && before.rows[0].useG.jobs == [Job(5.0, 5.0, 9.0, true), Job(5.0, 5.0, 1.0, true)]
            && before.rows[0].overtaken == 0.0 && after.rows[0].useG.jobs == []
  {
    hide After, StepRow, Reserve, Observe, Check, Has, Idle, Ten, STEPS;
    var c, r := Ten(m), start.rows[0];
    StepsLength();
    AfterNone(c, start, STEPS);
    StepsAre(r);
    AfterOnly(c, start, 0);
    var r1 := Reserve(r, CapacityGuaranteed, 5.0, 5.0);
    StepsAre(r1);
    AfterOnly(c, start, 1);
    var r2 := Reserve(r1, CapacityGuaranteed, 5.0, 5.0);
    BothAdmitted(r);
    StepsAre(r2);
    AfterOnly(c, start, 2);
    var r3 := Observe(r2, CapacityGuaranteed, 0, 9.0);
    ObserveFirst(r2, 9.0);
    StepsAre(r3);
    AfterOnly(c, start, 3);
    CheckLetsBoth(r3);
    var r4 := Check(r3);
    StepsAre(r4);
    AfterOnly(c, start, 4);
    ObserveSecond(r4, 9.0, 1.0);
    var r5 := Observe(r4, CapacityGuaranteed, 1, 1.0);
    StepsAre(r5);
    AfterOnly(c, start, 5);
    HasSpent(r5, 9.0, 1.0, true);
    NoneTaken(r5, Five(9.0, true), Five(1.0, true));
    CheckEndsBoth(r5);
    assert STEPS[..6] == STEPS;
  }

  lemma StepsLength()
    ensures |STEPS| == 6
  {
  }

  lemma NoneTaken(r: Row, first: Job, second: Job)
    requires Has(r, first, second)
    ensures r.overtaken == 0.0
  {
  }
}
