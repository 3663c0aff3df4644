/** A run in which the check of a quota is no cap: a join leaves a running job's agent without hours. */
module UncheckedFault {
  import opened Hours
  import opened Sums
  import opened Credits
  import opened Quota
  import opened LedgerRows
  import opened Ledger
  import opened LedgerLaws
  import opened LedgerWatch
  import opened LedgerFault
  import opened HeldHoursFault

  const LONE := Participant("a", true, TierBurstOnly, 0.0)

  /** The row of a burst-only executor. */
  function Lone(burst: real, useB: TierUse, stopped: bool, overtaken: real, watch: Watch): Row {
    Row("a", true, TierBurstOnly, 0.0, burst, NO_USE, useB, false, stopped, false, 0.0, 0.0, 0.0, overtaken, watch)
  }

  /** With that job of ten hours. */
  ghost predicate Holds(r: Row, burst: real, hours: real, stopped: bool) {
    r == Lone(burst, TenHours(hours), stopped, r.overtaken, r.watch)
  }

  lemma LoneIsStartable()
    ensures Startable([LONE])
  {
    assert Bonuses([LONE]) == [] + [0.0];
    SumAppend([], 0.0);
  }

  lemma StartLone(m: Rounding)
    ensures var run := Start(Ten(m), [LONE]);
            run.stage == 1 && run.drained == 0.0 && run.rows == [Lone(10.0, NO_USE, false, 0.0, NO_WATCH)]
  {
    hide Round, AllocateBurst;
    assert Bonuses([LONE]) == [] + [0.0];
    SumAppend([], 0.0);
    assert Unrounded(10.0, 1, 0.0, 0.0) == 10.0;
    assert Product(10.0, LADDER[0].ReleaseFrac()) == 10.0;
    RoundWhole(m, 10);
    assert StartShares(Ten(m), [LONE])[0] == 10.0;
  }

  // ----- the agent that is emptied --------------------------------------------------------------

  lemma RemainingOfLone()
    ensures Lone(10.0, NO_USE, false, 0.0, NO_WATCH).Q().Remaining(CapacityBurst) == 10.0
  {
    hide TierUse.Used, NO_USE;
    NoUseCounts();
    assert Lone(10.0, NO_USE, false, 0.0, NO_WATCH).Q() == AgentQuota(0.0, 10.0, 0.0, 0.0);
  }

  lemma NoUseCounts()
    ensures NO_USE.Used() == 0.0
  {
    NothingUsed(NO_USE);
  }

  /** The job is admitted and was just seen running. */
  lemma LoneHolds(r: Row)
    requires r == Lone(10.0, NO_USE, false, 0.0, NO_WATCH)
    ensures Holds(Observe(Reserve(r, CapacityBurst, 10.0, 10.0), CapacityBurst, 0, 0.0), 10.0, 0.0, false)
  {
    hide TierUse.Used, TierUse.Observed, TierUse.Observe, AgentQuota.Remaining, Row.Q, TenHours;
    RemainingOfLone();
    JobSeenRunning(0.0);
    var one := Reserve(r, CapacityBurst, 10.0, 10.0);
    assert one.useB == TierUse(0.0, 0.0, [Job(10.0, 10.0, 0.0, false)]);
  }

  lemma HoldsUse(r: Row, burst: real, hours: real, stopped: bool)
    requires Holds(r, burst, hours, stopped) && hours >= 0.0
    ensures r.Q().Used() == 10.0 && r.Seen() == r.Spent() == hours && r.Share() == burst && r.Overrun() == Max(0.0, hours - 10.0)
    ensures r.Competes() && r.Ended() == stopped && r.agent == "a" && !r.cut && r.stray == 0.0 && r.guaranteed == 0.0 && r.burst == burst
  {
    hide TierUse.Used, TierUse.Observed, TierUse.Seen, TierUse.Valid, TierUse.Overrun, TenHours;
    TenHoursUse(hours);
    NoUseUse();
  }

  lemma HoldsQuota(r: Row)
    requires Holds(r, 10.0, 0.0, true)
    ensures r.AsExecutorQuota().Unspent() == 10.0 && r.AsExecutorQuota().ended
  {
    hide Holds, Row.Q, Row.Overrun;
    HoldsUse(r, 10.0, 0.0, true);
  }

  lemma HoldsTaken(r: Row)
    requires Holds(r, 10.0, 0.0, true)
    ensures Holds(Taken(r, 10.0), 0.0, 0.0, true) && DrainGain(r, 10.0) == 0.0
  {
    hide TierUse.Used, Row.Q, TenHours, Row.Overrun, Overtake;
  }

  lemma HoldsMoreHours(r: Row, burst: real, hours: real, more: real, stopped: bool)
    requires Holds(r, burst, hours, stopped) && more >= hours
    ensures Holds(Observe(r, CapacityBurst, 0, more), burst, more, stopped)
  {
    hide TierUse.Used, TierUse.Observed, TierUse.Observe;
    JobSeenAgain(hours, more);
  }

  /** The join takes all of it, as the job has cost nothing yet. */
  lemma JoinEmpties(m: Rounding, run: Run)
    requires |run.rows| == 1 && Holds(run.rows[0], 10.0, 0.0, true)
    ensures var after := Join(Ten(m), run, "b", TierGuaranteed);
            && |after.rows| == 2 && Holds(after.rows[0], 0.0, 0.0, true) && after.rows[1] == Idle("b", 10.0, 20.0, false)
            && after.stage == run.stage && after.drained == run.drained
  {
    hide Eligible, ShareOf, Takes, Workers, AllocateBurst, Row.AsExecutorQuota, Taken, DrainGain, Row.Competes, Sum, Holds, Row.Overrun;
    var a := run.rows[0];
    HoldsQuota(a);
    HoldsTaken(a);
    HoldsUse(a, 10.0, 0.0, true);
    assert run.rows == [a];
    EligibleOne(a);
    EligibleNone();
    AfterOneEnded(m, a.AsExecutorQuota(), 10);
    assert run.rows[..0] == [];
    assert TakeAt(m, run.rows, 0) == 10.0;
    assert DrainGains(m, run.rows) == [0.0] && Sum([0.0]) == 0.0 by { NothingAlone(); }
    BurstOfWhole(m, 10);
  }

  lemma NothingAlone()
    ensures Sum([0.0]) == 0.0
  {
    assert [0.0][..0] == [];
  }

  // ----- the run --------------------------------------------------------------------------------

  const STEPS := [DoReserve(0, CapacityBurst, 10.0, 10.0), DoObserve(0, CapacityBurst, 0, 0.0), DoStop(0),
                  DoJoin("b", TierGuaranteed), DoCheck(0), DoObserve(0, CapacityBurst, 0, 10.0), DoCheck(0)]

  /** The newcomer runs one job of its whole share. */
  const WORK := [DoReserve(1, CapacityGuaranteed, 10.0, 1.0), DoObserve(1, CapacityGuaranteed, 0, 1.0)]

  lemma NextOfRow(c: Config, run: Run, step: Step)
    requires |run.rows| > 0 && !step.DoJoin? && !step.DoAdvance? && step.row == 0
    ensures Next(c, run, step) == run.(rows := run.rows[0 := StepRow(run.rows[0], step)])
  {
    hide StepRow;
  }

  lemma StepRowIs(r: Row, hours: real)
    ensures StepRow(r, DoReserve(0, CapacityBurst, 10.0, 10.0)) == Reserve(r, CapacityBurst, 10.0, 10.0)
    ensures StepRow(r, DoObserve(0, CapacityBurst, 0, hours)) == Observe(r, CapacityBurst, 0, hours)
    ensures StepRow(r, DoStop(0)) == r.(stopped := true) && StepRow(r, DoCheck(0)) == Check(r)
  {
    hide Reserve, Observe, Check;
  }

  lemma AfterStopped(m: Rounding, start: Run)
    requires start.rows == [Lone(10.0, NO_USE, false, 0.0, NO_WATCH)]
    ensures var run := After(Ten(m), start, STEPS[..3]);
            run == start.(rows := run.rows) && |run.rows| == 1 && Holds(run.rows[0], 10.0, 0.0, true)
  {
    hide After, Next, StepRow, Reserve, Observe, Ten, Lone;
    var c, r := Ten(m), start.rows[0];
    AfterNone(c, start, STEPS);
    AfterStep(c, start, STEPS, 0);
    NextOfRow(c, start, STEPS[0]);
    StepRowIs(r, 0.0);
    var one := Reserve(r, CapacityBurst, 10.0, 10.0);
    AfterStep(c, start, STEPS, 1);
    NextOfRow(c, After(c, start, STEPS[..1]), STEPS[1]);
    StepRowIs(one, 0.0);
    LoneHolds(r);
    var two := Observe(one, CapacityBurst, 0, 0.0);
    AfterStep(c, start, STEPS, 2);
    NextOfRow(c, After(c, start, STEPS[..2]), STEPS[2]);
    StepRowIs(two, 0.0);
    StoppedHolds(two);
  }

  lemma StoppedHolds(r: Row)
    requires Holds(r, 10.0, 0.0, false)
    ensures Holds(r.(stopped := true), 10.0, 0.0, true)
  {
  }

  lemma AfterEmptied(m: Rounding, start: Run)
    requires start.rows == [Lone(10.0, NO_USE, false, 0.0, NO_WATCH)]
    ensures var run := After(Ten(m), start, STEPS);
            && run.stage == start.stage && run.drained == start.drained
            && |run.rows| == 2 && Holds(run.rows[0], 0.0, 10.0, true) && run.rows[1] == Idle("b", 10.0, 20.0, false)
  {
    hide After, Next, StepRow, Observe, Check, Ten, Lone, Join, Idle, Holds;
    var c := Ten(m);
    AfterStopped(m, start);
    var three := After(c, start, STEPS[..3]);
    AfterStep(c, start, STEPS, 3);
    NextJoin(c, three, "b");
    JoinEmpties(m, three);
    var four := After(c, start, STEPS[..4]);
    AfterStep(c, start, STEPS, 4);
    NextOfRow(c, four, STEPS[4]);
    StepRowIs(four.rows[0], 0.0);
    EmptyUnchecked(four.rows[0], 0.0);
    AfterStep(c, start, STEPS, 5);
    NextOfRow(c, After(c, start, STEPS[..5]), STEPS[5]);
    StepRowIs(four.rows[0], 10.0);
    HoldsMoreHours(four.rows[0], 0.0, 0.0, 10.0, true);
    var six := After(c, start, STEPS[..6]);
    AfterStep(c, start, STEPS, 6);
    NextOfRow(c, six, STEPS[6]);
    StepRowIs(six.rows[0], 0.0);
    EmptyUnchecked(six.rows[0], 10.0);
    assert STEPS[..7] == STEPS;
  }

  lemma EmptyUnchecked(r: Row, hours: real)
    requires Holds(r, 0.0, hours, true)
    ensures Check(r) == r
  {
    hide Check, TenHours;
    NoHoursNoCheck(r);
  }

  lemma AfterWorked(m: Rounding, run: Run)
    requires |run.rows| == 2 && run.rows[1].guaranteed == 10.0
    ensures After(Ten(m), run, WORK) == run.(rows := [run.rows[0], Busy(run.rows[1])])
  {
    hide After, Next, Reserve, Observe, Ten;
    AfterNone(Ten(m), run, WORK);
    AfterStep(Ten(m), run, WORK, 0);
    AfterStep(Ten(m), run, WORK, 1);
    assert WORK[..2] == WORK;
    NextTwo(Ten(m), run);
  }

  lemma NextTwo(c: Config, run: Run)
    requires |run.rows| == 2 && run.rows[1].guaranteed == 10.0
    ensures Next(c, Next(c, run, WORK[0]), WORK[1]) == run.(rows := [run.rows[0], Busy(run.rows[1])])
  {
    hide Reserve, Observe;
    var r := Reserve(run.rows[1], CapacityGuaranteed, 10.0, 1.0);
    assert Next(c, run, WORK[0]) == run.(rows := [run.rows[0], r]);
  }

  lemma EmptyTotals(rows: seq<Row>)
    requires |rows| == 2 && Holds(rows[0], 0.0, 10.0, true) && rows[1] == Busy(Idle("b", 10.0, 20.0, false))
    ensures Sum(Spents(rows)) == 20.0 && Sum(Overruns(rows)) == 0.0 && Sum(Strays(rows)) == 0.0
  {
    hide Busy, Row.Spent, Row.Overrun, Holds, Idle, Sum, Row.Q, Passed;
    HoldsUse(rows[0], 0.0, 10.0, true);
    BusySpends("b", 10.0, 20.0);
    SumOfTwo(Spents(rows), 10.0, 10.0);
    SumOfTwo(Overruns(rows), 0.0, 0.0);
    SumOfTwo(Strays(rows), 0.0, 0.0);
  }

  lemma SumOfTwo(xs: seq<real>, x: real, y: real)
    requires |xs| == 2 && xs[0] == x && xs[1] == y
    ensures Sum(xs) == x + y
  {
    assert xs == [] + [x] + [y];
    SumAppend([], x);
    SumAppend([] + [x], y);
  }

  /** The check is no cap: with a budget of ten hours all released, nothing drained, stray or overrun,
      and the agent checked after the join and again once its job has run, twenty are spent. */
  lemma EmptiedAgentIsUnchecked(m: Rounding)
    ensures ValidConfig(Ten(m)) && Startable([LONE])
    ensures var run := After(Ten(m), After(Ten(m), Start(Ten(m), [LONE]), STEPS), WORK);
            && Released(Ten(m), run.stage) == 10.0 && Sum(Spents(run.rows)) == 20.0
            && run.drained == 0.0 && Sum(Overruns(run.rows)) == 0.0 && Sum(Strays(run.rows)) == 0.0
  {
    hide After, Start, Busy, Idle, Holds, Lone;
    TenIsValid(m);
    LoneIsStartable();
    StartLone(m);
    AfterEmptied(m, Start(Ten(m), [LONE]));
    var run := After(Ten(m), Start(Ten(m), [LONE]), STEPS);
    WholeShare();
    AfterWorked(m, run);
    EmptyTotals(After(Ten(m), run, WORK).rows);
  }

  lemma WholeShare()
    ensures Idle("b", 10.0, 20.0, false).guaranteed == 10.0
  {
  }
}
