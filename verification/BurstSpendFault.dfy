/** A run in which the budget is no cap: a boundary hands on hours a cut agent spent at burst. */
module BurstSpendFault {
  import opened Hours
  import opened Sums
  import opened Credits
  import opened Quota
  import opened Stages
  import opened LedgerRows
  import opened Ledger
  import opened LedgerLaws
  import opened LedgerWatch
  import opened LedgerCap
  import opened LedgerFault

  const HALVES := [Stage(50.0, 80.0, 0.0), Stage(50.0, 0.0, 0.0)]

  /** A budget of twenty hours in two equal stages, the first of which cuts four of five. */
  function Twenty(m: Rounding): Config { Config(m, 20.0, HALVES, 2.0, 0.0) }

  function Plain(agent: string): Participant { Participant(agent, true, TierGuaranteed, 0.0) }

  const FIVE := [Plain("a"), Plain("b"), Plain("c"), Plain("d"), Plain("e")]
  const CUT := {"a", "b", "c", "d"}

  lemma SumOfFive(xs: seq<real>, x: real, y: real, z: real, u: real, v: real)
    requires |xs| == 5 && xs[0] == x && xs[1] == y && xs[2] == z && xs[3] == u && xs[4] == v
    ensures Sum(xs) == x + y + z + u + v
  {
    SumPrefix(xs, 3);
    SumPrefix(xs, 4);
    assert xs[..5] == xs;
    SumOfThree(xs[..3], x, y, z);
  }

  lemma NoBonuses()
    ensures Bonuses(FIVE) == [0.0, 0.0, 0.0, 0.0, 0.0] && Sum(Bonuses(FIVE)) == 0.0
  {
    SumOfFive(Bonuses(FIVE), 0.0, 0.0, 0.0, 0.0, 0.0);
  }

  lemma HalvesAre()
    ensures ValidLadder(HALVES) && Boundary(HALVES, 2) == 1.0
  {
    var lengths := Lengths(HALVES);
    SumPrefix(lengths, 0);
    SumPrefix(lengths, 1);
    assert lengths[..2] == lengths && Sum(lengths) == 100.0;
  }

  lemma TwentyIsValid(m: Rounding)
    ensures ValidConfig(Twenty(m)) && Startable(FIVE) && Released(Twenty(m), 2) == 20.0
  {
    hide ValidLadder, Boundary;
    HalvesAre();
    NoBonuses();
    assert forall i :: 0 <= i < 5 ==> FIVE[i].bonus == 0.0;
  }

  lemma StartFive(m: Rounding)
    ensures var run := Start(Twenty(m), FIVE);
            && run.stage == 1 && run.drained == 0.0
            && run.rows == [Idle("a", 2.0, 4.0, false), Idle("b", 2.0, 4.0, false), Idle("c", 2.0, 4.0, false),
                            Idle("d", 2.0, 4.0, false), Idle("e", 2.0, 4.0, false)]
  {
    hide Round, AllocateBurst, Sum, Unrounded, Product;
    NoBonuses();
    assert Product(20.0, HALVES[0].ReleaseFrac()) == 10.0 by { HalfOfTwenty(); }
    assert Unrounded(10.0, 5, 0.0, 0.0) == 2.0 by { FifthOfTen(); }
    RoundWhole(m, 2);
    BurstOfWhole(m, 2);
    var shares := StartShares(Twenty(m), FIVE);
    assert forall i :: 0 <= i < 5 ==> shares[i] == 2.0;
  }

  lemma HalfOfTwenty()
    ensures Product(20.0, HALVES[0].ReleaseFrac()) == 10.0 && Product(20.0, HALVES[1].ReleaseFrac()) == 10.0
  {
  }

  lemma FifthOfTen()
    ensures Unrounded(10.0, 5, 0.0, 0.0) == 2.0
  {
  }

  // ----- the agent that is cut ------------------------------------------------------------------

  /** An executor that spent its whole share of two hours at burst. */
  function Spender(): Row {
    Observe(Reserve(Idle("a", 2.0, 4.0, false), CapacityBurst, 2.0, 1.0), CapacityBurst, 0, 1.0)
  }

  const ONE_JOB := TierUse(0.0, 0.0, [Job(2.0, 1.0, 1.0, true)])

  lemma SpenderIs()
    ensures var r := Spender(); r == Idle("a", 2.0, 4.0, false).(useB := ONE_JOB, watch := r.watch)
  {
    hide TierUse.Used, TierUse.Observed, RatedCost, AgentQuota.Remaining, Row.Q;
    var r := Idle("a", 2.0, 4.0, false);
    RemainingAtBurst();
    var one := Reserve(r, CapacityBurst, 2.0, 1.0);
    assert one.useB.jobs == [Job(2.0, 1.0, 0.0, false)];
    assert [Job(2.0, 1.0, 0.0, false)][0 := Job(2.0, 1.0, 1.0, true)] == [Job(2.0, 1.0, 1.0, true)];
  }

  lemma RemainingAtBurst()
    ensures Idle("a", 2.0, 4.0, false).Q().Remaining(CapacityBurst) == 2.0
  {
    hide TierUse.Used;
    var r := Idle("a", 2.0, 4.0, false);
    NothingUsed(r.useG);
    NothingUsed(r.useB);
  }

  /** A job that cost its hold spent it and overran nothing. */
  lemma WholeUse(j: Job)
    requires j.Valid() && j.Cost() == j.hold
    ensures var u := TierUse(0.0, 0.0, [j]); u.Observed() == j.hold && u.Overrun() == 0.0 && u.Valid()
  {
    hide Job.Cost;
    var u := TierUse(0.0, 0.0, [j]);
    assert u.Costs() == [] + [j.hold] && u.Overruns() == [] + [0.0];
    SumAppend([], j.hold);
    SumAppend([], 0.0);
  }

  lemma OneJobUse()
    ensures ONE_JOB.Observed() == 2.0 && ONE_JOB.Overrun() == 0.0 && ONE_JOB.Valid()
  {
    hide RatedCost, TierUse.Observed, TierUse.Overrun, TierUse.Valid;
    WholeJob(2.0);
    WholeUse(Job(2.0, 1.0, 1.0, true));
  }

  /** Cut, it hands on its whole share though it spent it. */
  lemma SpenderSpent()
    ensures var r := Spender();
            && r.useG.Valid() && r.useB.Valid() && r.useG.Observed() == 0.0 && r.useB.Observed() == 2.0
            && r.useG.Overrun() == 0.0 && r.useB.Overrun() == 0.0
            && r.guaranteed == 2.0 && r.tier.TierGuaranteed? && !r.cut && r.stray == 0.0 && r.lost == 0.0
            && r.Competes() && r.agent == "a"
  {
    hide TierUse.Observed, TierUse.Overrun, TierUse.Valid, ONE_JOB, Spender;
    SpenderIs();
    OneJobUse();
    assert NO_USE.Observed() == 0.0 && NO_USE.Overrun() == 0.0 by { NothingSpent(NO_USE); }
    assert NO_USE.Valid() by { NoUseValid(); }
  }

  /** What a cut does to an agent that is within its share. */
  lemma CutWithin(r: Row)
    requires r.useG.Valid() && r.useB.Valid() && !r.cut && r.tier.TierGuaranteed? && r.guaranteed > 0.0
    requires r.stray == 0.0 && r.lost == 0.0 && r.Spent() <= r.guaranteed
    ensures var after := CutOff(r);
            after.Spent() == r.Spent() && after.Overrun() == r.Overrun() && after.stray == r.useB.Observed() && Passed(after) == 0.0
  {
    hide TierUse.Observed, TierUse.Overrun, TierUse.Used, TierUse.Valid, TierUse.SettleAll;
    SettleAllUse(r.useG);
    SettleAllUse(r.useB);
  }

  lemma SpenderCut()
    ensures Returned(Spender()) == 2.0 && Spender().Competes() && Spender().agent == "a"
    ensures var r := CutOff(Spender()); r.Spent() == 2.0 && r.Overrun() == 0.0 && r.stray == 2.0 && Passed(r) == 0.0
  {
    hide TierUse.Observed, TierUse.Overrun, TierUse.Valid, CutOff, Spender, Passed;
    SpenderSpent();
    CutWithin(Spender());
  }

  lemma NoUseValid()
    ensures NO_USE.Valid()
  {
  }

  lemma IdleCut(agent: string)
    ensures var r := Idle(agent, 2.0, 4.0, false); Returned(r) == 2.0 && r.Competes() && r.agent == agent
    ensures var r := CutOff(Idle(agent, 2.0, 4.0, false));
            r.Spent() == 0.0 && r.Overrun() == 0.0 && r.stray == 0.0 && Passed(r) == 0.0
  {
    var r := Idle(agent, 2.0, 4.0, false);
    hide TierUse.Observed, TierUse.Overrun, TierUse.Valid, CutOff, Passed;
    assert r.useG == r.useB == NO_USE && NO_USE.Valid() by { NoUseValid(); }
    NothingSpent(NO_USE);
    CutWithin(r);
  }

  // ----- the run --------------------------------------------------------------------------------

  const STEPS := [DoReserve(0, CapacityBurst, 2.0, 1.0), DoObserve(0, CapacityBurst, 0, 1.0), DoAdvance(CUT),
                  DoReserve(4, CapacityGuaranteed, 20.0, 1.0), DoObserve(4, CapacityGuaranteed, 0, 1.0)]

  function Field(): seq<Row> {
    [Spender(), Idle("b", 2.0, 4.0, false), Idle("c", 2.0, 4.0, false), Idle("d", 2.0, 4.0, false), Idle("e", 2.0, 4.0, false)]
  }

  lemma Names()
    ensures "a" in CUT && "b" in CUT && "c" in CUT && "d" in CUT && "e" !in CUT
  {
    assert "e"[0] == 'e';
  }

  predicate TwoToGive(r: Row) { r.Competes() && Returned(r) == 2.0 }

  /** Rows of these agents, competing, each of the first four with two hours to hand on. */
  lemma FiveAreCut(rows: seq<Row>)
    requires |rows| == 5 && rows[0].agent == "a" && rows[1].agent == "b" && rows[2].agent == "c" && rows[3].agent == "d"
    requires rows[4].agent == "e" && TwoToGive(rows[0]) && TwoToGive(rows[1]) && TwoToGive(rows[2]) && TwoToGive(rows[3])
    requires TwoToGive(rows[4])
    ensures Sum(Returns(rows, CUT)) == 8.0 && Count(Survivors(rows, CUT)) == 1
    ensures (forall i :: 0 <= i < 4 ==> IsCut(rows[i], CUT)) && Survives(rows[4], CUT)
  {
    hide Returned, Row.Competes, Sum, Count;
    Names();
    hide CUT;
    SumOfFive(Returns(rows, CUT), 2.0, 2.0, 2.0, 2.0, 0.0);
    assert Survivors(rows, CUT) == [] + [false] + [false] + [false] + [false] + [true];
    OneOfFive();
  }

  lemma FieldIsCut()
    ensures var rows := Field();
            && Distinct(rows) && Sum(Returns(rows, CUT)) == 8.0 && Count(Survivors(rows, CUT)) == 1
            && (forall i :: 0 <= i < 4 ==> IsCut(rows[i], CUT)) && Survives(rows[4], CUT)
  {
    hide Returned, Row.Competes, Sum, Count, CUT, Idle, Spender, CutOff, Row.Spent, Row.Overrun, IsCut, Survives, Distinct;
    SpenderCut();
    IdleCut("b");
    IdleCut("c");
    IdleCut("d");
    IdleCut("e");
    FiveAreCut(Field());
    FiveDiffer(Field());
  }

  lemma FiveDiffer(rows: seq<Row>)
    requires |rows| == 5 && rows[0].agent == "a" && rows[1].agent == "b" && rows[2].agent == "c" && rows[3].agent == "d"
    requires rows[4].agent == "e"
    ensures Distinct(rows)
  {
    assert forall i :: 0 <= i < 5 ==> |rows[i].agent| == 1;
    assert rows[0].agent[0] == 'a' && rows[1].agent[0] == 'b' && rows[2].agent[0] == 'c';
    assert rows[3].agent[0] == 'd' && rows[4].agent[0] == 'e';
  }

  lemma OneOfFive()
    ensures Count([] + [false] + [false] + [false] + [false] + [true]) == 1
  {
    CountAppend([], false);
    CountAppend([] + [false], false);
    CountAppend([] + [false] + [false], false);
    CountAppend([] + [false] + [false] + [false], false);
    CountAppend([] + [false] + [false] + [false] + [false], true);
  }

  lemma FieldCredit(m: Rounding, run: Run)
    requires run.stage == 1 && run.rows == Field()
    ensures BoundaryCredit(Twenty(m), run, CUT) == 18.0
  {
    hide Field, Survivors, CutHours, CutUse, LeftByAll, Returns, Count, Product, Round, Distinct;
    FieldIsCut();
    CutMapsAgree(run.rows, CUT);
    HalfOfTwenty();
    RoundWhole(m, 18);
  }

  lemma FieldAcross(m: Rounding, run: Run)
    requires run.stage == 1 && run.rows == Field()
    ensures var after := Advance(Twenty(m), run, CUT);
            && after.stage == 2 && after.drained == run.drained
            && after.rows == [CutOff(Spender()), CutOff(Idle("b", 2.0, 4.0, false)), CutOff(Idle("c", 2.0, 4.0, false)),
                              CutOff(Idle("d", 2.0, 4.0, false)), Idle("e", 20.0, 4.0, false)]
  {
    hide BoundaryCredit, CutOff, Credited, Survivors, Returns, IsCut, Survives, Count, Distinct, Idle, Spender, Sum, CUT;
    FieldIsCut();
    FieldCredit(m, run);
    var rows := AllAcross(run.rows, CUT, 18.0);
    EIsCredited();
    assert Survives(run.rows[4], CUT) && !IsCut(run.rows[4], CUT) by { NotBoth(run.rows[4], CUT); }
    assert rows[0] == CutOff(run.rows[0]) && rows[1] == CutOff(run.rows[1]) && rows[2] == CutOff(run.rows[2]);
    assert rows[3] == CutOff(run.rows[3]) && rows[4] == Credited(run.rows[4], 18.0);
  }

  lemma NotBoth(r: Row, cut: set<string>)
    ensures !(Survives(r, cut) && IsCut(r, cut))
  {
  }

  lemma EIsCredited()
    ensures Credited(Idle("e", 2.0, 4.0, false), 18.0) == Idle("e", 20.0, 4.0, false)
  {
  }

  lemma AfterBurst(m: Rounding, start: Run)
    requires start.rows == [Idle("a", 2.0, 4.0, false), Idle("b", 2.0, 4.0, false), Idle("c", 2.0, 4.0, false),
                            Idle("d", 2.0, 4.0, false), Idle("e", 2.0, 4.0, false)]
    ensures After(Twenty(m), start, STEPS[..2]) == start.(rows := Field())
  {
    hide After, Reserve, Observe, Idle, Twenty;
    AfterNone(Twenty(m), start, STEPS);
    AfterStep(Twenty(m), start, STEPS, 0);
    AfterStep(Twenty(m), start, STEPS, 1);
  }

  lemma AfterLast(m: Rounding, run: Run)
    requires |run.rows| == 5 && run.rows[4].guaranteed == 20.0
    ensures Next(Twenty(m), Next(Twenty(m), run, STEPS[3]), STEPS[4]) == run.(rows := run.rows[4 := Busy(run.rows[4])])
  {
    hide Reserve, Observe, Twenty;
  }

  lemma NextAdvance(c: Config, run: Run, cut: set<string>)
    ensures Next(c, run, DoAdvance(cut)) == Advance(c, run, cut)
  {
    hide Advance;
  }

  lemma FieldTotals(rows: seq<Row>)
    requires rows == [CutOff(Spender()), CutOff(Idle("b", 2.0, 4.0, false)), CutOff(Idle("c", 2.0, 4.0, false)),
                      CutOff(Idle("d", 2.0, 4.0, false)), Busy(Idle("e", 20.0, 4.0, false))]
    ensures Sum(Spents(rows)) == 22.0 && Sum(Overruns(rows)) == 0.0 && Sum(Strays(rows)) == 2.0 && Sum(Passeds(rows)) == 0.0
  {
    hide CutOff, Busy, Idle, Spender, Row.Spent, Row.Overrun, Row.Competes, Returned, Sum, Passed;
    SpenderCut();
    IdleCut("b");
    IdleCut("c");
    IdleCut("d");
    BusySpends("e", 20.0, 4.0);
    SumOfFive(Spents(rows), 2.0, 0.0, 0.0, 0.0, 20.0);
    SumOfFive(Overruns(rows), 0.0, 0.0, 0.0, 0.0, 0.0);
    SumOfFive(Strays(rows), 2.0, 0.0, 0.0, 0.0, 0.0);
    SumOfFive(Passeds(rows), 0.0, 0.0, 0.0, 0.0, 0.0);
  }

  /** The budget is no cap: with a budget of twenty hours all released, no hour drained or overrun and
      no agent past its share, twenty-two are spent, the two above it those the cut agent spent at
      burst. */
  lemma SpentHoursAreHandedOn(m: Rounding)
    ensures ValidConfig(Twenty(m)) && Startable(FIVE)
    ensures var run := After(Twenty(m), Start(Twenty(m), FIVE), STEPS);
            && Released(Twenty(m), run.stage) == 20.0 && Sum(Spents(run.rows)) == 22.0
            && run.drained == 0.0 && Sum(Overruns(run.rows)) == 0.0 && Sum(Passeds(run.rows)) == 0.0
            && Sum(Strays(run.rows)) == 2.0
  {
    hide After, Start, Advance, Next, Busy, CutOff, Idle, Field, Spender;
    var c, start := Twenty(m), Start(Twenty(m), FIVE);
    TwentyIsValid(m);
    StartFive(m);
    AfterBurst(m, start);
    AfterStep(c, start, STEPS, 2);
    NextAdvance(c, After(c, start, STEPS[..2]), CUT);
    FieldAcross(m, After(c, start, STEPS[..2]));
    AfterStep(c, start, STEPS, 3);
    AfterStep(c, start, STEPS, 4);
    assert STEPS[..5] == STEPS;
    LastHours();
    AfterLast(m, After(c, start, STEPS[..3]));
    FieldTotals(After(c, start, STEPS).rows);
  }

  lemma LastHours()
    ensures Idle("e", 20.0, 4.0, false).guaranteed == 20.0
  {
  }
}
