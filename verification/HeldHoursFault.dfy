/** A run in which a late join costs an agent a job that was admitted and kept to its estimate. */
module HeldHoursFault {
  import opened Hours
  import opened Sums
  import opened Credits
  import opened Quota
  import opened LedgerRows
  import opened Ledger
  import opened LedgerFault

  /** One job that holds ten hours for ten, and ran so many of them. */
  function TenHours(hours: real): TierUse { TierUse(0.0, 0.0, [Job(10.0, 10.0, hours, true)]) }

  lemma CostOfTen(hours: real)
    ensures Job(10.0, 10.0, hours, true).Cost() == hours
  {
    assert 10.0 / 10.0 == 1.0;
  }

  lemma TenHoursUse(hours: real)
    requires hours >= 0.0
    ensures var u := TenHours(hours);
            && u.Valid() && u.Used() == 10.0 && u.Seen() == hours && u.Observed() == hours
            && u.Overrun() == Max(0.0, hours - 10.0)
  {
    hide RatedCost;
    var u := TenHours(hours);
    CostOfTen(hours);
    assert u.Holds() == [] + [10.0] && u.Seens() == [] + [hours] && u.Costs() == [] + [hours];
    assert u.Overruns() == [] + [Max(0.0, hours - 10.0)];
    SumAppend([], 10.0);
    SumAppend([], hours);
    SumAppend([], Max(0.0, hours - 10.0));
  }

  lemma NoUseUse()
    ensures NO_USE.Valid() && NO_USE.Used() == NO_USE.Seen() == NO_USE.Observed() == NO_USE.Overrun() == 0.0
  {
    NothingUsed(NO_USE);
    NothingSpent(NO_USE);
  }

  // ----- the executor that is joined ------------------------------------------------------------

  /** An executor at work with that job and so many guaranteed hours. */
  ghost predicate Holding(r: Row, guaranteed: real, hours: real) {
    && r == Idle("a", guaranteed, 20.0, false).(useG := TenHours(hours), overtaken := r.overtaken, watch := r.watch)
  }

  lemma RemainingWhole(agent: string, guaranteed: real, burst: real)
    requires guaranteed > 0.0
    ensures Idle(agent, guaranteed, burst, false).Q().Remaining(CapacityGuaranteed) == guaranteed
  {
    hide TierUse.Used;
    var r := Idle(agent, guaranteed, burst, false);
    NothingUsed(r.useG);
    NothingUsed(r.useB);
  }

  lemma JobSeenRunning(hours: real)
    requires hours >= 0.0
    ensures TierUse(0.0, 0.0, [Job(10.0, 10.0, 0.0, false)]).Observe(0, hours) == TenHours(hours)
  {
    assert [Job(10.0, 10.0, 0.0, false)][0 := Job(10.0, 10.0, hours, true)] == [Job(10.0, 10.0, hours, true)];
  }

  lemma JobSeenAgain(hours: real, more: real)
    ensures TenHours(hours).Observe(0, more) == TenHours(more)
  {
    assert [Job(10.0, 10.0, hours, true)][0 := Job(10.0, 10.0, more, true)] == [Job(10.0, 10.0, more, true)];
  }

  /** The job is admitted and seen running. */
  lemma HoldsTen(hours: real)
    requires hours >= 0.0
    ensures Holding(Observe(Reserve(Idle("a", 10.0, 20.0, false), CapacityGuaranteed, 10.0, 10.0), CapacityGuaranteed, 0, hours),
                    10.0, hours)
  {
    hide TierUse.Used, TierUse.Observed, TierUse.Observe, AgentQuota.Remaining, Row.Q;
    RemainingWhole("a", 10.0, 20.0);
    JobSeenRunning(hours);
    var one := Reserve(Idle("a", 10.0, 20.0, false), CapacityGuaranteed, 10.0, 10.0);
    assert one.useG == TierUse(0.0, 0.0, [Job(10.0, 10.0, 0.0, false)]);
  }

  lemma HoldsMore(r: Row, guaranteed: real, hours: real, more: real)
    requires Holding(r, guaranteed, hours) && more >= hours
    ensures Holding(Observe(r, CapacityGuaranteed, 0, more), guaranteed, more)
  {
    hide TierUse.Used, TierUse.Observed, TierUse.Observe;
    JobSeenAgain(hours, more);
  }

  lemma HoldingUse(r: Row, guaranteed: real, hours: real)
    requires Holding(r, guaranteed, hours) && guaranteed > 0.0 && hours >= 0.0
    ensures r.Q().Used() == 10.0 && r.Seen() == r.Spent() == hours && r.Share() == guaranteed
    ensures r.Competes() && !r.Ended() && r.agent == "a" && !r.cut
  {
    hide TierUse.Used, TierUse.Observed, TierUse.Seen, TierUse.Valid, TierUse.Overrun, TenHours;
    TenHoursUse(hours);
    NoUseUse();
  }

  lemma HoldingQuota(r: Row)
    requires Holding(r, 10.0, 2.0)
    ensures r.AsExecutorQuota().Unspent() == 8.0 && !r.AsExecutorQuota().ended
  {
    hide Holding, Row.Q;
    HoldingUse(r, 10.0, 2.0);
    assert r.guaranteed == 10.0 by { HoldingHours(r, 10.0, 2.0); }
  }

  lemma HoldingHours(r: Row, guaranteed: real, hours: real)
    requires Holding(r, guaranteed, hours)
    ensures r.guaranteed == guaranteed && r.useG == TenHours(hours)
  {
  }

  lemma HoldingTaken(r: Row)
    requires Holding(r, 10.0, 2.0)
    ensures Holding(Taken(r, 4.0), 6.0, 2.0) && DrainGain(r, 4.0) == 0.0 && Taken(r, 4.0).overtaken == r.overtaken + 4.0
  {
    hide TierUse.Used, Row.Q, TenHours;
    HoldingUse(r, 10.0, 2.0);
  }

  // ----- the join -------------------------------------------------------------------------------

  /** A newcomer beside one executor at work gets half of what it has not spent. */
  lemma BesideOneAtWork(m: Rounding, q: ExecutorQuota, share: int)
    requires !q.ended && share > 0 && q.Unspent() == (2 * share) as real
    ensures ShareOf(m, [q]) == share as real && Takes(m, [q]) == [share as real] && Workers([q]) == 1
  {
    hide Round, Product;
    HalfOfOne(m, q, share);
    var qs, s := [q], share as real;
    assert EndedUnspents(qs)[..0] == [];
    SumPrefix(EndedUnspents(qs), 0);
    assert EndedUnspents(qs)[..1] == EndedUnspents(qs);
    assert Excesses(qs, s) == [] + [s];
    SumAppend([], s);
    AllOfIt(m, share);
    assert Need(s, qs, 1) == s;
  }

  lemma AllOfIt(m: Rounding, share: int)
    requires share > 0
    ensures WorkerGives(m, share as real, share as real, share as real) == share as real
  {
    hide Round;
    var s := share as real;
    DivUnique(s, s, 1.0);
    assert Product(s, 1.0) == s;
    RoundWhole(m, share);
  }

  lemma HalfOfOne(m: Rounding, q: ExecutorQuota, share: int)
    requires !q.ended && share > 0 && q.Unspent() == (2 * share) as real
    ensures ShareOf(m, [q]) == share as real && Workers([q]) == 1
  {
    hide Round;
    var qs := [q];
    assert Unspents(qs) == [] + [q.Unspent()] && AtWork(qs) == [] + [true];
    SumAppend([], q.Unspent());
    CountAppend([], true);
    Halved(share);
    RoundWhole(m, share);
  }

  /** The join counts the job at the two hours it ran, and takes four of the ten it holds. */
  lemma JoinTakesHeld(m: Rounding, run: Run)
    requires |run.rows| == 1 && Holding(run.rows[0], 10.0, 2.0)
    ensures var after := Join(Ten(m), run, "b", TierGuaranteed);
            && |after.rows| == 2 && Holding(after.rows[0], 6.0, 2.0) && after.rows[1] == Idle("b", 4.0, 8.0, false)
            && after.rows[0].overtaken == run.rows[0].overtaken + 4.0
  {
    hide Eligible, ShareOf, Takes, Workers, AllocateBurst, Row.AsExecutorQuota, Taken, DrainGain, Row.Competes, Sum, Holding;
    var a := run.rows[0];
    HoldingQuota(a);
    HoldingTaken(a);
    HoldingUse(a, 10.0, 2.0);
    assert run.rows == [a];
    EligibleOne(a);
    EligibleNone();
    BesideOneAtWork(m, a.AsExecutorQuota(), 4);
    assert run.rows[..0] == [];
    assert TakeAt(m, run.rows, 0) == 4.0;
    BurstOfWhole(m, 4);
  }

  // ----- the run --------------------------------------------------------------------------------

  const STEPS := [DoReserve(0, CapacityGuaranteed, 10.0, 10.0), DoObserve(0, CapacityGuaranteed, 0, 2.0),
                  DoJoin("b", TierGuaranteed), DoObserve(0, CapacityGuaranteed, 0, 6.0), DoCheck(0)]

  /** The same without the join. */
  const ALONE := [DoReserve(0, CapacityGuaranteed, 10.0, 10.0), DoObserve(0, CapacityGuaranteed, 0, 6.0), DoCheck(0)]

  lemma AfterReserved(m: Rounding, start: Run, steps: seq<Step>, hours: real)
    requires start.rows == [Idle("a", 10.0, 20.0, false)] && hours >= 0.0 && |steps| >= 2
    requires steps[0] == DoReserve(0, CapacityGuaranteed, 10.0, 10.0) && steps[1] == DoObserve(0, CapacityGuaranteed, 0, hours)
    ensures var run := After(Ten(m), start, steps[..2]); |run.rows| == 1 && Holding(run.rows[0], 10.0, hours)
  {
    hide After, Reserve, Observe, Holding, Idle, Ten;
    AfterNone(Ten(m), start, steps);
    AfterStep(Ten(m), start, steps, 0);
    AfterStep(Ten(m), start, steps, 1);
    HoldsTen(hours);
  }

  lemma CheckIs(r: Row)
    requires !r.cut
    ensures Exhausts(r.Share(), r.Spent()) ==> Check(r).useG == r.useG.SettleAll()
    ensures !Exhausts(r.Share(), r.Spent()) && !Exhausts(r.guaranteed, r.useG.Observed()) ==> Check(r).useG == r.useG
  {
    hide TierUse.Observed, TierUse.SettleAll, Exhausts, Row.Share, Row.Spent;
  }

  lemma CheckEnds(r: Row)
    requires Holding(r, 6.0, 6.0)
    ensures Check(r).useG.jobs == [] && Check(r).useG.settled == 6.0
  {
    hide Check, Holding, Row.Share, Row.Spent, Row.Q, TierUse.Observed, TenHours, TierUse.Overrun;
    HoldingUse(r, 6.0, 6.0);
    HoldingHours(r, 6.0, 6.0);
    TenHoursUse(6.0);
    CheckIs(r);
  }

  lemma CheckLets(r: Row)
    requires Holding(r, 10.0, 6.0)
    ensures Check(r).useG == r.useG
  {
    hide Check, Holding, Row.Share, Row.Spent, Row.Q, TierUse.Observed, TenHours;
    HoldingUse(r, 10.0, 6.0);
    HoldingHours(r, 10.0, 6.0);
    TenHoursUse(6.0);
    CheckIs(r);
  }

  lemma NextObserve(c: Config, run: Run, hours: real)
    requires |run.rows| > 0
    ensures var after := Next(c, run, DoObserve(0, CapacityGuaranteed, 0, hours));
            |after.rows| == |run.rows| && after.rows[0] == Observe(run.rows[0], CapacityGuaranteed, 0, hours)
  {
    hide Observe;
  }

  lemma NextCheck(c: Config, run: Run)
    requires |run.rows| > 0
    ensures var after := Next(c, run, DoCheck(0)); |after.rows| == |run.rows| && after.rows[0] == Check(run.rows[0])
  {
    hide Check;
  }

  /** A job admitted with a hold of ten hours for ten is ended at six, and settled there, because a join
      took four of the hours it held; without the join the same check lets it run. */
  lemma AdmittedJobIsEnded(m: Rounding)
    ensures ValidConfig(Ten(m)) && Startable([FIRST])
    ensures var c, start := Ten(m), Start(Ten(m), [FIRST]);
            var before, after := After(c, start, STEPS[..4]), After(c, start, STEPS);
            && |before.rows| == 2 && before.rows[0].useG.jobs == [Job(10.0, 10.0, 6.0, true)]
            && |after.rows| == 2 && after.rows[0].useG.jobs == [] && after.rows[0].useG.settled == 6.0
    ensures var alone := After(Ten(m), Start(Ten(m), [FIRST]), ALONE);
            |alone.rows| == 1 && alone.rows[0].useG.jobs == [Job(10.0, 10.0, 6.0, true)]
  {
    hide After, Start, Next, Check, Observe, Holding, Idle, Ten;
    TenIsValid(m);
    StartTen(m);
    JoinedIsEnded(m, Start(Ten(m), [FIRST]));
    AloneRunsOn(m, Start(Ten(m), [FIRST]));
  }

  lemma JoinedIsEnded(m: Rounding, start: Run)
    requires start.rows == [Idle("a", 10.0, 20.0, false)]
    ensures var before, after := After(Ten(m), start, STEPS[..4]), After(Ten(m), start, STEPS);
            && |before.rows| == 2 && before.rows[0].useG.jobs == [Job(10.0, 10.0, 6.0, true)]
            && |after.rows| == 2 && after.rows[0].useG.jobs == [] && after.rows[0].useG.settled == 6.0
  {
    hide After, Next, Check, Observe, Holding, Idle, Ten, Join;
    var c := Ten(m);
    AfterReserved(m, start, STEPS, 2.0);
    var two := After(c, start, STEPS[..2]);
    AfterStep(c, start, STEPS, 2);
    NextJoin(c, two, "b");
    JoinTakesHeld(m, two);
    var three := After(c, start, STEPS[..3]);
    AfterStep(c, start, STEPS, 3);
    NextObserve(c, three, 6.0);
    HoldsMore(three.rows[0], 6.0, 2.0, 6.0);
    var four := After(c, start, STEPS[..4]);
    HoldingHours(four.rows[0], 6.0, 6.0);
    AfterStep(c, start, STEPS, 4);
    NextCheck(c, four);
    CheckEnds(four.rows[0]);
    assert STEPS[..5] == STEPS;
  }

  lemma AloneRunsOn(m: Rounding, start: Run)
    requires start.rows == [Idle("a", 10.0, 20.0, false)]
    ensures var alone := After(Ten(m), start, ALONE);
            |alone.rows| == 1 && alone.rows[0].useG.jobs == [Job(10.0, 10.0, 6.0, true)]
  {
    hide After, Next, Check, Observe, Holding, Idle, Ten;
    var c := Ten(m);
    AfterReserved(m, start, ALONE, 6.0);
    var two := After(c, start, ALONE[..2]);
    HoldingHours(two.rows[0], 10.0, 6.0);
    AfterStep(c, start, ALONE, 2);
    NextCheck(c, two);
    CheckLets(two.rows[0]);
    assert ALONE[..3] == ALONE;
  }
}
