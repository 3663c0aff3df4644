/** A run in which the budget is no cap: two joins after one executor ended without a job. */
module LedgerFault {
  import opened Hours
  import opened Sums
  import opened Credits
  import opened Quota
  import opened Stages
  import opened LedgerRows
  import opened Ledger
  import opened LedgerLaws
  import opened LedgerWatch
  import opened LedgerCap

  lemma RoundWhole(m: Rounding, k: int)
    requires k >= 0
    ensures Round(m, k as real) == k as real
  {
    if m.Millionth? {
      assert k as real * MILLION == (k * 1000000) as real;
      assert RoundInt(k as real * MILLION) == k * 1000000;
      assert (k * 1000000) as real / MILLION == k as real;
    }
  }

  /** A newcomer beside one ended executor takes all it left. */
  lemma AfterOneEnded(m: Rounding, q: ExecutorQuota, u: int)
    requires q.ended && u >= 0 && q.Unspent() == u as real
    ensures ShareOf(m, [q]) == u as real && Takes(m, [q]) == [u as real] && Workers([q]) == 0
  {
    var qs := [q];
    assert Unspents(qs) == [] + [q.Unspent()] && AtWork(qs) == [] + [false];
    SumAppend([], q.Unspent());
    CountAppend([], false);
    RoundWhole(m, u);
    assert EndedUnspents(qs)[..0] == [];
  }

  lemma ShareBesideTwo(m: Rounding, q: ExecutorQuota, w: ExecutorQuota, share: int)
    requires q.ended && !w.ended && share >= 0
    requires q.Unspent() + w.Unspent() == (2 * share) as real
    ensures ShareOf(m, [q, w]) == share as real
  {
    hide Round;
    var qs := [q, w];
    assert Unspents(qs) == [] + [q.Unspent()] + [w.Unspent()];
    SumAppend([], q.Unspent());
    SumAppend([] + [q.Unspent()], w.Unspent());
    assert AtWork(qs) == [] + [false] + [true];
    CountAppend([], false);
    CountAppend([] + [false], true);
    RoundWhole(m, share);
    assert Sum(Unspents(qs)) == (2 * share) as real && Workers(qs) == 1;
    Halved(share);
  }

  lemma Halved(share: int)
    ensures (2 * share) as real / 2.0 == share as real
  {
  }

  /** A newcomer beside an ended executor that left the larger part takes its share from it alone. */
  lemma AfterEndedAndWorking(m: Rounding, q: ExecutorQuota, w: ExecutorQuota, share: int)
    requires q.ended && !w.ended && share >= 0
    requires q.Unspent() + w.Unspent() == (2 * share) as real && q.Unspent() >= share as real
    ensures ShareOf(m, [q, w]) == share as real && Takes(m, [q, w]) == [share as real, 0.0]
  {
    hide Round, ShareOf, Sum, Excesses, WorkerGives;
    ShareBesideTwo(m, q, w, share);
    EndedOfTwo(q, w);
  }

  lemma EndedOfTwo(q: ExecutorQuota, w: ExecutorQuota)
    requires q.ended && !w.ended
    ensures Sum(EndedUnspents([q, w])[..0]) == 0.0 && Sum(EndedUnspents([q, w])[..2]) == q.Unspent()
  {
    SumPrefix(EndedUnspents([q, w]), 0);
    SumPrefix(EndedUnspents([q, w]), 1);
  }

  const LADDER := [Stage(100.0, 0.0, 0.0)]

  /** A budget of ten hours in one stage, with the platform's own burst fraction. */
  function Ten(m: Rounding): Config { Config(m, 10.0, LADDER, 2.0, 0.0) }

  const FIRST := Participant("a", true, TierGuaranteed, 0.0)

  /** The row of an executor with nothing used. */
  function Idle(agent: string, guaranteed: real, burst: real, stopped: bool): Row {
    Row(agent, true, TierGuaranteed, guaranteed, burst, TierUse(0.0, 0.0, []), TierUse(0.0, 0.0, []),
        false, stopped, false, 0.0, 0.0, 0.0, 0.0, NO_WATCH)
  }

  lemma TenIsValid(m: Rounding)
    ensures ValidConfig(Ten(m)) && Startable([FIRST]) && Released(Ten(m), 1) == 10.0
  {
    assert Lengths(LADDER) == [] + [100.0];
    SumAppend([], 100.0);
    assert Lengths(LADDER)[..1] == Lengths(LADDER);
    assert Bonuses([FIRST]) == [] + [0.0];
    SumAppend([], 0.0);
  }

  lemma BurstOfWhole(m: Rounding, share: int)
    requires share >= 0
    ensures AllocateBurst(m, share as real, 2.0) == (2 * share) as real
  {
    assert Product(share as real, 2.0) == (2 * share) as real;
    RoundWhole(m, 2 * share);
  }

  lemma StartTen(m: Rounding)
    ensures Start(Ten(m), [FIRST]).stage == 1 && Start(Ten(m), [FIRST]).rows == [Idle("a", 10.0, 20.0, false)]
  {
    assert Bonuses([FIRST]) == [] + [0.0];
    SumAppend([], 0.0);
    assert Unrounded(10.0, 1, 0.0, 0.0) == 10.0;
    assert Product(10.0, LADDER[0].ReleaseFrac()) == 10.0;
    RoundWhole(m, 10);
    BurstOfWhole(m, 10);
    assert StartShares(Ten(m), [FIRST])[0] == 10.0;
  }

  lemma NothingUsed(u: TierUse)
    requires Unused(u)
    ensures u.Used() == 0.0 && u.Seen() == 0.0
  {
    assert u.Holds() == [] && u.Seens() == [];
  }

  lemma IdleQuota(agent: string, guaranteed: real, burst: real, stopped: bool)
    requires guaranteed >= 0.0 && burst >= 0.0
    ensures var q := Idle(agent, guaranteed, burst, stopped).AsExecutorQuota();
            q == ExecutorQuota(agent, guaranteed, burst, 0.0, stopped)
            && q.Unspent() == if guaranteed > 0.0 then guaranteed else burst
  {
    var r := Idle(agent, guaranteed, burst, stopped);
    NothingUsed(r.useG);
    NothingUsed(r.useB);
  }

  lemma EligibleOne(r: Row)
    requires r.Competes()
    ensures Eligible([r]) == [r.AsExecutorQuota()]
  {
    assert [r][..0] == [];
  }

  lemma EligibleTwo(r: Row, s: Row)
    requires r.Competes() && s.Competes()
    ensures Eligible([r, s]) == [r.AsExecutorQuota(), s.AsExecutorQuota()]
  {
    assert [r, s][..1] == [r];
    EligibleOne(r);
  }

  /** What is taken of an executor with nothing used leaves its hours less that. */
  lemma IdleTaken(agent: string, guaranteed: real, burst: real, stopped: bool, amount: real)
    requires burst >= 0.0 && 0.0 <= amount <= if guaranteed > 0.0 then guaranteed else burst
    requires guaranteed >= 0.0
    ensures Taken(Idle(agent, guaranteed, burst, stopped), amount) ==
            if guaranteed > 0.0 then Idle(agent, guaranteed - amount, burst, stopped)
            else Idle(agent, guaranteed, burst - amount, stopped)
  {
    var r := Idle(agent, guaranteed, burst, stopped);
    hide TierUse.Used;
    NothingUsed(r.useG);
    NothingUsed(r.useB);
  }

  /** The first join takes the last guaranteed hour of the idle executor, whose burst hours become
      its share. */
  lemma FirstJoin(m: Rounding, run: Run)
    requires run.rows == [Idle("a", 10.0, 20.0, true)]
    ensures Join(Ten(m), run, "b", TierGuaranteed).rows == [Idle("a", 0.0, 20.0, true), Idle("b", 10.0, 20.0, false)]
  {
    var a := Idle("a", 10.0, 20.0, true);
    hide Row.AsExecutorQuota, Eligible, ShareOf, Takes, Workers, AllocateBurst, Taken, DrainGain;
    IdleTaken("a", 10.0, 20.0, true, 10.0);
    IdleQuota("a", 10.0, 20.0, true);
    EligibleOne(a);
    AfterOneEnded(m, a.AsExecutorQuota(), 10);
    assert run.rows[..0] == [] && |Eligible([])| == 0 by { EligibleNone(); }
    assert TakeAt(m, run.rows, 0) == 10.0;
    BurstOfWhole(m, 10);
  }

  lemma EligibleNone()
    ensures Eligible([]) == []
  {
  }

  /** The second join takes its share from those burst hours. */
  lemma SecondJoin(m: Rounding, run: Run)
    requires run.rows == [Idle("a", 0.0, 20.0, true), Idle("b", 10.0, 20.0, false)]
    ensures Join(Ten(m), run, "c", TierGuaranteed).rows
         == [Idle("a", 0.0, 5.0, true), Idle("b", 10.0, 20.0, false), Idle("c", 15.0, 30.0, false)]
  {
    var a, b := Idle("a", 0.0, 20.0, true), Idle("b", 10.0, 20.0, false);
    hide Row.AsExecutorQuota, Eligible, ShareOf, Takes, Workers, AllocateBurst, Taken, DrainGain;
    IdleTaken("a", 0.0, 20.0, true, 15.0);
    IdleTaken("b", 10.0, 20.0, false, 0.0);
    IdleQuota("a", 0.0, 20.0, true);
    IdleQuota("b", 10.0, 20.0, false);
    EligibleOne(a);
    EligibleTwo(a, b);
    AfterEndedAndWorking(m, a.AsExecutorQuota(), b.AsExecutorQuota(), 15);
    EligibleNone();
    assert run.rows[..0] == [] && run.rows[..1] == [a];
    assert TakeAt(m, run.rows, 0) == 15.0 && TakeAt(m, run.rows, 1) == 0.0;
    BurstOfWhole(m, 15);
  }

  /** An executor with nothing used reserves its whole share for a job of an hour, which runs it. */
  function Busy(r: Row): Row {
    Observe(Reserve(r, CapacityGuaranteed, r.guaranteed, 1.0), CapacityGuaranteed, 0, 1.0)
  }

  lemma BusySpends(agent: string, guaranteed: real, burst: real)
    requires guaranteed > 0.0
    ensures var r := Busy(Idle(agent, guaranteed, burst, false));
            r.Spent() == guaranteed && r.Overrun() == 0.0 && r.stray == 0.0 && Passed(r) == 0.0
  {
    var r := Idle(agent, guaranteed, burst, false);
    hide TierUse.Used, RatedCost;
    NothingUsed(r.useG);
    NothingUsed(r.useB);
    var job := Job(guaranteed, 1.0, 1.0, true);
    WholeJob(guaranteed);
    assert r.Q().Remaining(CapacityGuaranteed) == guaranteed;
    var busy := Busy(r);
    assert busy.useG.jobs == [job];
    assert busy.useG.Costs() == [] + [guaranteed] && busy.useG.Overruns() == [] + [0.0];
    SumAppend([], guaranteed);
    SumAppend([], 0.0);
    assert busy.useB.Costs() == [] && busy.useB.Overruns() == [];
  }

  lemma WholeJob(hold: real)
    ensures RatedCost(1.0, hold, 1.0) == hold
  {
  }

  /** The one executor stops before any job, and two more join. */
  const JOINS := [DoStop(0), DoJoin("b", TierGuaranteed), DoJoin("c", TierGuaranteed)]

  /** Each of the two runs one job of its whole share, for as long as estimated. */
  const WORK := [DoReserve(1, CapacityGuaranteed, 10.0, 1.0), DoObserve(1, CapacityGuaranteed, 0, 1.0),
                 DoReserve(2, CapacityGuaranteed, 15.0, 1.0), DoObserve(2, CapacityGuaranteed, 0, 1.0)]

  lemma AfterStep(c: Config, run: Run, steps: seq<Step>, k: nat)
    requires k < |steps|
    ensures After(c, run, steps[..k + 1]) == Next(c, After(c, run, steps[..k]), steps[k])
  {
    assert steps[..k + 1][..k] == steps[..k];
  }

  lemma AfterJoins(m: Rounding, start: Run)
    requires start.stage == 1 && start.rows == [Idle("a", 10.0, 20.0, false)]
    ensures var run := After(Ten(m), start, JOINS);
            run.stage == 1 && run.rows ==
              [Idle("a", 0.0, 5.0, true), Idle("b", 10.0, 20.0, false), Idle("c", 15.0, 30.0, false)]
  {
    hide After, Join, Idle, Next, Ten;
    var c := Ten(m);
    var r1, r2 := After(c, start, JOINS[..1]), After(c, start, JOINS[..2]);
    AfterStop(c, start);
    AfterStep(c, start, JOINS, 1);
    NextJoin(c, r1, "b");
    FirstJoin(m, r1);
    AfterStep(c, start, JOINS, 2);
    NextJoin(c, r2, "c");
    SecondJoin(m, r2);
    assert JOINS[..3] == JOINS;
  }

  lemma AfterStop(c: Config, start: Run)
    requires start.rows == [Idle("a", 10.0, 20.0, false)]
    ensures var run := After(c, start, JOINS[..1]);
            run.stage == start.stage && run.rows == [Idle("a", 10.0, 20.0, true)]
  {
    hide After;
    AfterNone(c, start, JOINS);
    AfterStep(c, start, JOINS, 0);
  }

  lemma NextJoin(c: Config, run: Run, agent: string)
    ensures Next(c, run, DoJoin(agent, TierGuaranteed)) == Join(c, run, agent, TierGuaranteed)
    ensures Join(c, run, agent, TierGuaranteed).stage == run.stage
  {
    hide Eligible, ShareOf, AfterTakes, DrainGains, NewRow, Workers, Named;
  }

  lemma AfterNone(c: Config, run: Run, steps: seq<Step>)
    ensures After(c, run, steps[..0]) == run
  {
  }

  lemma AfterWork(m: Rounding, run: Run)
    requires run.stage == 1 && |run.rows| == 3
    requires run.rows[1].guaranteed == 10.0 && run.rows[2].guaranteed == 15.0
    ensures var end := After(Ten(m), run, WORK);
            end.stage == 1 && end.rows == [run.rows[0], Busy(run.rows[1]), Busy(run.rows[2])]
  {
    var c := Ten(m);
    hide After, Reserve, Observe;
    AfterNone(c, run, WORK);
    AfterStep(c, run, WORK, 0);
    AfterStep(c, run, WORK, 1);
    AfterStep(c, run, WORK, 2);
    AfterStep(c, run, WORK, 3);
    assert WORK[..4] == WORK;
    var x := Reserve(run.rows[1], CapacityGuaranteed, 10.0, 1.0);
    var r1, r2 := After(c, run, WORK[..1]), After(c, run, WORK[..2]);
    assert r1.rows == [run.rows[0], x, run.rows[2]];
    assert r2.rows == [run.rows[0], Busy(run.rows[1]), run.rows[2]];
  }

  /** The budget is no cap: with a budget of ten hours all released, agents whose jobs were all
      admitted, none of which overran, and none of whom passed its share spend twenty-five. */
  lemma BudgetIsNoCap(m: Rounding)
    ensures ValidConfig(Ten(m)) && Startable([FIRST])
    ensures var run := After(Ten(m), After(Ten(m), Start(Ten(m), [FIRST]), JOINS), WORK);
            Released(Ten(m), run.stage) == 10.0 && Sum(Spents(run.rows)) == 25.0
            && Sum(Overruns(run.rows)) == 0.0 && Sum(Strays(run.rows)) == 0.0 && Sum(Passeds(run.rows)) == 0.0
  {
    TenIsValid(m);
    StartTen(m);
    SpendsTwentyFive(m, Start(Ten(m), [FIRST]));
  }

  lemma SpendsTwentyFive(m: Rounding, start: Run)
    requires start.stage == 1 && start.rows == [Idle("a", 10.0, 20.0, false)]
    ensures var run := After(Ten(m), After(Ten(m), start, JOINS), WORK);
            run.stage == 1 && Sum(Spents(run.rows)) == 25.0
            && Sum(Overruns(run.rows)) == 0.0 && Sum(Strays(run.rows)) == 0.0 && Sum(Passeds(run.rows)) == 0.0
  {
    hide After, Busy, Row.Spent, Row.Overrun, Passed;
    AfterJoins(m, start);
    var mid := After(Ten(m), start, JOINS);
    AfterWork(m, mid);
    var run := After(Ten(m), mid, WORK);
    IdleSpends("a", 0.0, 5.0, true);
    BusySpends("b", 10.0, 20.0);
    BusySpends("c", 15.0, 30.0);
    SumOfThree(Spents(run.rows), 0.0, 10.0, 15.0);
    SumOfThree(Overruns(run.rows), 0.0, 0.0, 0.0);
    SumOfThree(Strays(run.rows), 0.0, 0.0, 0.0);
    SumOfThree(Passeds(run.rows), 0.0, 0.0, 0.0);
  }

  lemma IdleSpends(agent: string, guaranteed: real, burst: real, stopped: bool)
    requires guaranteed >= 0.0 && burst >= 0.0
    ensures var r := Idle(agent, guaranteed, burst, stopped); r.Spent() == 0.0 && r.Overrun() == 0.0
    ensures var r := Idle(agent, guaranteed, burst, stopped); r.stray == 0.0 && Passed(r) == 0.0
  {
    var r := Idle(agent, guaranteed, burst, stopped);
    NothingSpent(r.useG);
    NothingSpent(r.useB);
  }

  lemma NothingSpent(u: TierUse)
    requires Unused(u)
    ensures u.Observed() == 0.0 && u.Overrun() == 0.0
  {
    assert u.Costs() == [] && u.Overruns() == [];
  }

  lemma SumOfThree(xs: seq<real>, x: real, y: real, z: real)
    requires |xs| == 3 && xs[0] == x && xs[1] == y && xs[2] == z
    ensures Sum(xs) == x + y + z
  {
    assert xs == [] + [x] + [y] + [z];
    SumAppend([], x);
    SumAppend([] + [x], y);
    SumAppend([] + [x] + [y], z);
  }
}
