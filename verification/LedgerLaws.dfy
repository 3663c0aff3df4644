/** What holds of every run of the ledger, and exactly which steps break what is promised of it. */
module LedgerLaws {
  import opened Hours
  import opened Sums
  import opened Credits
  import opened Quota
  import opened Stages
  import opened LedgerRows
  import opened Ledger

  function Spents(rows: seq<Row>): seq<real> {
    seq(|rows|, i requires 0 <= i < |rows| => rows[i].Spent())
  }

  function Strays(rows: seq<Row>): seq<real> {
    seq(|rows|, i requires 0 <= i < |rows| => rows[i].stray)
  }

  function Overtakens(rows: seq<Row>): seq<real> {
    seq(|rows|, i requires 0 <= i < |rows| => rows[i].overtaken)
  }

  function Overruns(rows: seq<Row>): seq<real> {
    seq(|rows|, i requires 0 <= i < |rows| => rows[i].Overrun())
  }

  /** What the rows hold as the platform reads it: a live agent's share, and of a cut agent what the
      boundary did not hand on. */
  function Holdings(rows: seq<Row>): seq<real> {
    seq(|rows|, i requires 0 <= i < |rows| => if rows[i].cut then rows[i].kept else rows[i].Share())
  }

  function Drift(c: Config, run: Run): real { Times(run.roundings, Delta(c.m)) }

  /** In every run, of any agents and any steps, the accounts balance with what was released, to
      one rounding error for each rounding: exactly, without rounding. */
  lemma EveryRunBalances(c: Config, ps: seq<Participant>, steps: seq<Step>)
    requires ValidConfig(c) && Startable(ps)
    ensures Inv(c, After(c, Start(c, ps), steps))
  {
    hide Inv, Start, After;
    StartKeepsInv(c, ps);
    AfterKeepsInv(c, Start(c, ps), steps);
  }

  /** In every run what all agents spent, live and cut, is at most what was released, the burst hours
      joins turned into shares, the burst hours of cut agents the boundary did not count, the hours
      joins took of running jobs' holds, what jobs overran their estimates, and the drift; and what
      was released is at most the budget, and a hundred-thousandth of it besides. */
  lemma EveryRunSpendsWithin(c: Config, ps: seq<Participant>, steps: seq<Step>)
    requires ValidConfig(c) && Startable(ps)
    ensures var run := After(c, Start(c, ps), steps);
            && Sum(Spents(run.rows)) <= Released(c, run.stage) + run.drained + Sum(Strays(run.rows))
                                      + Sum(Overtakens(run.rows)) + Sum(Overruns(run.rows)) + Drift(c, run)
            && Released(c, run.stage) <= Product(c.budget, 1.00001)
  {
    hide Start, After;
    EveryRunBalances(c, ps, steps);
    var run := After(c, Start(c, ps), steps);
    RowsSpendWithin(run.rows);
    ReleasedAtMostBudget(c, run.stage);
  }

  lemma RowsSpendWithin(rows: seq<Row>)
    requires forall i :: 0 <= i < |rows| ==> Sound(rows[i])
    ensures Sum(Spents(rows)) <= Sum(Accounts(rows)) + Sum(Strays(rows)) + Sum(Overtakens(rows)) + Sum(Overruns(rows))
  {
    hide Sound, Row.Spent, Row.Account, Row.Overrun, Sum;
    var n := |rows|;
    var two := seq(n, i requires 0 <= i < n => Accounts(rows)[i] + Strays(rows)[i]);
    var three := seq(n, i requires 0 <= i < n => two[i] + Overtakens(rows)[i]);
    var four := seq(n, i requires 0 <= i < n => three[i] + Overruns(rows)[i]);
    forall i | 0 <= i < n
      ensures Spents(rows)[i] <= four[i]
    {
      SpentWithinAccount(rows[i]);
      assert Accounts(rows)[i] == rows[i].Account() && Strays(rows)[i] == rows[i].stray;
      assert Overtakens(rows)[i] == rows[i].overtaken && Overruns(rows)[i] == rows[i].Overrun();
      assert three[i] == rows[i].Account() + rows[i].stray + rows[i].overtaken;
    }
    SumAdd(Accounts(rows), Strays(rows), two);
    SumAdd(two, Overtakens(rows), three);
    SumAdd(three, Overruns(rows), four);
    SumLe(Spents(rows), four);
  }

  lemma ReleasedAtMostBudget(c: Config, stage: nat)
    requires ValidConfig(c) && stage <= |c.stages|
    ensures Released(c, stage) <= Product(c.budget, 1.00001)
  {
    hide Boundary;
    BoundariesRise(c.stages, stage, |c.stages|);
    MulMonotone(Boundary(c.stages, stage), 1.00001, c.budget);
  }

  /** In a run, settling a job of an agent that was not cut changes what that agent spent by the bill
      alone, and nothing of any other: not refunded, it spent what it had; refunded, less by the cost. */
  lemma SettleSpends(c: Config, run: Run, row: nat, tier: CapacityTier, k: nat, refunded: bool, i: nat)
    requires Inv(c, run) && i < |run.rows| && row < |run.rows|
    requires !run.rows[row].cut && k < |UseOf(run.rows[row], tier).jobs|
    ensures |Next(c, run, DoSettle(row, tier, k, refunded)).rows| == |run.rows|
    ensures var r, after := run.rows[i], Next(c, run, DoSettle(row, tier, k, refunded)).rows[i];
            if i != row then after == r
            else after.Spent() == r.Spent() - (if refunded then UseOf(r, tier).jobs[k].Cost() else 0.0)
                 && UseOf(after, tier).jobs == UseOf(r, tier).jobs[..k] + UseOf(r, tier).jobs[k + 1..]
  {
    hide Balanced, Distinct, TierUse.Settle, TierUse.Observed, TierUse.Used, TierUse.Overrun, TierUse.Valid, Job.Cost, Job.Overrun;
    SettleBills(UseOf(run.rows[row], tier), k, refunded);
  }

  // ----- when the shares sum to the budget released ---------------------------------------------

  /** A join drains the row at i: a guaranteed executor with burst hours that ended having used
      nothing, whose hours the share still needs all of after the ended ones before it. All of it
      can be read before the join. */
  ghost predicate Drains(c: Config, run: Run, i: nat)
    requires i < |run.rows|
  {
    var r, qs, k := run.rows[i], Eligible(run.rows), |Eligible(run.rows[..i])|;
    && r.Competes() && k <= |qs|
    && r.guaranteed > 0.0 && r.burst > 0.0 && r.Ended() && r.Seen() == 0.0
    && r.guaranteed + Sum(EndedUnspents(qs)[..k]) <= ShareOf(c.m, qs)
  }

  /** A join is accepted: the agent is new, and the share it would be given is one worth giving. */
  ghost predicate Accepts(c: Config, run: Run, agent: string) {
    var share := ShareOf(c.m, Eligible(run.rows));
    !Named(run.rows, agent) && share > 0.0 && share >= c.minShare
  }

  ghost predicate StepDrains(c: Config, run: Run, step: Step) {
    step.DoJoin? && Accepts(c, run, step.agent) && exists i :: 0 <= i < |run.rows| && Drains(c, run, i)
  }

  lemma DrainsExactly(c: Config, run: Run, i: nat)
    requires Inv(c, run) && i < |run.rows|
    ensures DrainGains(c.m, run.rows)[i] >= 0.0
    ensures DrainGains(c.m, run.rows)[i] > 0.0 <==> Drains(c, run, i)
  {
    var r, qs, k := run.rows[i], Eligible(run.rows), |Eligible(run.rows[..i])|;
    hide Takes, Balanced, ShareOf, EndedUnspents, TierUse.Used, TierUse.Seen, TierUse.Valid;
    SeenBounds(r.useG);
    SeenBounds(r.useB);
    EligiblePlace(run.rows, i);
    if r.Competes() && r.guaranteed > 0.0 {
      DrainedExactly(c.m, qs, k);
    }
  }

  /** One step adds to what was drained exactly when it is a join that drains some row, and never
      takes from it. */
  lemma NextDrains(c: Config, run: Run, step: Step)
    requires ValidConfig(c) && Inv(c, run)
    ensures Next(c, run, step).drained >= run.drained
    ensures Next(c, run, step).drained > run.drained <==> StepDrains(c, run, step)
  {
    hide Inv, Drains, DrainGain, ShareOf, Eligible, TakeAt, NewRow, Advance, StepRow, Named, Workers;
    assert step.DoAdvance? ==> Next(c, run, step).drained == run.drained by { AdvanceDrainsNothing(c, run, step); }
    if step.DoJoin? && Accepts(c, run, step.agent) {
      var gains := DrainGains(c.m, run.rows);
      forall i | 0 <= i < |run.rows|
        ensures gains[i] >= 0.0 && (gains[i] > 0.0 <==> Drains(c, run, i))
      {
        DrainsExactly(c, run, i);
      }
      SumNonNegative(gains);
      if forall i :: 0 <= i < |gains| ==> gains[i] == 0.0 {
        SumLe(gains, seq(|gains|, i => 0.0));
        SumZero(|gains|);
      }
    }
  }

  lemma AdvanceDrainsNothing(c: Config, run: Run, step: Step)
    ensures step.DoAdvance? ==> Next(c, run, step).drained == run.drained
  {
  }

  lemma {:induction false} SumZero(n: nat)
    ensures Sum(seq(n, i => 0.0)) == 0.0
  {
    if n > 0 {
      assert seq(n, i => 0.0)[..n - 1] == seq(n - 1, i => 0.0);
      SumZero(n - 1);
    }
  }

  // ----- when a join takes hours that jobs hold -------------------------------------------------

  /** A join takes hours that the jobs of the row at i hold. All of it is read before the join: what
      the join counts of the row against what admission does, and against what is free of it, for an
      ended agent, what the share needs after those before it, and for one at work, what it gives of
      its excess over the share. */
  ghost predicate TakesHeld(c: Config, run: Run, i: nat)
    requires i < |run.rows|
  {
    var r, qs, k := run.rows[i], Eligible(run.rows), |Eligible(run.rows[..i])|;
    var share, free := ShareOf(c.m, qs), Max(0.0, r.Share() - r.Q().Used());
    && r.Competes() && k < |qs| && r.Seen() < r.Q().Used() && r.Seen() < r.Share()
    && if r.Ended() then share - Sum(EndedUnspents(qs)[..k]) > free
       else
         var need, above, excess := Need(share, qs, |qs|), Sum(Excesses(qs, share)), r.Share() - r.Seen() - share;
         need > 0.0 && above > 0.0 && excess > 0.0 && WorkerGives(c.m, excess, need, above) > free
  }

  lemma TakesHeldExactly(c: Config, run: Run, i: nat)
    requires i < |run.rows|
    ensures TakesHeld(c, run, i) <==> Overtake(run.rows[i], TakeAt(c.m, run.rows, i)) > 0.0
  {
    hide ShareOf, EndedUnspents, Excesses, Sum, WorkerGives, Eligible, TierUse.Seen, TierUse.Used;
    if run.rows[i].Competes() {
      EligiblePlace(run.rows, i);
      TakeAtFits(c.m, run.rows, i);
    }
  }

  /** What joins took of a row's holds never falls, and grows exactly by an accepted join that takes
      hours the row's jobs hold. */
  lemma NextOvertakes(c: Config, run: Run, step: Step, i: nat)
    requires i < |run.rows|
    ensures |Next(c, run, step).rows| >= |run.rows|
    ensures var before, after := run.rows[i].overtaken, Next(c, run, step).rows[i].overtaken;
            && after >= before
            && (after > before <==> step.DoJoin? && Accepts(c, run, step.agent) && TakesHeld(c, run, i))
  {
    hide ShareOf, Eligible, TakeAt, DrainGain, NewRow, Workers, Named, BoundaryCredit, StepRow, Across, Count, Product, Row.Share,
         Row.Q, TakesHeld;
    match step
    case DoJoin(_, _) => TakesHeldExactly(c, run, i);
    case DoAdvance(cut) => if run.stage < |c.stages| { AcrossOvertakesNothing(run.rows[i], cut, BoundaryCredit(c, run, cut)); }
    case _ => StepOvertakesNothing(run.rows[i], step);
  }

  lemma AcrossOvertakesNothing(r: Row, cut: set<string>, credit: real)
    ensures Across(r, cut, credit).overtaken == r.overtaken
  {
  }

  lemma StepOvertakesNothing(r: Row, step: Step)
    ensures StepRow(r, step).overtaken == r.overtaken
  {
    hide TierUse.Reserve, TierUse.Observe, TierUse.Settle, AgentQuota.Remaining, Row.Q, TierUse.SettleAll, TierUse.Observed, Exhausts;
  }

  // ----- runs in which the shares sum -----------------------------------------------------------

  /** No row reads as its share hours that no budget backs. */
  ghost predicate Backed(r: Row) { r.lost == 0.0 && (!r.cut ==> !r.Collapsed()) }

  ghost predicate Clean(run: Run) {
    run.drained == 0.0 && forall i :: 0 <= i < |run.rows| ==> Backed(run.rows[i])
  }

  lemma StartClean(c: Config, ps: seq<Participant>)
    requires ValidConfig(c) && Startable(ps)
    ensures Clean(Start(c, ps))
  {
    hide Row.Collapsed, StartShares;
    forall i | 0 <= i < |ps|
      ensures Backed(Start(c, ps).rows[i])
    {
      StartSharesNonNegative(c, ps, i);
      NewRowSound(c, ps[i], StartShares(c, ps)[i]);
    }
  }

  lemma NextClean(c: Config, run: Run, step: Step)
    requires ValidConfig(c) && Inv(c, run) && Clean(run) && !StepDrains(c, run, step)
    ensures Clean(Next(c, run, step))
  {
    hide Inv, StepDrains, StepRow, Join, Advance, Backed;
    NextDrains(c, run, step);
    match step
    case DoJoin(agent, tier) =>
      JoinClean(c, run, agent, tier);
    case DoAdvance(cut) =>
      AdvanceClean(c, run, cut);
    case _ =>
      if step.row < |run.rows| {
        StepRowClean(run.rows[step.row], step);
      }
  }

  lemma StepRowClean(r: Row, step: Step)
    requires Backed(r)
    ensures Backed(StepRow(r, step))
  {
  }

  lemma JoinClean(c: Config, run: Run, agent: string, tier: QuotaTier)
    requires ValidConfig(c) && Inv(c, run) && Clean(run) && Join(c, run, agent, tier).drained == 0.0
    ensures forall i :: 0 <= i < |Join(c, run, agent, tier).rows| ==> Backed(Join(c, run, agent, tier).rows[i])
  {
    hide Balanced, ShareOf, Eligible, TakeAt, Taken, DrainGain, Backed, NewRow, Workers, Named, Sound;
    var share := ShareOf(c.m, Eligible(run.rows));
    if Accepts(c, run, agent) {
      var p := Participant(agent, true, tier, 0.0);
      NewRowBacked(c, p, share);
      assert Sum(DrainGains(c.m, run.rows)) == 0.0;
      forall i | 0 <= i < |run.rows|
        ensures Backed(AfterTakes(c.m, run.rows)[i])
      {
        NoGain(c, run, i);
        TakenClean(c.m, run.rows, i);
      }
    }
  }

  lemma NoGain(c: Config, run: Run, i: nat)
    requires Inv(c, run) && i < |run.rows| && Sum(DrainGains(c.m, run.rows)) == 0.0
    ensures DrainGain(run.rows[i], TakeAt(c.m, run.rows, i)) == 0.0
  {
    hide Balanced, TakeAt, Taken, DrainGain, Sound, Row.Account;
    var gains := DrainGains(c.m, run.rows);
    forall j | 0 <= j < |run.rows|
      ensures gains[j] >= 0.0
    {
      TakenAt(c.m, run.rows, j);
    }
    SumNonNegative(gains);
    assert gains[i] <= 0.0;
  }

  lemma NewRowBacked(c: Config, p: Participant, share: real)
    requires share >= 0.0 && c.burstFraction > 0.0
    ensures Backed(NewRow(c, p, share))
  {
    hide Row.Collapsed;
    NewRowSound(c, p, share);
  }

  lemma TakenClean(m: Rounding, rows: seq<Row>, i: nat)
    requires i < |rows| && Sound(rows[i]) && Backed(rows[i]) && DrainGain(rows[i], TakeAt(m, rows, i)) == 0.0
    ensures Backed(AfterTakes(m, rows)[i])
  {
    hide TakeAt;
    var r, take := rows[i], TakeAt(m, rows, i);
    if r.cut {
      TakeAtCut(m, rows, i);
    } else {
      TakeAtFits(m, rows, i);
      UnspentWithinShare(r);
    }
  }

  lemma AdvanceClean(c: Config, run: Run, cut: set<string>)
    requires Clean(run) && Inv(c, run)
    ensures forall i :: 0 <= i < |Advance(c, run, cut).rows| ==> Backed(Advance(c, run, cut).rows[i])
  {
    hide Balanced, BoundaryCredit, Across, Backed, Count, Product;
    if run.stage < |c.stages| {
      forall i | 0 <= i < |run.rows|
        ensures Backed(Across(run.rows[i], cut, BoundaryCredit(c, run, cut)))
      {
        AcrossClean(run.rows[i], cut, BoundaryCredit(c, run, cut));
      }
    }
  }

  lemma AcrossClean(r: Row, cut: set<string>, credit: real)
    requires Sound(r) && Backed(r)
    ensures Backed(Across(r, cut, credit))
  {
  }

  /** A run none of whose steps drains. */
  ghost predicate NeverDrains(c: Config, run: Run, steps: seq<Step>) {
    forall k :: 0 <= k < |steps| ==> !StepDrains(c, After(c, run, steps[..k]), steps[k])
  }

  lemma {:induction false} AfterClean(c: Config, run: Run, steps: seq<Step>)
    requires ValidConfig(c) && Inv(c, run) && Clean(run) && NeverDrains(c, run, steps)
    ensures Clean(After(c, run, steps))
  {
    hide Inv, StepDrains, Clean, Next;
    if |steps| > 0 {
      var n := |steps| - 1;
      assert forall k :: 0 <= k < n ==> steps[..n][..k] == steps[..k];
      AfterClean(c, run, steps[..n]);
      AfterKeepsInv(c, run, steps[..n]);
      assert !StepDrains(c, After(c, run, steps[..n]), steps[n]);
      NextClean(c, After(c, run, steps[..n]), steps[n]);
    }
  }

  /** The shares of a run sum to the budget released so far, with what cut agents kept and what
      was withheld, to the drift, in every run none of whose joins drains a row. */
  lemma SharesSumToReleased(c: Config, ps: seq<Participant>, steps: seq<Step>)
    requires ValidConfig(c) && Startable(ps) && NeverDrains(c, Start(c, ps), steps)
    ensures var run := After(c, Start(c, ps), steps);
            Abs(Sum(Holdings(run.rows)) + run.withheld - Released(c, run.stage)) <= Drift(c, run)
  {
    hide Start, After, NeverDrains, Row.Collapsed, Row.Account, Row.Share, Released, Times, Delta, Sound, Holdings, Accounts;
    StartKeepsInv(c, ps);
    StartClean(c, ps);
    AfterClean(c, Start(c, ps), steps);
    EveryRunBalances(c, ps, steps);
    var run := After(c, Start(c, ps), steps);
    CleanHoldings(run.rows);
  }

  lemma CleanHoldings(rows: seq<Row>)
    requires forall i :: 0 <= i < |rows| ==> rows[i].lost == 0.0
    ensures Holdings(rows) == Accounts(rows)
  {
  }

  /** Nothing is lost in the step after a clean run, whatever it drains. */
  lemma NextLosesNothing(c: Config, run: Run, step: Step)
    requires ValidConfig(c) && Inv(c, run) && Clean(run)
    ensures forall i :: 0 <= i < |Next(c, run, step).rows| ==> Next(c, run, step).rows[i].lost == 0.0
  {
    hide Inv, StepDrains, Join, Advance, StepRow, Row.Collapsed;
    if step.DoJoin? {
      JoinLosesNothing(c, run, step.agent, step.quotaTier);
    } else {
      NotAJoin(c, run, step);
      NextClean(c, run, step);
    }
  }

  lemma NotAJoin(c: Config, run: Run, step: Step)
    requires !step.DoJoin?
    ensures !StepDrains(c, run, step)
  {
  }

  lemma JoinLosesNothing(c: Config, run: Run, agent: string, tier: QuotaTier)
    requires forall i :: 0 <= i < |run.rows| ==> run.rows[i].lost == 0.0
    ensures var rows := Join(c, run, agent, tier).rows; forall i :: 0 <= i < |rows| ==> rows[i].lost == 0.0
  {
    hide ShareOf, Eligible, TakeAt, DrainGain, Workers, Named, AllocateBurst;
  }

  /** Where a draining join starts: without rounding, a join after a clean run leaves the shares
      summing to the budget released exactly when it drains nobody. */
  lemma JoinConservesExactly(c: Config, ps: seq<Participant>, steps: seq<Step>, step: Step)
    requires ValidConfig(c) && Startable(ps) && c.m.Exact? && NeverDrains(c, Start(c, ps), steps)
    ensures var run := Next(c, After(c, Start(c, ps), steps), step);
            Sum(Holdings(run.rows)) + run.withheld == Released(c, run.stage) <==>
            !StepDrains(c, After(c, Start(c, ps), steps), step)
  {
    hide Start, After, NeverDrains, StepDrains, Next;
    StartKeepsInv(c, ps);
    StartClean(c, ps);
    AfterClean(c, Start(c, ps), steps);
    EveryRunBalances(c, ps, steps);
    var run := After(c, Start(c, ps), steps);
    NextKeepsInv(c, run, step);
    NextDrains(c, run, step);
    NextLosesNothing(c, run, step);
    CleanHoldings(Next(c, run, step).rows);
    NothingTimes(run.roundings);
    NothingTimes(Next(c, run, step).roundings);
  }

  lemma {:induction false} NothingTimes(n: nat)
    ensures Times(n, 0.0) == 0.0
  {
    if n > 0 { NothingTimes(n - 1); }
  }

  // ----- when a boundary hands on what is unspent -----------------------------------------------

  /** What a cut agent spent in the column the boundary does not measure. */
  function Unmeasured(r: Row): real { r.Spent() - Measured(r).1 }

  /** The boundary hands on what a cut agent left unspent of its share exactly when the agent spent
      nothing in the other column or all of the one that is measured, and otherwise hands spent hours
      on again. Of an agent whose share is burst hours a join left it (Collapsed) it hands on nothing,
      which is right exactly when they are spent. */
  lemma BoundaryReturnsUnspent(r: Row)
    requires Sound(r) && !r.cut
    ensures Returned(r) == Max(0.0, r.Share() - r.Spent()) <==>
            if r.Collapsed() then r.Spent() >= r.Share() else Unmeasured(r) == 0.0 || Measured(r).1 >= r.Share()
    ensures if r.Collapsed() then Returned(r) == 0.0 else Returned(r) >= Max(0.0, r.Share() - r.Spent())
  {
    hide TierUse.Used, TierUse.Valid, TierUse.Observed, TierUse.Overrun;
    UseBounds(r.useG);
    UseBounds(r.useB);
  }
}
