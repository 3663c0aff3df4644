/** The cap the quota check puts on what every run spends. */
module LedgerCap {
  import opened Hours
  import opened Sums
  import opened Credits
  import opened Quota
  import opened Stages
  import opened LedgerRows
  import opened Ledger
  import opened LedgerLaws
  import opened LedgerWatch

  ghost predicate AllWatched(rows: seq<Row>) { forall i :: 0 <= i < |rows| ==> Watched(rows[i]) }

  function Passeds(rows: seq<Row>): seq<real> {
    seq(|rows|, i requires 0 <= i < |rows| => Passed(rows[i]))
  }

  // ----- every step -----------------------------------------------------------------------------

  lemma NewRowWatched(c: Config, p: Participant, share: real)
    requires share >= 0.0 && c.burstFraction > 0.0
    ensures Watched(NewRow(c, p, share))
  {
    BurstOfShare(c, share);
    hide AllocateBurst, Watched;
    FreshWatched(NewRow(c, p, share));
  }

  lemma StartWatched(c: Config, ps: seq<Participant>)
    requires ValidConfig(c) && Startable(ps)
    ensures AllWatched(Start(c, ps).rows)
  {
    hide NewRow, StartShares, Watched, Startable;
    forall i | 0 <= i < |ps| ensures Watched(Start(c, ps).rows[i]) {
      StartSharesNonNegative(c, ps, i);
      NewRowWatched(c, ps[i], StartShares(c, ps)[i]);
    }
  }

  lemma StepRowWatched(r: Row, step: Step)
    requires Sound(r) && Watched(r)
    ensures Watched(StepRow(r, step))
  {
    hide Sound, Watched, Reserve, Observe, Settle, Check;
    EndedWatched(r);
    match step
    case DoReserve(_, tier, hold, hours) => ReserveWatched(r, tier, hold, hours);
    case DoObserve(_, tier, job, hours) => ObserveWatched(r, tier, job, hours);
    case DoSettle(_, tier, job, refunded) => SettleWatched(r, tier, job, refunded);
    case DoCheck(_) => CheckWatched(r);
    case _ =>
  }

  lemma EndedWatched(r: Row)
    requires Watched(r)
    ensures Watched(r.(finished := true)) && Watched(r.(stopped := true))
  {
    hide TierUse.Used, TierUse.Observed, Bearing;
  }

  lemma TakenAtWatched(m: Rounding, rows: seq<Row>, i: nat)
    requires i < |rows| && Sound(rows[i]) && Watched(rows[i])
    ensures Watched(AfterTakes(m, rows)[i])
  {
    hide TakeAt, Sound, Watched, Taken;
    if rows[i].cut {
      TakeAtCut(m, rows, i);
      CutUntouched(rows[i]);
    } else {
      TakeAtFits(m, rows, i);
      TakenWatched(rows[i], TakeAt(m, rows, i));
    }
  }

  lemma AcrossWatched(r: Row, cut: set<string>, credit: real)
    requires Sound(r) && Watched(r)
    ensures Watched(Across(r, cut, credit))
  {
    hide Sound, Watched, CutOff, Credited;
    if IsCut(r, cut) {
      CutOffWatched(r);
    } else if Survives(r, cut) && credit > 0.0 {
      CreditedWatched(r, credit);
    }
  }

  lemma NextWatched(c: Config, run: Run, step: Step)
    requires ValidConfig(c) && Inv(c, run) && AllWatched(run.rows)
    ensures AllWatched(Next(c, run, step).rows)
  {
    hide Watched, Sound, Balanced, Distinct, StepRow, Across, ShareOf, Eligible, TakeAt, Taken, DrainGain, NewRow, Workers,
         Named, BoundaryCredit, Count, Product;
    match step
    case DoJoin(agent, tier) =>
      var share := ShareOf(c.m, Eligible(run.rows));
      forall i | 0 <= i < |run.rows| ensures Watched(AfterTakes(c.m, run.rows)[i]) { TakenAtWatched(c.m, run.rows, i); }
      if share > 0.0 { NewRowWatched(c, Participant(agent, true, tier, 0.0), share); }
    case DoAdvance(cut) =>
      if run.stage < |c.stages| {
        forall i | 0 <= i < |run.rows| ensures Watched(Across(run.rows[i], cut, BoundaryCredit(c, run, cut))) {
          AcrossWatched(run.rows[i], cut, BoundaryCredit(c, run, cut));
        }
      }
    case _ =>
      if step.row < |run.rows| { StepRowWatched(run.rows[step.row], step); }
  }

  lemma {:induction false} EveryRunWatched(c: Config, ps: seq<Participant>, steps: seq<Step>)
    requires ValidConfig(c) && Startable(ps)
    ensures Inv(c, After(c, Start(c, ps), steps)) && AllWatched(After(c, Start(c, ps), steps).rows)
  {
    hide Inv, AllWatched, Next, Start;
    EveryRunBalances(c, ps, steps);
    if |steps| == 0 {
      StartWatched(c, ps);
    } else {
      var n := |steps| - 1;
      EveryRunWatched(c, ps, steps[..n]);
      NextWatched(c, After(c, Start(c, ps), steps[..n]), steps[n]);
    }
  }

  // ----- what every run spends ------------------------------------------------------------------

  lemma RowsSpendWithinPassed(rows: seq<Row>)
    requires AllWatched(rows) && forall i :: 0 <= i < |rows| ==> Sound(rows[i])
    ensures Sum(Spents(rows)) <= Sum(Accounts(rows)) + Sum(Strays(rows)) + Sum(Passeds(rows))
    ensures forall i :: 0 <= i < |rows| ==> 0.0 <= Passed(rows[i]) <= rows[i].watch.surge
  {
    hide Sound, Watched, Row.Spent, Row.Account, Passed, Sum;
    var n := |rows|;
    var two := seq(n, i requires 0 <= i < n => Accounts(rows)[i] + Strays(rows)[i]);
    var three := seq(n, i requires 0 <= i < n => two[i] + Passeds(rows)[i]);
    forall i | 0 <= i < n
      ensures Spents(rows)[i] <= three[i] && 0.0 <= Passed(rows[i]) <= rows[i].watch.surge
    {
      SpentWithinPassed(rows[i]);
      assert Accounts(rows)[i] == rows[i].Account() && Strays(rows)[i] == rows[i].stray;
      assert Passeds(rows)[i] == Passed(rows[i]);
    }
    SumAdd(Accounts(rows), Strays(rows), two);
    SumAdd(two, Passeds(rows), three);
    SumLe(Spents(rows), three);
  }

  /** The cap: in every run, whatever its jobs overrun and its joins take of holds, what all agents
      spent is at most what was released, the burst hours joins turned into shares, the burst hours
      of cut agents the boundary did not count, the drift, and what each agent passed its share by,
      which is at most what its jobs cost between two checks of its quota. */
  lemma EveryRunIsCapped(c: Config, ps: seq<Participant>, steps: seq<Step>)
    requires ValidConfig(c) && Startable(ps)
    ensures var run := After(c, Start(c, ps), steps);
            && Sum(Spents(run.rows)) <= Released(c, run.stage) + run.drained + Sum(Strays(run.rows))
                                      + Sum(Passeds(run.rows)) + Drift(c, run)
            && forall i :: 0 <= i < |run.rows| ==> 0.0 <= Passed(run.rows[i]) <= run.rows[i].watch.surge
  {
    hide Start, After, AllWatched, Sound, Sum, Released, Times, Delta;
    EveryRunWatched(c, ps, steps);
    RowsSpendWithinPassed(After(c, Start(c, ps), steps).rows);
  }

  // ----- runs whose agents stay near their shares -----------------------------------------------

  /** After every step, every live agent is within its share, but for so much. */
  ghost predicate StaysWithin(c: Config, run: Run, steps: seq<Step>, slack: real) {
    forall k :: 0 <= k <= |steps| ==> WithinBy(After(c, run, steps[..k]).rows, slack)
  }

  ghost predicate WithinBy(rows: seq<Row>, slack: real) {
    forall i :: 0 <= i < |rows| && !rows[i].cut ==> rows[i].Spent() <= rows[i].Share() + slack
  }

  ghost predicate PassedBy(rows: seq<Row>, slack: real) {
    forall i :: 0 <= i < |rows| ==> Passed(rows[i]) <= slack
  }

  /** Whoever is cut was within its share by as much. */
  lemma NextPassedBy(c: Config, run: Run, step: Step, slack: real)
    requires Inv(c, run) && slack >= 0.0 && WithinBy(run.rows, slack) && PassedBy(run.rows, slack)
    requires WithinBy(Next(c, run, step).rows, slack) && Inv(c, Next(c, run, step))
    ensures PassedBy(Next(c, run, step).rows, slack)
  {
    hide Next, Balanced, Distinct, Sound, Row.Spent, Row.Share, Row.Account;
    var rows := Next(c, run, step).rows;
    forall i | 0 <= i < |rows| ensures Passed(rows[i]) <= slack {
      var r := rows[i];
      if r.cut {
        CutBefore(c, run, step, i);
        LiveAccount(run.rows[i]);
      } else {
        LiveAccount(r);
      }
    }
  }

  lemma LiveAccount(r: Row)
    requires Sound(r)
    ensures !r.cut ==> r.Account() >= r.Share()
  {
  }

  /** A cut row was cut before, or is cut by this step at what it had spent. */
  lemma CutBefore(c: Config, run: Run, step: Step, i: nat)
    requires i < |Next(c, run, step).rows| && Next(c, run, step).rows[i].cut
    ensures i < |run.rows|
    ensures var r, after := run.rows[i], Next(c, run, step).rows[i];
            after.watch.passed == if r.cut then r.watch.passed else Max(0.0, r.Spent() - r.Account())
  {
    hide ShareOf, Eligible, TakeAt, DrainGain, NewRow, Workers, Named, BoundaryCredit, StepRow, Across, Count, Product, Taken,
         Row.Spent, Row.Account;
    match step
    case DoJoin(agent, tier) =>
      NewRowUncut(c, Participant(agent, true, tier, 0.0), ShareOf(c.m, Eligible(run.rows)));
      if i < |run.rows| { TakenCut(run.rows[i], TakeAt(c.m, run.rows, i)); }
    case DoAdvance(cut) =>
      if run.stage < |c.stages| { AcrossCut(run.rows[i], cut, BoundaryCredit(c, run, cut)); }
    case _ => StepRowCut(run.rows[i], step);
  }

  lemma TakenCut(r: Row, amount: real)
    ensures Taken(r, amount).cut == r.cut && Taken(r, amount).watch == r.watch
  {
    hide Overtake;
  }

  lemma AcrossCut(r: Row, cut: set<string>, credit: real)
    ensures var after := Across(r, cut, credit);
            after.cut ==> after.watch.passed == if r.cut then r.watch.passed else Max(0.0, r.Spent() - r.Account())
  {
    hide Row.Spent, Row.Share, Returned, TierUse.Observed, TierUse.SettleAll;
  }

  lemma StartPassedBy(c: Config, ps: seq<Participant>, slack: real)
    requires ValidConfig(c) && Startable(ps) && slack >= 0.0 && WithinBy(Start(c, ps).rows, slack)
    ensures PassedBy(Start(c, ps).rows, slack)
  {
    hide NewRow, StartShares, Sound, Row.Spent, Row.Share, Row.Account, Startable;
    forall i | 0 <= i < |ps| ensures Passed(Start(c, ps).rows[i]) <= slack {
      StartRow(c, ps, i);
      NewRowUncut(c, ps[i], StartShares(c, ps)[i]);
      LiveAccount(Start(c, ps).rows[i]);
    }
  }

  lemma {:induction false} AfterPassedBy(c: Config, ps: seq<Participant>, steps: seq<Step>, slack: real)
    requires ValidConfig(c) && Startable(ps) && slack >= 0.0 && StaysWithin(c, Start(c, ps), steps, slack)
    ensures PassedBy(After(c, Start(c, ps), steps).rows, slack)
  {
    hide Inv, Next, Start, WithinBy, PassedBy;
    var start := Start(c, ps);
    assert steps[..|steps|] == steps;
    assert WithinBy(After(c, start, steps[..|steps|]).rows, slack);
    if |steps| == 0 {
      StartPassedBy(c, ps, slack);
    } else {
      var n := |steps| - 1;
      assert forall k :: 0 <= k <= n ==> steps[..n][..k] == steps[..k];
      assert WithinBy(After(c, start, steps[..n]).rows, slack);
      AfterPassedBy(c, ps, steps[..n], slack);
      EveryRunBalances(c, ps, steps[..n]);
      EveryRunBalances(c, ps, steps);
      NextPassedBy(c, After(c, start, steps[..n]), steps[n], slack);
    }
  }

  /** With used within the share kept, but for so much of each agent, total spend passes the budget
      released by no more than that of each agent, the drift, and what draining joins and cut agents'
      burst hours add. With nothing so allowed, it is the law as it is promised. */
  lemma WithinSharesIsWithinBudget(c: Config, ps: seq<Participant>, steps: seq<Step>, slack: real)
    requires ValidConfig(c) && Startable(ps) && slack >= 0.0 && StaysWithin(c, Start(c, ps), steps, slack)
    ensures var run := After(c, Start(c, ps), steps);
            Sum(Spents(run.rows)) <= Released(c, run.stage) + run.drained + Sum(Strays(run.rows))
                                   + Times(|run.rows|, slack) + Drift(c, run)
  {
    hide Start, After, Sum, Released, Times, Delta, StaysWithin, Passed;
    EveryRunIsCapped(c, ps, steps);
    AfterPassedBy(c, ps, steps, slack);
    var rows := After(c, Start(c, ps), steps).rows;
    SumAtMost(Passeds(rows), slack);
  }

  lemma {:induction false} SumAtMost(xs: seq<real>, most: real)
    requires forall i :: 0 <= i < |xs| ==> xs[i] <= most
    ensures Sum(xs) <= Times(|xs|, most)
  {
    if |xs| > 0 { SumAtMost(xs[..|xs| - 1], most); }
  }

  // ----- what the check does not reach ----------------------------------------------------------

  /** A join leaves the row at i without any hours: it is accepted, the row has hours of one kind alone,
      its agent ended with nothing the join counts, and the share needs them all after the ended ones
      before it. All of it is read before the join. */
  ghost predicate Empties(c: Config, run: Run, step: Step, i: nat)
    requires i < |run.rows|
  {
    var r, qs, k := run.rows[i], Eligible(run.rows), |Eligible(run.rows[..i])|;
    && step.DoJoin? && Accepts(c, run, step.agent) && r.Competes() && k <= |qs|
    && (r.guaranteed == 0.0 || r.burst == 0.0) && r.Ended() && r.Seen() == 0.0
    && r.Share() + Sum(EndedUnspents(qs)[..k]) <= ShareOf(c.m, qs)
  }

  lemma TakesEmpty(c: Config, run: Run, i: nat)
    requires Inv(c, run) && i < |run.rows| && run.rows[i].Competes() && run.rows[i].Share() > 0.0
    ensures var r, qs, k := run.rows[i], Eligible(run.rows), |Eligible(run.rows[..i])|;
            var after := AfterTakes(c.m, run.rows)[i];
            && k <= |qs|
            && (after.guaranteed <= 0.0 && after.burst <= 0.0 <==>
                && (r.guaranteed == 0.0 || r.burst == 0.0) && r.Ended() && r.Seen() == 0.0
                && r.Share() + Sum(EndedUnspents(qs)[..k]) <= ShareOf(c.m, qs))
  {
    var r, qs, k := run.rows[i], Eligible(run.rows), |Eligible(run.rows[..i])|;
    hide Takes, Balanced, ShareOf, EndedUnspents, TierUse.Used, TierUse.Seen, TierUse.Observed, TierUse.Valid, Sum, Overtake;
    EligiblePlace(run.rows, i);
    TakeAtFits(c.m, run.rows, i);
    SeenBounds(r.useG);
    SeenBounds(r.useB);
    UnspentWithinShare(r);
    EmptiedExactly(c.m, qs, k);
  }

  predicate HasHours(r: Row) { r.guaranteed > 0.0 || r.burst > 0.0 }

  /** Exactly such a join takes a live agent that had a share out of the check's reach (NoHoursNoCheck);
      no other step does. */
  lemma NextEmpties(c: Config, run: Run, step: Step, i: nat)
    requires Inv(c, run) && i < |run.rows| && !run.rows[i].cut && run.rows[i].Share() > 0.0
    ensures i < |Next(c, run, step).rows|
    ensures var after := Next(c, run, step).rows[i];
            !after.cut && !HasHours(after) <==> Empties(c, run, step, i)
  {
    hide Balanced, Distinct, ShareOf, Eligible, AfterTakes, EndedUnspents, Sum, DrainGains, NewRow, Workers, Named, BoundaryCredit,
         StepRow, Across, Count, Product, Row.Seen, Row.Competes;
    var r := run.rows[i];
    match step
    case DoJoin(agent, tier) =>
      if r.Competes() {
        TakesEmpty(c, run, i);
      } else {
        NotAsked(c.m, run.rows, i);
      }
      AfterTakesLength(c.m, run.rows);
      assert !AfterTakes(c.m, run.rows)[i].cut by { NotCutByTaking(c.m, run.rows, i); }
    case DoAdvance(cut) =>
      if run.stage < |c.stages| { AcrossHours(r, cut, BoundaryCredit(c, run, cut)); }
    case _ =>
      StepRowHours(r, step);
  }

  lemma AfterTakesLength(m: Rounding, rows: seq<Row>)
    ensures |AfterTakes(m, rows)| == |rows|
  {
  }

  lemma NotAsked(m: Rounding, rows: seq<Row>, i: nat)
    requires i < |rows| && !rows[i].Competes() && rows[i].guaranteed >= 0.0 && rows[i].burst >= 0.0
    ensures |AfterTakes(m, rows)| == |rows| && HasHours(AfterTakes(m, rows)[i]) == HasHours(rows[i])
  {
    hide Overtake;
  }

  lemma NotCutByTaking(m: Rounding, rows: seq<Row>, i: nat)
    requires i < |rows|
    ensures |AfterTakes(m, rows)| == |rows| && AfterTakes(m, rows)[i].cut == rows[i].cut
  {
    hide TakeAt, Overtake;
  }

  lemma AcrossHours(r: Row, cut: set<string>, credit: real)
    requires Sound(r) && !r.cut && HasHours(r)
    ensures Across(r, cut, credit).cut || HasHours(Across(r, cut, credit))
  {
    hide TierUse.Used, TierUse.Observed, TierUse.SettleAll, TierUse.Valid, TierUse.Overrun;
  }

  lemma StepRowHours(r: Row, step: Step)
    ensures HasHours(StepRow(r, step)) == HasHours(r) && StepRow(r, step).cut == r.cut
    ensures StepRow(r, step).guaranteed == r.guaranteed && StepRow(r, step).burst == r.burst
  {
    hide TierUse.Reserve, TierUse.Observe, TierUse.Settle, AgentQuota.Remaining, Row.Q, TierUse.SettleAll, TierUse.Observed, Exhausts;
  }

  // ----- runs every check reaches ---------------------------------------------------------------

  /** A live agent with a job that can cost has a share, so its check reaches it. */
  ghost predicate Reached(r: Row) { !r.cut && Bears(r) ==> r.Share() > 0.0 }

  /** No join empties an agent that has such a job. */
  ghost predicate NeverEmpties(c: Config, run: Run, steps: seq<Step>) {
    forall k :: 0 <= k < |steps| ==> EmptiesNobody(c, After(c, run, steps[..k]), steps[k])
  }

  ghost predicate EmptiesNobody(c: Config, run: Run, step: Step) {
    forall i :: 0 <= i < |run.rows| && Bears(run.rows[i]) ==> !Empties(c, run, step, i)
  }

  lemma HoursAreShare(r: Row)
    requires Sound(r)
    ensures HasHours(r) <==> r.Share() > 0.0
  {
    hide TierUse.Used, TierUse.Observed, TierUse.Valid, TierUse.Overrun;
  }

  lemma StepRowReached(r: Row, step: Step)
    requires Sound(r) && Reached(r)
    ensures Reached(StepRow(r, step))
  {
    hide TierUse.Used, TierUse.Observed, TierUse.Valid, TierUse.Overrun, TierUse.Reserve, TierUse.Observe, TierUse.Settle,
         TierUse.SettleAll, AgentQuota.Remaining, Bearing, Exhausts, Row.Q;
    StepRowHours(r, step);
    ShareOfHours(r, StepRow(r, step));
    match step
    case DoReserve(_, tier, hold, hours) => ReserveBears(r, tier, hold, hours);
    case DoObserve(_, tier, k, hours) => ObserveBears(r, tier, k, hours);
    case DoSettle(_, tier, k, refunded) => SettleBears(r, tier, k, refunded);
    case DoCheck(_) => CheckBears(r);
    case _ =>
  }

  lemma ShareOfHours(r: Row, s: Row)
    requires r.guaranteed == s.guaranteed && r.burst == s.burst
    ensures r.Share() == s.Share()
  {
  }

  lemma ReserveBears(r: Row, tier: CapacityTier, hold: real, hours: real)
    requires Sound(r)
    ensures Bears(Reserve(r, tier, hold, hours)) ==> Bears(r) || r.Share() > 0.0
  {
    hide TierUse.Reserve, TierUse.Used, TierUse.Observed, TierUse.Overrun, TierUse.Valid, AgentQuota.Remaining, Bearing;
    if !(r.cut || r.finished || !IsHold(hold, hours) || hold > r.Q().Remaining(tier)) {
      ReserveUse(UseOf(r, tier), Job(hold, hours, 0.0, false));
      UseBounds(r.useG);
      UseBounds(r.useB);
      if hold > 0.0 { RemainingIsFree(r, tier, hold); }
    }
  }

  lemma ObserveBears(r: Row, tier: CapacityTier, k: nat, hours: real)
    requires Sound(r)
    ensures Bears(Observe(r, tier, k, hours)) ==> Bears(r)
  {
    hide TierUse.Observe, TierUse.Used, TierUse.Observed, TierUse.Overrun, TierUse.Valid, Bearing;
    if !(r.cut || k >= |UseOf(r, tier).jobs| || hours < UseOf(r, tier).jobs[k].hours) { ObserveUse(UseOf(r, tier), k, hours); }
  }

  lemma SettleBears(r: Row, tier: CapacityTier, k: nat, refunded: bool)
    requires Sound(r)
    ensures Bears(Settle(r, tier, k, refunded)) ==> Bears(r)
  {
    hide TierUse.Settle, TierUse.Used, TierUse.Observed, TierUse.Overrun, TierUse.Valid, Bearing;
    if !(r.cut || k >= |UseOf(r, tier).jobs|) { SettleUse(UseOf(r, tier), k, refunded); }
  }

  lemma CheckBears(r: Row)
    requires Sound(r)
    ensures Bears(Check(r)) ==> Bears(r)
  {
    hide TierUse.SettleAll, TierUse.Used, TierUse.Observed, TierUse.Overrun, TierUse.Valid, Bearing, Exhausts;
    SettleAllUse(r.useG);
    SettleAllUse(r.useB);
  }

  /** A join or a boundary gives no live agent a job. */
  lemma OthersBear(c: Config, run: Run, step: Step, i: nat)
    requires Inv(c, run) && i < |run.rows| && (step.DoJoin? || step.DoAdvance?)
    ensures i < |Next(c, run, step).rows|
    ensures var after := Next(c, run, step).rows[i];
            !after.cut ==> !run.rows[i].cut && after.useG == run.rows[i].useG && after.useB == run.rows[i].useB
  {
    hide Balanced, Distinct, ShareOf, Eligible, TakeAt, DrainGain, NewRow, Workers, Named, BoundaryCredit, Count, Product, Overtake,
         Row.Share, Row.Competes, Returned;
  }

  lemma NextReached(c: Config, run: Run, step: Step, i: nat)
    requires ValidConfig(c) && Inv(c, run) && i < |Next(c, run, step).rows| && Sound(Next(c, run, step).rows[i])
    requires i < |run.rows| ==> Reached(run.rows[i])
    requires EmptiesNobody(c, run, step)
    ensures Reached(Next(c, run, step).rows[i])
  {
    hide Next, Empties, Balanced, Distinct, Sound, Row.Share, Bears, HasHours;
    var after := Next(c, run, step).rows[i];
    if i >= |run.rows| {
      NewcomerBears(c, run, step, i);
    } else if step.DoJoin? || step.DoAdvance? {
      OthersBear(c, run, step, i);
      HoursAreShare(after);
      SameBears(run.rows[i], after);
      if !run.rows[i].cut && run.rows[i].Share() > 0.0 { NextEmpties(c, run, step, i); }
    } else {
      RowOfStep(c, run, step, i);
      StepRowReached(run.rows[i], step);
    }
  }

  lemma SameBears(r: Row, s: Row)
    ensures r.useG == s.useG && r.useB == s.useB ==> Bears(r) == Bears(s)
  {
  }

  lemma NewcomerBears(c: Config, run: Run, step: Step, i: nat)
    requires |run.rows| <= i < |Next(c, run, step).rows|
    ensures !Bears(Next(c, run, step).rows[i])
  {
    hide ShareOf, Eligible, TakeAt, Taken, DrainGain, Workers, Named, BoundaryCredit, StepRow, Across, Count, Product, AllocateBurst;
  }

  lemma RowOfStep(c: Config, run: Run, step: Step, i: nat)
    requires i < |run.rows| && !step.DoJoin? && !step.DoAdvance?
    ensures i < |Next(c, run, step).rows|
    ensures Next(c, run, step).rows[i] == if step.row == i then StepRow(run.rows[i], step) else run.rows[i]
  {
    hide StepRow;
  }

  lemma StartReached(c: Config, ps: seq<Participant>, i: nat)
    requires |c.stages| > 0 && i < |Start(c, ps).rows|
    ensures Reached(Start(c, ps).rows[i])
  {
    hide StartShares, AllocateBurst;
  }

  /** In every run in which no join empties an agent with a job that can cost, every live agent with such
      a job has a share, and so every check of it reaches it and starts its cost anew. */
  lemma {:induction false} EveryCheckReaches(c: Config, ps: seq<Participant>, steps: seq<Step>, i: nat)
    requires ValidConfig(c) && Startable(ps) && NeverEmpties(c, Start(c, ps), steps)
    requires i < |After(c, Start(c, ps), steps).rows|
    ensures var r := After(c, Start(c, ps), steps).rows[i];
            && Reached(r)
            && (!r.cut && Bears(r) ==> CostSinceCheck(c, Start(c, ps), steps + [DoCheck(i)], i) == 0.0)
  {
    hide Next, Start, Inv, EmptiesNobody, Reached, CostSinceCheck, Bears;
    var start := Start(c, ps);
    EveryRunBalances(c, ps, steps);
    if |steps| == 0 {
      StartReached(c, ps, i);
    } else {
      var n := |steps| - 1;
      var before := After(c, start, steps[..n]);
      assert forall k :: 0 <= k < n ==> steps[..n][..k] == steps[..k];
      EveryRunBalances(c, ps, steps[..n]);
      if i < |before.rows| { EveryCheckReaches(c, ps, steps[..n], i); }
      SoundAt(c, After(c, start, steps), i);
      NextReached(c, before, steps[n], i);
    }
    CheckStartsAnew(c, start, steps, i);
  }

  lemma SoundAt(c: Config, run: Run, i: nat)
    requires Inv(c, run) && i < |run.rows|
    ensures Sound(run.rows[i])
  {
  }

  lemma CheckStartsAnew(c: Config, run: Run, steps: seq<Step>, i: nat)
    requires i < |After(c, run, steps).rows| && Reached(After(c, run, steps).rows[i])
    ensures !After(c, run, steps).rows[i].cut && Bears(After(c, run, steps).rows[i]) ==>
              CostSinceCheck(c, run, steps + [DoCheck(i)], i) == 0.0
  {
    hide After, Next, Row.Share, Row.Spent;
    assert (steps + [DoCheck(i)])[..|steps|] == steps;
  }

  // ----- what a check is late by ----------------------------------------------------------------

  /** What the jobs of the agent at i cost since its last check, or since it joined. A check does not
      reach an agent without a share. */
  ghost function CostSinceCheck(c: Config, run: Run, steps: seq<Step>, i: nat): real {
    if |steps| == 0 then 0.0
    else
      var n := |steps| - 1;
      var before, after := After(c, run, steps[..n]).rows, After(c, run, steps).rows;
      if i >= |before| || i >= |after| then 0.0
      else CostAfter(before[i], after[i], steps[n], i, CostSinceCheck(c, run, steps[..n], i))
  }

  function CostAfter(before: Row, after: Row, step: Step, i: nat, since: real): real {
    if step == DoCheck(i) && !before.cut && before.Share() > 0.0 then 0.0
    else if step.DoObserve? && step.row == i then since + after.Spent() - before.Spent()
    else since
  }

  lemma StepRowWatch(r: Row, step: Step, i: nat)
    requires !step.DoJoin? && !step.DoAdvance? && step.row == i
    ensures var after := StepRow(r, step);
            && after.watch.since == CostAfter(r, after, step, i, r.watch.since)
            && after.watch.surge <= Max(r.watch.surge, after.watch.since)
  {
    hide TierUse.Reserve, TierUse.Observe, TierUse.Settle, AgentQuota.Remaining, Row.Q, Row.Share, TierUse.SettleAll,
         TierUse.Observed, Exhausts;
  }

  lemma AcrossWatch(r: Row, cut: set<string>, credit: real)
    ensures Across(r, cut, credit).watch.since == r.watch.since && Across(r, cut, credit).watch.surge == r.watch.surge
  {
    hide Row.Spent, Row.Share, Returned, TierUse.Observed, TierUse.SettleAll;
  }

  lemma NewRowWatch(c: Config, p: Participant, share: real)
    ensures NewRow(c, p, share).watch == NO_WATCH
  {
  }

  lemma NextWatch(c: Config, run: Run, step: Step, i: nat)
    requires i < |Next(c, run, step).rows|
    ensures var after := Next(c, run, step).rows[i];
            if i >= |run.rows| then after.watch == NO_WATCH
            else
              && after.watch.since == CostAfter(run.rows[i], after, step, i, run.rows[i].watch.since)
              && after.watch.surge <= Max(run.rows[i].watch.surge, after.watch.since)
  {
    hide ShareOf, Eligible, TakeAt, DrainGain, NewRow, Workers, Named, BoundaryCredit, StepRow, Across, Count, Product, Taken,
         Row.Spent, Row.Share;
    match step
    case DoJoin(agent, tier) =>
      NewRowWatch(c, Participant(agent, true, tier, 0.0), ShareOf(c.m, Eligible(run.rows)));
      if i < |run.rows| { TakenCut(run.rows[i], TakeAt(c.m, run.rows, i)); }
    case DoAdvance(cut) =>
      if run.stage < |c.stages| { AcrossWatch(run.rows[i], cut, BoundaryCredit(c, run, cut)); }
    case _ =>
      if step.row == i { StepRowWatch(run.rows[i], step, i); }
  }

  /** After every step, no agent's jobs have cost more than so much since its last check. */
  ghost predicate CheckedBy(c: Config, run: Run, steps: seq<Step>, most: real) {
    forall k, i :: 0 <= k <= |steps| && 0 <= i < |After(c, run, steps[..k]).rows| ==>
      CostSinceCheck(c, run, steps[..k], i) <= most
  }

  lemma {:induction false} AfterWatch(c: Config, ps: seq<Participant>, steps: seq<Step>, most: real, i: nat)
    requires ValidConfig(c) && most >= 0.0 && CheckedBy(c, Start(c, ps), steps, most)
    requires i < |After(c, Start(c, ps), steps).rows|
    ensures var w := After(c, Start(c, ps), steps).rows[i].watch;
            w.since == CostSinceCheck(c, Start(c, ps), steps, i) && w.surge <= most
  {
    hide Next, Start, CostAfter, StartShares;
    var start := Start(c, ps);
    assert steps[..|steps|] == steps;
    assert CostSinceCheck(c, start, steps[..|steps|], i) <= most;
    if |steps| == 0 {
      StartWatch(c, ps, i);
    } else {
      var n := |steps| - 1;
      var before := After(c, start, steps[..n]);
      assert forall k :: 0 <= k <= n ==> steps[..n][..k] == steps[..k];
      NextWatch(c, before, steps[n], i);
      if i < |before.rows| { AfterWatch(c, ps, steps[..n], most, i); }
    }
  }

  lemma StartWatch(c: Config, ps: seq<Participant>, i: nat)
    requires |c.stages| > 0 && i < |Start(c, ps).rows|
    ensures Start(c, ps).rows[i].watch == NO_WATCH
  {
    hide NewRow, StartShares;
    NewRowWatch(c, ps[i], StartShares(c, ps)[i]);
  }

  /** With at most so much cost of each agent since its last check, after every step, total spend passes
      the budget released by at most that of each agent, the drift, and what draining joins and cut
      agents' burst hours add, whatever jobs overrun and joins take of holds. */
  lemma ChecksCapSpend(c: Config, ps: seq<Participant>, steps: seq<Step>, most: real)
    requires ValidConfig(c) && Startable(ps) && most >= 0.0 && CheckedBy(c, Start(c, ps), steps, most)
    ensures var run := After(c, Start(c, ps), steps);
            Sum(Spents(run.rows)) <= Released(c, run.stage) + run.drained + Sum(Strays(run.rows))
                                   + Times(|run.rows|, most) + Drift(c, run)
  {
    hide Start, After, Sum, Released, Times, Delta, Passed, CheckedBy, CostSinceCheck;
    var rows := After(c, Start(c, ps), steps).rows;
    EveryRunIsCapped(c, ps, steps);
    forall i | 0 <= i < |rows| ensures rows[i].watch.surge <= most { AfterWatch(c, ps, steps, most, i); }
    SumAtMost(Passeds(rows), most);
  }
}
