/** The law of the ledger as it is promised, with what cut agents spent in place of what they kept. */
module LedgerCuts {
  import opened Hours
  import opened Sums
  import opened Credits
  import opened Quota
  import opened Stages
  import opened LedgerRows
  import opened Ledger
  import opened LedgerLaws

  /** A live agent's share, and what a cut agent spent. */
  function Standing(r: Row): real { if r.cut then r.Spent() else r.Share() }

  function Standings(rows: seq<Row>): seq<real> {
    seq(|rows|, i requires 0 <= i < |rows| => Standing(rows[i]))
  }

  /** What a boundary keeps of a cut agent's share is what it measured, or the share if that is less;
      and what the agent spent is not changed. */
  lemma KeptIsMeasured(r: Row)
    requires Sound(r) && !r.cut && !r.Collapsed()
    ensures CutOff(r).kept == Min(r.Share(), Measured(r).1) && CutOff(r).Spent() == r.Spent()
  {
    hide TierUse.Used, TierUse.Valid, TierUse.Observed, TierUse.Overrun, TierUse.SettleAll;
    SettleAllUse(r.useG);
    SettleAllUse(r.useB);
  }

  /** An agent that spent nothing in the column the boundary does not measure, and no more than its
      share in the other. */
  ghost predicate SpentAsMeasured(r: Row) { Unmeasured(r) == 0.0 && Measured(r).1 <= r.Share() }

  /** A cut agent is accounted for by what it spent. */
  ghost predicate Even(r: Row) { r.cut ==> r.kept == r.Spent() }

  ghost predicate AllEven(rows: seq<Row>) { forall i :: 0 <= i < |rows| ==> Even(rows[i]) }

  /** No more is ever kept of a cut agent than it spent, and as much exactly when it spent as is
      measured. */
  lemma CutIsEven(r: Row)
    requires Sound(r) && !r.cut && !r.Collapsed()
    ensures CutOff(r).kept <= CutOff(r).Spent()
    ensures Even(CutOff(r)) <==> SpentAsMeasured(r)
  {
    hide TierUse.Used, TierUse.Valid, TierUse.Observed, TierUse.Overrun, TierUse.SettleAll, CutOff;
    KeptIsMeasured(r);
    UseBounds(r.useG);
    UseBounds(r.useB);
    assert CutOff(r).cut by { CutOffCuts(r); }
  }

  lemma CutOffCuts(r: Row)
    ensures CutOff(r).cut
  {
  }

  /** A boundary cuts nobody but agents that spent as it measures. All of it can be read before. */
  ghost predicate CutsEvenly(c: Config, run: Run, step: Step) {
    step.DoAdvance? && run.stage < |c.stages| ==>
      forall i :: 0 <= i < |run.rows| && IsCut(run.rows[i], step.cut) ==> SpentAsMeasured(run.rows[i])
  }

  // ----- every step -----------------------------------------------------------------------------

  lemma StepRowEven(r: Row, step: Step)
    requires Even(r)
    ensures Even(StepRow(r, step))
  {
    hide TierUse.Observed, TierUse.Reserve, TierUse.Observe, TierUse.Settle, AgentQuota.Remaining, Row.Q, TierUse.SettleAll, Exhausts;
    if !r.cut { StepRowCut(r, step); }
  }

  lemma TakenEven(m: Rounding, rows: seq<Row>, i: nat)
    requires i < |rows| && Even(rows[i])
    ensures Even(AfterTakes(m, rows)[i])
  {
    hide TakeAt, Overtake, TierUse.Observed;
  }

  lemma AcrossEven(r: Row, cut: set<string>, credit: real)
    requires Sound(r) && Backed(r) && Even(r) && (IsCut(r, cut) ==> SpentAsMeasured(r))
    ensures Even(Across(r, cut, credit))
  {
    hide Sound, CutOff, SpentAsMeasured, Row.Collapsed, Row.Spent;
    if IsCut(r, cut) {
      CutIsEven(r);
    } else if !r.cut {
      CreditedCuts(r, credit);
    }
  }

  lemma CreditedCuts(r: Row, credit: real)
    ensures Credited(r, credit).cut == r.cut
  {
  }

  lemma NextEven(c: Config, run: Run, step: Step)
    requires ValidConfig(c) && Inv(c, run) && Clean(run) && AllEven(run.rows) && CutsEvenly(c, run, step)
    ensures AllEven(Next(c, run, step).rows)
  {
    hide Even, Sound, Backed, SpentAsMeasured, Balanced, StepRow, Across, ShareOf, Eligible, TakeAt, Taken, DrainGain, NewRow,
         Workers, Named, BoundaryCredit, Count, Product, IsCut;
    match step
    case DoJoin(agent, tier) =>
      forall i | 0 <= i < |run.rows| ensures Even(AfterTakes(c.m, run.rows)[i]) { TakenEven(c.m, run.rows, i); }
      NewRowEven(c, Participant(agent, true, tier, 0.0), ShareOf(c.m, Eligible(run.rows)));
    case DoAdvance(cut) =>
      if run.stage < |c.stages| {
        forall i | 0 <= i < |run.rows| ensures Even(Across(run.rows[i], cut, BoundaryCredit(c, run, cut))) {
          AcrossEven(run.rows[i], cut, BoundaryCredit(c, run, cut));
        }
      }
    case _ =>
      if step.row < |run.rows| { StepRowEven(run.rows[step.row], step); }
  }

  lemma NewRowEven(c: Config, p: Participant, share: real)
    ensures Even(NewRow(c, p, share))
  {
  }

  lemma StartEven(c: Config, ps: seq<Participant>)
    requires |c.stages| > 0
    ensures AllEven(Start(c, ps).rows)
  {
    hide Even, NewRow, StartShares;
    forall i | 0 <= i < |ps| ensures Even(Start(c, ps).rows[i]) { NewRowEven(c, ps[i], StartShares(c, ps)[i]); }
  }

  /** A run none of whose boundaries cuts an agent that spent otherwise than is measured. */
  ghost predicate AlwaysCutsEvenly(c: Config, run: Run, steps: seq<Step>) {
    forall k :: 0 <= k < |steps| ==> CutsEvenly(c, After(c, run, steps[..k]), steps[k])
  }

  lemma {:induction false} AfterEven(c: Config, run: Run, steps: seq<Step>)
    requires ValidConfig(c) && Inv(c, run) && Clean(run) && AllEven(run.rows)
    requires NeverDrains(c, run, steps) && AlwaysCutsEvenly(c, run, steps)
    ensures Clean(After(c, run, steps)) && AllEven(After(c, run, steps).rows)
  {
    hide Inv, StepDrains, Clean, Next, AllEven, CutsEvenly;
    if |steps| > 0 {
      var n := |steps| - 1;
      assert forall k :: 0 <= k < n ==> steps[..n][..k] == steps[..k];
      AfterEven(c, run, steps[..n]);
      AfterKeepsInv(c, run, steps[..n]);
      assert !StepDrains(c, After(c, run, steps[..n]), steps[n]) && CutsEvenly(c, After(c, run, steps[..n]), steps[n]);
      NextClean(c, After(c, run, steps[..n]), steps[n]);
      NextEven(c, After(c, run, steps[..n]), steps[n]);
    }
  }

  // ----- every run ------------------------------------------------------------------------------

  lemma EvenStandings(rows: seq<Row>)
    requires AllEven(rows)
    ensures Standings(rows) == Holdings(rows)
  {
    hide Row.Spent, Row.Share;
    forall i | 0 <= i < |rows| ensures Standings(rows)[i] == Holdings(rows)[i] {
      assert Even(rows[i]);
    }
  }

  /** The law as it is promised: in every run without a draining join whose boundaries cut only agents
      that spent as they measure, the shares of live agents and what cut agents spent sum, with what
      was withheld, to the budget released so far, within the drift. */
  lemma SharesAndSpendSumToReleased(c: Config, ps: seq<Participant>, steps: seq<Step>)
    requires ValidConfig(c) && Startable(ps)
    requires NeverDrains(c, Start(c, ps), steps) && AlwaysCutsEvenly(c, Start(c, ps), steps)
    ensures var run := After(c, Start(c, ps), steps);
            Abs(Sum(Standings(run.rows)) + run.withheld - Released(c, run.stage)) <= Drift(c, run)
  {
    hide Start, After, NeverDrains, AlwaysCutsEvenly, Inv, Clean, AllEven, Standings, Holdings, Sum, Drift, Released;
    StartKeepsInv(c, ps);
    StartClean(c, ps);
    StartEven(c, ps);
    AfterEven(c, Start(c, ps), steps);
    SharesSumToReleased(c, ps, steps);
    EvenStandings(After(c, Start(c, ps), steps).rows);
  }

  lemma {:induction false} SumsEqual(xs: seq<real>, ys: seq<real>)
    requires |xs| == |ys| && forall i :: 0 <= i < |xs| ==> xs[i] <= ys[i]
    ensures Sum(xs) <= Sum(ys)
    ensures Sum(xs) == Sum(ys) <==> forall i :: 0 <= i < |xs| ==> xs[i] == ys[i]
  {
    if |xs| > 0 { SumsEqual(xs[..|xs| - 1], ys[..|ys| - 1]); }
  }

  lemma AcrossStanding(r: Row, cut: set<string>, credit: real)
    requires Sound(r) && Backed(r) && Even(r)
    ensures var after := Across(r, cut, credit);
            && (after.cut ==> after.kept <= after.Spent())
            && (Even(after) <==> (IsCut(r, cut) ==> SpentAsMeasured(r)))
  {
    hide Sound, CutOff, SpentAsMeasured, Row.Collapsed, Row.Spent;
    if IsCut(r, cut) {
      CutIsEven(r);
    } else if !r.cut {
      CreditedCuts(r, credit);
    }
  }

  lemma BoundaryStandings(c: Config, run: Run, cut: set<string>)
    requires ValidConfig(c) && Inv(c, run) && Clean(run) && AllEven(run.rows) && run.stage < |c.stages|
    ensures var rows := Advance(c, run, cut).rows;
            && Sum(Holdings(rows)) <= Sum(Standings(rows))
            && (Sum(Holdings(rows)) == Sum(Standings(rows)) <==> CutsEvenly(c, run, DoAdvance(cut)))
  {
    hide Even, Sound, Backed, SpentAsMeasured, Balanced, Across, BoundaryCredit, Count, Product, IsCut, Sum, Row.Spent, Row.Share;
    var rows, credit := Advance(c, run, cut).rows, BoundaryCredit(c, run, cut);
    forall i | 0 <= i < |rows|
      ensures Holdings(rows)[i] <= Standings(rows)[i]
      ensures Holdings(rows)[i] == Standings(rows)[i] <==> (IsCut(run.rows[i], cut) ==> SpentAsMeasured(run.rows[i]))
    {
      assert rows[i] == Across(run.rows[i], cut, credit);
      AcrossStanding(run.rows[i], cut, credit);
      EvenIs(rows[i]);
    }
    SumsEqual(Holdings(rows), Standings(rows));
  }

  lemma EvenIs(r: Row)
    ensures Even(r) <==> (r.cut ==> r.kept == r.Spent())
  {
  }

  /** Where the law first fails: without rounding, a boundary after such a run leaves the shares and
      what cut agents spent summing to the release exactly when every agent it cuts spent as it
      measures; otherwise they sum to more. */
  lemma BoundaryConservesExactly(c: Config, ps: seq<Participant>, steps: seq<Step>, cut: set<string>)
    requires ValidConfig(c) && Startable(ps) && c.m.Exact?
    requires NeverDrains(c, Start(c, ps), steps) && AlwaysCutsEvenly(c, Start(c, ps), steps)
    requires After(c, Start(c, ps), steps).stage < |c.stages|
    ensures var before := After(c, Start(c, ps), steps);
            var run := Next(c, before, DoAdvance(cut));
            && Sum(Standings(run.rows)) + run.withheld >= Released(c, run.stage)
            && (Sum(Standings(run.rows)) + run.withheld == Released(c, run.stage) <==> CutsEvenly(c, before, DoAdvance(cut)))
  {
    hide Start, After, NeverDrains, AlwaysCutsEvenly, Inv, Clean, AllEven, Standings, Holdings, Sum, Released, CutsEvenly,
         StepDrains, Advance;
    var before := After(c, Start(c, ps), steps);
    StartKeepsInv(c, ps);
    StartClean(c, ps);
    StartEven(c, ps);
    AfterEven(c, Start(c, ps), steps);
    AfterKeepsInv(c, Start(c, ps), steps);
    NotAJoin(c, before, DoAdvance(cut));
    JoinConservesExactly(c, ps, steps, DoAdvance(cut));
    BoundaryStandings(c, before, cut);
  }

  // ----- a start that leaves an agent less than nothing -----------------------------------------

  lemma NewRowShare(c: Config, p: Participant, a: real)
    requires c.m.Exact?
    ensures NewRow(c, p, a).Share() == if p.tier.TierGuaranteed? && a <= 0.0 then Product(a, c.burstFraction) else a
  {
    hide Product, TierUse.Used;
  }

  /** Negative hours at a fraction. */
  lemma LessAtFraction(a: real, f: real)
    requires a <= 0.0
    ensures f >= 1.0 ==> Product(a, f) <= a
    ensures f <= 1.0 ==> Product(a, f) >= a
    ensures Product(a, f) == a <==> f == 1.0 || a == 0.0
  {
    assert Product(a, f) - a == a * (f - 1.0);
    if f > 1.0 && a < 0.0 { MulPositive(-a, f - 1.0); }
    if f < 1.0 && a < 0.0 { MulPositive(-a, 1.0 - f); }
  }

  ghost predicate LeftNothing(ps: seq<Participant>, i: nat)
    requires i < |ps|
  {
    ps[i].tier.TierGuaranteed? && Sum(Bonuses(ps)) > |ps| as real * (1.0 + ps[i].bonus)
  }

  lemma HeldOfShare(c: Config, p: Participant, share: real)
    requires c.m.Exact?
    ensures var held := NewRow(c, p, share).Share();
            && (c.burstFraction >= 1.0 ==> held <= share) && (c.burstFraction <= 1.0 ==> held >= share)
            && (held == share <==> c.burstFraction == 1.0 || !(p.tier.TierGuaranteed? && share < 0.0))
  {
    hide Product, Row.Share, NewRow;
    NewRowShare(c, p, share);
    if share <= 0.0 { LessAtFraction(share, c.burstFraction); }
  }

  lemma StartShareSign(c: Config, ps: seq<Participant>, i: nat)
    requires ValidConfig(c) && c.m.Exact? && i < |ps|
    ensures StartShares(c, ps)[i] < 0.0 <==> Sum(Bonuses(ps)) > |ps| as real * (1.0 + ps[i].bonus)
  {
    hide AllocateGuaranteed, Sum, Product;
    FirstReleaseIsPositive(c);
    AllocationSign(Product(c.budget, c.stages[0].ReleaseFrac()), |ps|, ps[i].bonus, Sum(Bonuses(ps)));
  }

  lemma FirstReleaseIsPositive(c: Config)
    requires ValidConfig(c)
    ensures Product(c.budget, c.stages[0].ReleaseFrac()) > 0.0
  {
    assert ValidStage(c.stages[0]);
    MulPositive(c.budget, c.stages[0].ReleaseFrac());
  }

  lemma StartHolding(c: Config, ps: seq<Participant>, i: nat)
    requires ValidConfig(c) && c.m.Exact? && i < |ps|
    ensures var held, share := Holdings(Start(c, ps).rows)[i], StartShares(c, ps)[i];
            && (c.burstFraction >= 1.0 ==> held <= share) && (c.burstFraction <= 1.0 ==> held >= share)
            && (held == share <==> c.burstFraction == 1.0 || !LeftNothing(ps, i))
  {
    hide StartShares, Row.Share, NewRow, Sum;
    StartShareSign(c, ps, i);
    HeldOfShare(c, ps[i], StartShares(c, ps)[i]);
    NewRowUncut(c, ps[i], StartShares(c, ps)[i]);
  }

  /** Whatever the bonuses, and without rounding, the shares of a start sum to the first stage's
      release exactly when no guaranteed-tier agent is left less than nothing, or the burst fraction is
      one. */
  lemma StartConservesExactly(c: Config, ps: seq<Participant>)
    requires ValidConfig(c) && c.m.Exact? && |ps| > 0
    ensures Sum(Holdings(Start(c, ps).rows)) == Released(c, 1) <==>
            c.burstFraction == 1.0 || forall i :: 0 <= i < |ps| ==> !LeftNothing(ps, i)
  {
    hide Holdings, StartShares, LeftNothing, Released, Sum, Start, Times, Product;
    var held, shares := Holdings(Start(c, ps).rows), StartShares(c, ps);
    StartExact(c, ps);
    HoldingsLength(c, ps);
    forall i | 0 <= i < |ps|
      ensures (c.burstFraction >= 1.0 ==> held[i] <= shares[i]) && (c.burstFraction <= 1.0 ==> held[i] >= shares[i])
      ensures held[i] == shares[i] <==> c.burstFraction == 1.0 || !LeftNothing(ps, i)
    {
      StartHolding(c, ps, i);
    }
    if c.burstFraction >= 1.0 {
      SumsEqual(held, shares);
    } else {
      SumsEqual(shares, held);
    }
  }

  lemma StartExact(c: Config, ps: seq<Participant>)
    requires ValidConfig(c) && c.m.Exact? && |ps| > 0
    ensures Sum(StartShares(c, ps)) == Released(c, 1)
  {
    hide StartShares, Released, Sum, Times;
    StartBalanced(c, ps);
    NothingTimes(|ps|);
  }

  lemma HoldingsLength(c: Config, ps: seq<Participant>)
    requires |c.stages| > 0
    ensures |Holdings(Start(c, ps).rows)| == |ps|
  {
  }
}
