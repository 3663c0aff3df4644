/**
 The budget ledger of one run: the quota rows of its agents, from the start that splits the first
 stage's release among them, through jobs, late joins and stage boundaries. Every step is total:
 one the platform refuses leaves the ledger as it is.
 */
module Ledger {
  import opened Hours
  import opened Sums
  import opened Credits
  import opened Quota
  import opened Stages
  import opened LedgerRows

  datatype Config = Config(m: Rounding, budget: real, stages: seq<Stage>, burstFraction: real, minShare: real)

  ghost predicate ValidConfig(c: Config) {
    c.budget > 0.0 && ValidLadder(c.stages) && c.burstFraction > 0.0
  }

  /** withheld is what boundaries with nobody left to credit gave to nobody; drained the burst hours
      that became shares when joins took the last guaranteed hour of idle rows; roundings how many
      times an amount was rounded on its way. */
  datatype Run = Run(rows: seq<Row>, stage: nat, withheld: real, drained: real, roundings: nat)

  ghost predicate Distinct(rows: seq<Row>) {
    forall i, j :: 0 <= i < j < |rows| ==> rows[i].agent != rows[j].agent
  }

  function Accounts(rows: seq<Row>): seq<real> {
    seq(|rows|, i requires 0 <= i < |rows| => rows[i].Account())
  }

  function Released(c: Config, stage: nat): real { Product(c.budget, Boundary(c.stages, stage)) }

  /** The law of the ledger: what agents hold and what cut agents kept is what was released and
      what was drained, to one rounding error for each rounding. */
  ghost predicate Balanced(c: Config, run: Run) {
    var off := Sum(Accounts(run.rows)) + run.withheld - Released(c, run.stage) - run.drained;
    -Times(run.roundings, Delta(c.m)) <= off <= Times(run.roundings, Delta(c.m))
  }

  ghost predicate Inv(c: Config, run: Run) {
    && Distinct(run.rows)
    && (forall i :: 0 <= i < |run.rows| ==> Sound(run.rows[i]))
    && 1 <= run.stage <= |c.stages|
    && run.withheld >= 0.0 && run.drained >= 0.0
    && Balanced(c, run)
  }

  // ----- start ----------------------------------------------------------------------------------

  datatype Participant = Participant(agent: string, executor: bool, tier: QuotaTier, bonus: real)

  const NO_USE := TierUse(0.0, 0.0, [])

  function NewRow(c: Config, p: Participant, share: real): Row {
    var (g, b) := ApplyQuotaTier(p.tier, share, AllocateBurst(c.m, share, c.burstFraction));
    Row(p.agent, p.executor, p.tier, g, b, NO_USE, NO_USE, false, false, false, 0.0, 0.0, 0.0, 0.0, NO_WATCH)
  }

  function Bonuses(ps: seq<Participant>): seq<real> {
    seq(|ps|, i requires 0 <= i < |ps| => ps[i].bonus)
  }

  function StartShares(c: Config, ps: seq<Participant>): (shares: seq<real>)
    requires |c.stages| > 0
    ensures |shares| == |ps|
  {
    Allocations(c.m, Product(c.budget, c.stages[0].ReleaseFrac()), Bonuses(ps))
  }

  function Start(c: Config, ps: seq<Participant>): Run
    requires |c.stages| > 0
  {
    Run(seq(|ps|, i requires 0 <= i < |ps| => NewRow(c, ps[i], StartShares(c, ps)[i])), 1, 0.0, 0.0, |ps|)
  }

  /** Who may start a run: at least one, each once, and bonuses no larger together than leaves every
      agent something (AllocationSign). */
  ghost predicate Startable(ps: seq<Participant>) {
    && |ps| > 0
    && (forall i, j :: 0 <= i < j < |ps| ==> ps[i].agent != ps[j].agent)
    && (forall i :: 0 <= i < |ps| ==> Sum(Bonuses(ps)) <= |ps| as real * (1.0 + ps[i].bonus))
  }

  lemma NewRowSound(c: Config, p: Participant, share: real)
    requires share >= 0.0 && c.burstFraction > 0.0
    ensures Sound(NewRow(c, p, share)) && NewRow(c, p, share).Account() == share
    ensures !NewRow(c, p, share).Collapsed()
  {
    BurstOfShare(c, share);
    hide AllocateBurst, TierUse.Used;
    FreshRowSound(NewRow(c, p, share));
  }

  lemma BurstOfShare(c: Config, share: real)
    requires share >= 0.0 && c.burstFraction > 0.0
    ensures AllocateBurst(c.m, share, c.burstFraction) >= 0.0
    ensures share == 0.0 ==> AllocateBurst(c.m, share, c.burstFraction) == 0.0
  {
    MulNonNegative(share, c.burstFraction);
    RoundNear(c.m, Product(share, c.burstFraction));
    if share == 0.0 {
      assert Product(share, c.burstFraction) == 0.0;
    }
  }

  lemma StartSharesNonNegative(c: Config, ps: seq<Participant>, i: nat)
    requires ValidConfig(c) && Startable(ps) && i < |ps|
    ensures StartShares(c, ps)[i] >= 0.0
  {
    var release := Product(c.budget, c.stages[0].ReleaseFrac());
    assert release > 0.0 by { assert ValidStage(c.stages[0]); MulPositive(c.budget, c.stages[0].ReleaseFrac()); }
    AllocationSign(release, |ps|, ps[i].bonus, Sum(Bonuses(ps)));
    RoundNear(c.m, Unrounded(release, |ps|, ps[i].bonus, Sum(Bonuses(ps))));
  }

  lemma StartRow(c: Config, ps: seq<Participant>, i: nat)
    requires ValidConfig(c) && Startable(ps) && i < |ps|
    ensures var r := Start(c, ps).rows[i];
            Sound(r) && r.Account() == StartShares(c, ps)[i] && r.agent == ps[i].agent
  {
    hide NewRow, StartShares, Sound, Row.Account, Startable;
    StartSharesNonNegative(c, ps, i);
    NewRowSound(c, ps[i], StartShares(c, ps)[i]);
    NewRowAgent(c, ps[i], StartShares(c, ps)[i]);
  }

  lemma StartDistinct(c: Config, ps: seq<Participant>)
    requires ValidConfig(c) && Startable(ps)
    ensures Distinct(Start(c, ps).rows)
  {
    hide NewRow, StartShares;
    forall i | 0 <= i < |ps| ensures Start(c, ps).rows[i].agent == ps[i].agent {
      NewRowAgent(c, ps[i], StartShares(c, ps)[i]);
    }
  }

  lemma StartAccounts(c: Config, ps: seq<Participant>)
    requires ValidConfig(c) && Startable(ps)
    ensures Accounts(Start(c, ps).rows) == StartShares(c, ps)
  {
    hide StartShares, Sound, Row.Account, Startable, NewRow;
    forall i | 0 <= i < |ps| ensures Accounts(Start(c, ps).rows)[i] == StartShares(c, ps)[i] {
      StartRow(c, ps, i);
    }
  }

  lemma StartKeepsInv(c: Config, ps: seq<Participant>)
    requires ValidConfig(c) && Startable(ps)
    ensures Inv(c, Start(c, ps))
  {
    hide NewRow, StartShares, Sound, Distinct, Startable, Balanced;
    StartDistinct(c, ps);
    StartRunBalanced(c, ps);
    forall i | 0 <= i < |ps| ensures Sound(Start(c, ps).rows[i]) {
      StartRow(c, ps, i);
    }
  }

  lemma StartRunBalanced(c: Config, ps: seq<Participant>)
    requires ValidConfig(c) && Startable(ps)
    ensures Balanced(c, Start(c, ps))
  {
    hide NewRow, StartShares, Accounts, Sum, Times, Delta, Released;
    StartAccounts(c, ps);
    StartBalanced(c, ps);
  }

  lemma NewRowAgent(c: Config, p: Participant, share: real)
    ensures NewRow(c, p, share).agent == p.agent
  {
  }

  lemma NewRowUncut(c: Config, p: Participant, share: real)
    ensures !NewRow(c, p, share).cut
  {
  }

  lemma StartBalanced(c: Config, ps: seq<Participant>)
    requires ValidConfig(c) && |ps| > 0
    ensures Abs(Sum(StartShares(c, ps)) - Released(c, 1)) <= Times(|ps|, Delta(c.m))
  {
    hide Product, Allocations, Times, Delta, Released, Abs;
    FirstRelease(c);
    var release := Product(c.budget, c.stages[0].ReleaseFrac());
    AllocationsSumToBudget(c.m, release, Bonuses(ps));
  }

  lemma FirstRelease(c: Config)
    requires |c.stages| > 0
    ensures Released(c, 1) == Product(c.budget, c.stages[0].ReleaseFrac())
  {
    hide Product;
    BoundaryStep(c.stages, 0);
    assert Lengths(c.stages)[..0] == [];
  }

  // ----- a late join ----------------------------------------------------------------------------

  /** The quotas a late join shares from: those of the executors not cut, in order. */
  function Eligible(rows: seq<Row>): (qs: seq<ExecutorQuota>)
    ensures |qs| <= |rows|
  {
    if |rows| == 0 then [] else
    var n := |rows| - 1;
    Eligible(rows[..n]) + if rows[n].Competes() then [rows[n].AsExecutorQuota()] else []
  }

  lemma {:induction false} EligiblePlace(rows: seq<Row>, i: nat)
    requires i < |rows|
    ensures |Eligible(rows[..i])| <= |Eligible(rows[..i + 1])| <= |Eligible(rows)|
    ensures rows[i].Competes() ==>
              |Eligible(rows[..i + 1])| == |Eligible(rows[..i])| + 1
              && Eligible(rows)[|Eligible(rows[..i])|] == rows[i].AsExecutorQuota()
    ensures !rows[i].Competes() ==> |Eligible(rows[..i + 1])| == |Eligible(rows[..i])|
  {
    var n := |rows| - 1;
    assert rows[..i + 1][..i] == rows[..i];
    if i < n {
      EligiblePlace(rows[..n], i);
      assert rows[..n][..i] == rows[..i] && rows[..n][..i + 1] == rows[..i + 1];
    } else {
      assert rows[..i + 1] == rows;
    }
  }

  /** What a late join takes from the row at i. */
  function TakeAt(m: Rounding, rows: seq<Row>, i: nat): real
    requires i < |rows|
  {
    var k := |Eligible(rows[..i])|;
    if rows[i].Competes() && k < |Eligible(rows)| then Takes(m, Eligible(rows))[k] else 0.0
  }

  function TakesByRow(m: Rounding, rows: seq<Row>): seq<real> {
    seq(|rows|, i requires 0 <= i < |rows| => TakeAt(m, rows, i))
  }

  /** What is taken row by row is what LateShare says is taken, in all. */
  lemma {:induction false} TakesByRowPrefix(m: Rounding, rows: seq<Row>, k: nat)
    requires k <= |rows| && |Eligible(rows[..k])| <= |Eligible(rows)|
    ensures Sum(TakesByRow(m, rows)[..k]) == Sum(Takes(m, Eligible(rows))[..|Eligible(rows[..k])|])
  {
    hide Takes, Eligible, Row.Competes;
    if k > 0 {
      EligiblePlace(rows, k - 1);
      TakesByRowPrefix(m, rows, k - 1);
      SumPrefix(TakesByRow(m, rows), k - 1);
      if rows[k - 1].Competes() {
        SumPrefix(Takes(m, Eligible(rows)), |Eligible(rows[..k - 1])|);
      }
    }
  }

  lemma TakesByRowSum(m: Rounding, rows: seq<Row>)
    ensures Sum(TakesByRow(m, rows)) == Sum(Takes(m, Eligible(rows)))
  {
    assert rows[..|rows|] == rows;
    TakesByRowPrefix(m, rows, |rows|);
    assert TakesByRow(m, rows)[..|rows|] == TakesByRow(m, rows);
    assert Takes(m, Eligible(rows))[..|Eligible(rows)|] == Takes(m, Eligible(rows));
  }

  function DrainGains(m: Rounding, rows: seq<Row>): seq<real> {
    seq(|rows|, i requires 0 <= i < |rows| => DrainGain(rows[i], TakeAt(m, rows, i)))
  }

  function AfterTakes(m: Rounding, rows: seq<Row>): seq<Row> {
    seq(|rows|, i requires 0 <= i < |rows| => Taken(rows[i], TakeAt(m, rows, i)))
  }

  function Named(rows: seq<Row>, agent: string): bool {
    exists i :: 0 <= i < |rows| && rows[i].agent == agent
  }

  function Join(c: Config, run: Run, agent: string, tier: QuotaTier): Run {
    var qs := Eligible(run.rows);
    var share := ShareOf(c.m, qs);
    if Named(run.rows, agent) || share <= 0.0 || share < c.minShare then run
    else
      run.(rows := AfterTakes(c.m, run.rows) + [NewRow(c, Participant(agent, true, tier, 0.0), share)],
           drained := run.drained + Sum(DrainGains(c.m, run.rows)),
           roundings := run.roundings + (2 * Workers(qs) + 1))
  }

  lemma TakeAtFits(m: Rounding, rows: seq<Row>, i: nat)
    requires i < |rows| && !rows[i].cut
    ensures 0.0 <= TakeAt(m, rows, i) <= rows[i].AsExecutorQuota().Unspent()
  {
    if rows[i].Competes() {
      EligiblePlace(rows, i);
      LateShareIsFair(m, Eligible(rows), |Eligible(rows[..i])|);
    }
  }

  lemma TakenAt(m: Rounding, rows: seq<Row>, i: nat)
    requires i < |rows| && Sound(rows[i])
    ensures var after, take := AfterTakes(m, rows)[i], TakeAt(m, rows, i);
            && Sound(after) && after.agent == rows[i].agent && DrainGain(rows[i], take) >= 0.0
            && after.Account() == rows[i].Account() - take + DrainGain(rows[i], take)
  {
    hide TakeAt, Sound;
    if rows[i].cut {
      TakeAtCut(m, rows, i);
      CutUntouched(rows[i]);
    } else {
      TakeAtFits(m, rows, i);
      TakenSound(rows[i], TakeAt(m, rows, i));
    }
  }

  lemma TakeAtCut(m: Rounding, rows: seq<Row>, i: nat)
    requires i < |rows| && rows[i].cut
    ensures TakeAt(m, rows, i) == 0.0
  {
  }

  lemma CutUntouched(r: Row)
    requires Sound(r)
    ensures Taken(r, 0.0) == r && DrainGain(r, 0.0) == 0.0
  {
  }

  lemma JoinKeepsInv(c: Config, run: Run, agent: string, tier: QuotaTier)
    requires ValidConfig(c) && Inv(c, run)
    ensures Inv(c, Join(c, run, agent, tier))
  {
    hide NewRow, ShareOf, TakeAt, Taken, DrainGain, Sound, Eligible, Balanced, Row.Account;
    var qs := Eligible(run.rows);
    var share := ShareOf(c.m, qs);
    if !(Named(run.rows, agent) || share <= 0.0 || share < c.minShare) {
      var p := Participant(agent, true, tier, 0.0);
      NewRowSound(c, p, share);
      NewRowAgent(c, p, share);
      forall i | 0 <= i < |run.rows|
        ensures Sound(AfterTakes(c.m, run.rows)[i]) && AfterTakes(c.m, run.rows)[i].agent == run.rows[i].agent
        ensures DrainGains(c.m, run.rows)[i] >= 0.0
      {
        TakenAt(c.m, run.rows, i);
      }
      SumNonNegative(DrainGains(c.m, run.rows));
      JoinBalanced(c, run, NewRow(c, p, share));
    }
  }

  lemma AfterTakesSum(m: Rounding, rows: seq<Row>)
    requires forall i :: 0 <= i < |rows| ==> Sound(rows[i])
    ensures Sum(Accounts(AfterTakes(m, rows)))
         == Sum(Accounts(rows)) - Sum(Takes(m, Eligible(rows))) + Sum(DrainGains(m, rows))
  {
    hide TakeAt, Taken, DrainGain, Sound, Row.Account, Eligible, Takes;
    var n := |rows|;
    var before, after, gains, takes := Accounts(rows), Accounts(AfterTakes(m, rows)), DrainGains(m, rows), TakesByRow(m, rows);
    var mid := seq(n, i requires 0 <= i < n => after[i] + takes[i]);
    forall i | 0 <= i < n
      ensures mid[i] == before[i] + gains[i]
    {
      TakenAt(m, rows, i);
    }
    SumAdd(after, takes, mid);
    SumAdd(before, gains, mid);
    TakesByRowSum(m, rows);
  }

  lemma JoinBalanced(c: Config, run: Run, newcomer: Row)
    requires Inv(c, run)
    requires newcomer.Account() == ShareOf(c.m, Eligible(run.rows))
    ensures var rows := AfterTakes(c.m, run.rows) + [newcomer];
            Balanced(c, run.(rows := rows, drained := run.drained + Sum(DrainGains(c.m, run.rows)),
                             roundings := run.roundings + (2 * Workers(Eligible(run.rows)) + 1)))
  {
    var qs, rows := Eligible(run.rows), AfterTakes(c.m, run.rows);
    hide ShareOf, AfterTakes, DrainGains, Sound, Eligible, Released, Delta, Workers, Takes, Row.Account, Sum, Times, Distinct;
    LateShareConserves(c.m, qs);
    AfterTakesSum(c.m, run.rows);
    AccountsAppend(rows, newcomer);
    JoinDrift(run.roundings, Workers(qs), Delta(c.m));
  }

  lemma AccountsAppend(rows: seq<Row>, r: Row)
    ensures Sum(Accounts(rows + [r])) == Sum(Accounts(rows)) + r.Account()
  {
    hide Row.Account;
    assert Accounts(rows + [r]) == Accounts(rows) + [r.Account()];
    SumAppend(Accounts(rows), r.Account());
  }

  /** The roundings of a join, of which those at work account for no more than all. */
  lemma JoinDrift(roundings: nat, w: nat, delta: real)
    requires delta >= 0.0
    ensures Times(roundings + (2 * w + 1), delta) == Times(roundings, delta) + Times(2 * w + 1, delta)
    ensures Times(w, delta) <= Times(2 * w + 1, delta)
  {
    TimesAdd(roundings, 2 * w + 1, delta);
    TimesAdd(w, w + 1, delta);
    TimesNonNegative(w + 1, delta);
    assert 2 * w + 1 == w + (w + 1);
  }

  // ----- a stage boundary -----------------------------------------------------------------------

  function IsCut(r: Row, cut: set<string>): bool { r.Competes() && r.agent in cut }
  function Survives(r: Row, cut: set<string>): bool { r.Competes() && r.agent !in cut }

  function Survivors(rows: seq<Row>, cut: set<string>): seq<bool> {
    seq(|rows|, i requires 0 <= i < |rows| => Survives(rows[i], cut))
  }

  /** What the boundary reads of the agents it cuts, by agent: their hours and what they spent. */
  function CutHours(rows: seq<Row>, cut: set<string>): map<string, real> {
    if |rows| == 0 then map[] else
    var n := |rows| - 1;
    var rest := CutHours(rows[..n], cut);
    if IsCut(rows[n], cut) then rest[rows[n].agent := Measured(rows[n]).0] else rest
  }

  function CutUse(rows: seq<Row>, cut: set<string>): map<string, real> {
    if |rows| == 0 then map[] else
    var n := |rows| - 1;
    var rest := CutUse(rows[..n], cut);
    if IsCut(rows[n], cut) then rest[rows[n].agent := Measured(rows[n]).1] else rest
  }

  function Returns(rows: seq<Row>, cut: set<string>): seq<real> {
    seq(|rows|, i requires 0 <= i < |rows| => if IsCut(rows[i], cut) then Returned(rows[i]) else 0.0)
  }

  /** One row across a boundary that credits each survivor this much. */
  function Across(r: Row, cut: set<string>, credit: real): Row {
    if IsCut(r, cut) then CutOff(r)
    else if Survives(r, cut) && credit > 0.0 then Credited(r, credit) else r
  }

  function AllAcross(rows: seq<Row>, cut: set<string>, credit: real): seq<Row> {
    seq(|rows|, i requires 0 <= i < |rows| => Across(rows[i], cut, credit))
  }

  ghost function BoundaryCredit(c: Config, run: Run, cut: set<string>): real
    requires run.stage < |c.stages|
  {
    var survivors := Count(Survivors(run.rows, cut));
    if survivors == 0 then 0.0
    else Credit(c.m, c.budget, c.stages[run.stage].ReleaseFrac(), CutHours(run.rows, cut), CutUse(run.rows, cut), survivors)
  }

  /** The boundary after the current stage: the agents named are cut, and the survivors are credited
      the incoming stage's release with what the cut left. The last stage has none after it. */
  ghost function Advance(c: Config, run: Run, cut: set<string>): Run {
    if run.stage >= |c.stages| then run
    else
      var survivors := Count(Survivors(run.rows, cut));
      var release := Product(c.budget, c.stages[run.stage].ReleaseFrac());
      run.(rows := AllAcross(run.rows, cut, BoundaryCredit(c, run, cut)),
           stage := run.stage + 1,
           withheld := if survivors == 0 then run.withheld + release + Sum(Returns(run.rows, cut)) else run.withheld,
           roundings := run.roundings + survivors)
  }

  lemma {:induction false} CutMapsAgree(rows: seq<Row>, cut: set<string>)
    requires Distinct(rows)
    ensures CutHours(rows, cut).Keys == CutUse(rows, cut).Keys
    ensures forall id :: id in CutHours(rows, cut) ==> exists i :: 0 <= i < |rows| && rows[i].agent == id
    ensures LeftByAll(CutHours(rows, cut), CutUse(rows, cut)) == Sum(Returns(rows, cut))
  {
    hide Returned, Measured, LeftByAll, IsCut, Sum, Returns;
    if |rows| == 0 {
      NothingCut(rows, cut);
    } else {
      var n := |rows| - 1;
      CutMapsAgree(rows[..n], cut);
      ReturnsLast(rows, cut);
      if IsCut(rows[n], cut) {
        OneMoreCut(rows[n], CutHours(rows[..n], cut), CutUse(rows[..n], cut));
      }
    }
  }

  lemma NothingCut(rows: seq<Row>, cut: set<string>)
    requires |rows| == 0
    ensures LeftByAll(map[], map[]) == Sum(Returns(rows, cut)) == 0.0
  {
  }

  lemma ReturnsLast(rows: seq<Row>, cut: set<string>)
    requires |rows| > 0
    ensures var n := |rows| - 1;
            Sum(Returns(rows, cut)) == Sum(Returns(rows[..n], cut)) + if IsCut(rows[n], cut) then Returned(rows[n]) else 0.0
  {
    hide IsCut, Returned;
    assert Returns(rows, cut)[..|rows| - 1] == Returns(rows[..|rows| - 1], cut);
  }

  lemma OneMoreCut(r: Row, hours: map<string, real>, use: map<string, real>)
    requires r.agent !in hours && hours.Keys == use.Keys
    ensures LeftByAll(hours[r.agent := Measured(r).0], use[r.agent := Measured(r).1]) == LeftByAll(hours, use) + Returned(r)
  {
    hide Measured, LeftByAll;
    var hours', use' := hours[r.agent := Measured(r).0], use[r.agent := Measured(r).1];
    LeftByAny(hours', use', r.agent);
    assert hours' - {r.agent} == hours;
    LeftBySame(hours, use, use');
  }

  lemma {:induction false} LeftBySame(hours: map<string, real>, use: map<string, real>, use': map<string, real>)
    requires forall id :: id in hours ==> id in use && id in use' && use[id] == use'[id]
    ensures LeftByAll(hours, use) == LeftByAll(hours, use')
    decreases |hours|
  {
    if hours != map[] {
      var id :| id in hours;
      LeftByAny(hours, use, id);
      LeftByAny(hours, use', id);
      LeftBySame(hours - {id}, use, use');
    } else {
      assert LeftByAll(hours, use) == 0.0 && LeftByAll(hours, use') == 0.0;
    }
  }

  lemma AcrossSound(r: Row, cut: set<string>, credit: real)
    requires Sound(r)
    ensures Sound(Across(r, cut, credit)) && Across(r, cut, credit).agent == r.agent
    ensures Across(r, cut, credit).Account()
         == r.Account() - (if IsCut(r, cut) then Returned(r) else 0.0)
          + if Survives(r, cut) && credit > 0.0 then credit else 0.0
    ensures IsCut(r, cut) ==> Returned(r) >= 0.0
  {
    hide Sound, Returned, Row.Account;
    assert CutOff(r).agent == r.agent && Credited(r, credit).agent == r.agent;
    if IsCut(r, cut) {
      CutOffSound(r);
    } else if Survives(r, cut) && credit > 0.0 {
      CreditedSound(r, credit);
    }
  }

  /** Across a boundary the accounts lose what the cut hand on and gain a credit for each survivor. */
  lemma AcrossSum(rows: seq<Row>, cut: set<string>, credit: real)
    requires forall i :: 0 <= i < |rows| ==> Sound(rows[i])
    ensures Sum(Accounts(AllAcross(rows, cut, credit)))
         == Sum(Accounts(rows)) - Sum(Returns(rows, cut)) + Times(Count(Survivors(rows, cut)), Max(0.0, credit))
    ensures Sum(Returns(rows, cut)) >= 0.0
  {
    hide Sound, Returned, Row.Account, Across, Row.Competes, Times;
    var n := |rows|;
    var before, after, back := Accounts(rows), Accounts(AllAcross(rows, cut, credit)), Returns(rows, cut);
    var credits := seq(n, i requires 0 <= i < n => if Survivors(rows, cut)[i] then Max(0.0, credit) else 0.0);
    var mid := seq(n, i requires 0 <= i < n => after[i] + back[i]);
    forall i | 0 <= i < n
      ensures mid[i] == before[i] + credits[i] && back[i] >= 0.0
    {
      AcrossSound(rows[i], cut, credit);
    }
    SumAdd(after, back, mid);
    SumAdd(before, credits, mid);
    SumFlagged(credits, Survivors(rows, cut), Max(0.0, credit));
    SumNonNegative(back);
  }

  lemma ReleasedStep(c: Config, stage: nat)
    requires ValidConfig(c) && stage < |c.stages|
    ensures Released(c, stage + 1) == Released(c, stage) + Product(c.budget, c.stages[stage].ReleaseFrac())
    ensures Product(c.budget, c.stages[stage].ReleaseFrac()) > 0.0
  {
    hide Boundary;
    BoundaryStep(c.stages, stage);
    MulDistribute(Boundary(c.stages, stage), c.stages[stage].ReleaseFrac(), c.budget);
    assert ValidStage(c.stages[stage]);
    MulPositive(c.budget, c.stages[stage].ReleaseFrac());
  }

  /** What the survivors are credited together, to one rounding for each of them. */
  lemma CreditSum(c: Config, run: Run, cut: set<string>)
    requires ValidConfig(c) && Inv(c, run) && run.stage < |c.stages| && Count(Survivors(run.rows, cut)) > 0
    ensures var s := Count(Survivors(run.rows, cut));
            var total := Product(c.budget, c.stages[run.stage].ReleaseFrac()) + Sum(Returns(run.rows, cut));
            -Times(s, Delta(c.m)) <= Times(s, Max(0.0, BoundaryCredit(c, run, cut))) - total <= Times(s, Delta(c.m))
  {
    hide Sound, Returned, Row.Competes, Times, Delta, Credit, Balanced, Count, Product, LeftByAll;
    CutMapsAgree(run.rows, cut);
    ReleasedStep(c, run.stage);
    AcrossSum(run.rows, cut, 0.0);
    CreditConserves(c.m, c.budget, c.stages[run.stage].ReleaseFrac(), CutHours(run.rows, cut), CutUse(run.rows, cut),
                    Count(Survivors(run.rows, cut)));
  }

  lemma AdvanceBalanced(c: Config, run: Run, cut: set<string>)
    requires ValidConfig(c) && Inv(c, run) && run.stage < |c.stages|
    ensures Balanced(c, Advance(c, run, cut)) && Advance(c, run, cut).withheld >= run.withheld
  {
    hide Sound, Released, BoundaryCredit, AllAcross, Survivors, Returns, Product, Count, Delta;
    var s := Count(Survivors(run.rows, cut));
    AcrossSum(run.rows, cut, BoundaryCredit(c, run, cut));
    ReleasedStep(c, run.stage);
    TimesAdd(run.roundings, s, Delta(c.m));
    if s > 0 {
      CreditSum(c, run, cut);
    }
  }

  lemma AdvanceKeepsInv(c: Config, run: Run, cut: set<string>)
    requires ValidConfig(c) && Inv(c, run)
    ensures Inv(c, Advance(c, run, cut))
  {
    hide Sound, Across, Balanced, BoundaryCredit, Product, Count, Survivors;
    if run.stage < |c.stages| {
      AdvanceBalanced(c, run, cut);
      var credit := BoundaryCredit(c, run, cut);
      forall i | 0 <= i < |run.rows|
        ensures Sound(AllAcross(run.rows, cut, credit)[i])
             && AllAcross(run.rows, cut, credit)[i].agent == run.rows[i].agent
      {
        AcrossSound(run.rows[i], cut, credit);
      }
    }
  }

  // ----- whole runs -----------------------------------------------------------------------------

  datatype Step =
    | DoReserve(row: nat, tier: CapacityTier, hold: real, estimatedHours: real)
    | DoObserve(row: nat, tier: CapacityTier, job: nat, hours: real)
    | DoSettle(row: nat, tier: CapacityTier, job: nat, refunded: bool)
    | DoCheck(row: nat)
    | DoFinish(row: nat)
    | DoStop(row: nat)
    | DoJoin(agent: string, quotaTier: QuotaTier)
    | DoAdvance(cut: set<string>)

  function StepRow(r: Row, step: Step): Row {
    match step
    case DoReserve(_, tier, hold, hours) => Reserve(r, tier, hold, hours)
    case DoObserve(_, tier, job, hours) => Observe(r, tier, job, hours)
    case DoSettle(_, tier, job, refunded) => Settle(r, tier, job, refunded)
    case DoCheck(_) => Check(r)
    case DoFinish(_) => if |r.useG.jobs| + |r.useB.jobs| > 0 then r else r.(finished := true)
    case DoStop(_) => r.(stopped := true)
    case _ => r
  }

  ghost function Next(c: Config, run: Run, step: Step): Run {
    match step
    case DoJoin(agent, tier) => Join(c, run, agent, tier)
    case DoAdvance(cut) => Advance(c, run, cut)
    case _ => if step.row < |run.rows| then run.(rows := run.rows[step.row := StepRow(run.rows[step.row], step)]) else run
  }

  ghost function After(c: Config, run: Run, steps: seq<Step>): Run {
    if |steps| == 0 then run else Next(c, After(c, run, steps[..|steps| - 1]), steps[|steps| - 1])
  }

  lemma EndedSound(r: Row)
    requires Sound(r)
    ensures Sound(r.(finished := true)) && r.(finished := true).Account() == r.Account()
    ensures Sound(r.(stopped := true)) && r.(stopped := true).Account() == r.Account()
  {
    hide TierUse.Used, TierUse.Observed, TierUse.Overrun, TierUse.Valid;
  }

  lemma StepRowAgent(r: Row, step: Step)
    ensures StepRow(r, step).agent == r.agent
  {
    hide TierUse.Reserve, TierUse.Observe, TierUse.Settle, AgentQuota.Remaining, Row.Q, TierUse.SettleAll, TierUse.Observed, Exhausts;
  }

  lemma StepRowCut(r: Row, step: Step)
    ensures StepRow(r, step).cut == r.cut && (r.cut ==> StepRow(r, step).watch.passed == r.watch.passed)
  {
    hide TierUse.Reserve, TierUse.Observe, TierUse.Settle, AgentQuota.Remaining, Row.Q, TierUse.SettleAll, TierUse.Observed, Exhausts;
  }

  lemma StepRowSound(r: Row, step: Step)
    requires Sound(r)
    ensures Sound(StepRow(r, step)) && StepRow(r, step).Account() == r.Account() && StepRow(r, step).agent == r.agent
  {
    hide Sound, Row.Account, Reserve, Observe, Settle, Check;
    StepRowAgent(r, step);
    EndedSound(r);
    match step
    case DoReserve(_, tier, hold, hours) => ReserveSound(r, tier, hold, hours);
    case DoObserve(_, tier, job, hours) => ObserveSound(r, tier, job, hours);
    case DoSettle(_, tier, job, refunded) => SettleSound(r, tier, job, refunded);
    case DoCheck(_) => CheckSound(r);
    case _ =>
  }

  lemma NextKeepsInv(c: Config, run: Run, step: Step)
    requires ValidConfig(c) && Inv(c, run)
    ensures Inv(c, Next(c, run, step))
  {
    hide Sound, StepRow, Row.Account, Join, Advance, Times, Delta, Released;
    match step
    case DoJoin(agent, tier) => JoinKeepsInv(c, run, agent, tier);
    case DoAdvance(cut) => AdvanceKeepsInv(c, run, cut);
    case _ =>
      if step.row < |run.rows| {
        var r := run.rows[step.row];
        StepRowSound(r, step);
        var rows := run.rows[step.row := StepRow(r, step)];
        assert Accounts(rows) == Accounts(run.rows);
      }
  }

  lemma {:induction false} AfterKeepsInv(c: Config, run: Run, steps: seq<Step>)
    requires ValidConfig(c) && Inv(c, run)
    ensures Inv(c, After(c, run, steps))
  {
    hide Inv, Next;
    if |steps| > 0 {
      AfterKeepsInv(c, run, steps[..|steps| - 1]);
      NextKeepsInv(c, After(c, run, steps[..|steps| - 1]), steps[|steps| - 1]);
    }
  }
}
