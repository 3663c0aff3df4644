/** What the check of a quota keeps of one agent's spending, step by step. */
module LedgerWatch {
  import opened Hours
  import opened Sums
  import opened Credits
  import opened Quota
  import opened LedgerRows

  ghost predicate Bears(r: Row) { Bearing(r.useG) || Bearing(r.useB) }

  ghost predicate Hollow(u: TierUse) { u.settled == 0.0 && !Bearing(u) }

  /** A live agent has passed its share by no more than its jobs cost between two checks, and while any
      of its jobs can cost more, by no more than they cost since the last one; a cut agent spent what
      was kept of it, what the boundary missed and what it had passed its share by. */
  ghost predicate Watched(r: Row) {
    && 0.0 <= r.watch.since <= r.watch.surge && 0.0 <= r.watch.passed <= r.watch.surge
    && (r.tier.TierBurstOnly? ==> Hollow(r.useG))
    && (!r.cut ==> r.Spent() <= r.Account() + r.watch.surge && (Bears(r) ==> r.Spent() - r.watch.since <= r.Account()))
    && (r.cut ==> r.Spent() <= r.kept + r.stray + r.lost + r.watch.passed)
  }

  lemma FreshWatched(r: Row)
    requires Unused(r.useG) && Unused(r.useB) && !r.cut && r.watch == NO_WATCH && r.guaranteed >= 0.0 && r.burst >= 0.0 && r.lost >= 0.0
    ensures Watched(r)
  {
    assert r.useG.Costs() == [] && r.useB.Costs() == [];
  }

  lemma RemainingIsFree(r: Row, tier: CapacityTier, hold: real)
    requires Sound(r) && 0.0 < hold <= r.Q().Remaining(tier)
    ensures r.Q().Used() < r.Share() && (tier.CapacityGuaranteed? ==> !r.tier.TierBurstOnly?)
  {
    hide TierUse.Used, TierUse.Observed, TierUse.Overrun, TierUse.Valid;
    UseBounds(r.useG);
  }

  lemma SpentWhenIdle(r: Row)
    requires r.useG.Valid() && r.useB.Valid() && !Bears(r)
    ensures r.Spent() == r.Q().Used()
  {
    hide TierUse.Used, TierUse.Observed, TierUse.Valid;
    NoneBearing(r.useG);
    NoneBearing(r.useB);
  }

  lemma ReserveWatched(r: Row, tier: CapacityTier, hold: real, estimatedHours: real)
    requires Sound(r) && Watched(r)
    ensures Watched(Reserve(r, tier, hold, estimatedHours))
  {
    hide TierUse.Reserve, TierUse.Used, TierUse.Observed, TierUse.Overrun, TierUse.Valid, AgentQuota.Remaining, Bearing;
    if !(r.cut || r.finished || !IsHold(hold, estimatedHours) || hold > r.Q().Remaining(tier)) {
      var j := Job(hold, estimatedHours, 0.0, false);
      NothingRun(j);
      ReserveUse(UseOf(r, tier), j);
      ReserveSettles(UseOf(r, tier), j);
      if hold > 0.0 { RemainingIsFree(r, tier, hold); }
      if !Bears(r) { SpentWhenIdle(r); }
    }
  }

  lemma ReserveSettles(u: TierUse, j: Job)
    ensures u.Reserve(j).settled == u.settled
  {
  }

  lemma ObserveWatched(r: Row, tier: CapacityTier, k: nat, hours: real)
    requires Sound(r) && Watched(r)
    ensures Watched(Observe(r, tier, k, hours))
  {
    hide TierUse.Observe, TierUse.Used, TierUse.Observed, TierUse.Overrun, TierUse.Valid, Bearing;
    if !(r.cut || k >= |UseOf(r, tier).jobs| || hours < UseOf(r, tier).jobs[k].hours) {
      ObserveUse(UseOf(r, tier), k, hours);
    }
  }

  lemma SettleWatched(r: Row, tier: CapacityTier, k: nat, refunded: bool)
    requires Sound(r) && Watched(r)
    ensures Watched(Settle(r, tier, k, refunded))
  {
    hide TierUse.Settle, TierUse.Used, TierUse.Observed, TierUse.Overrun, TierUse.Valid;
    if !(r.cut || k >= |UseOf(r, tier).jobs|) {
      SettleUse(UseOf(r, tier), k, refunded);
      SettledGrows(UseOf(r, tier), k, refunded);
    }
  }

  lemma SettledGrows(u: TierUse, k: nat, refunded: bool)
    requires u.Valid() && k < |u.jobs|
    ensures u.Settle(k, refunded).settled >= u.settled
    ensures !Bearing(u) ==> u.Settle(k, refunded).settled == u.settled
  {
    hide RatedCost;
    var bill := if refunded then u.jobs[k].(hours := 0.0) else u.jobs[k];
    CostNonNegative(bill);
    if !Bearing(u) { NothingRun(bill); }
  }

  /** The check: an agent that has spent its share has no job left that can cost more. */
  lemma CheckWatched(r: Row)
    requires Sound(r) && Watched(r)
    ensures Watched(Check(r))
    ensures !r.cut && Exhausts(r.Share(), r.Spent()) ==> !Bears(Check(r))
  {
    hide TierUse.Used, TierUse.Observed, TierUse.Overrun, TierUse.Valid, TierUse.SettleAll, Bearing;
    UseBounds(r.useG);
    UseBounds(r.useB);
    SettleAllUse(r.useG);
    SettleAllUse(r.useB);
    if Hollow(r.useG) { NoneBearing(r.useG); }
  }

  lemma TakenWatched(r: Row, amount: real)
    requires Sound(r) && Watched(r) && !r.cut && 0.0 <= amount <= r.AsExecutorQuota().Unspent()
    ensures Watched(Taken(r, amount))
  {
    hide TierUse.Seen, TierUse.Used, TierUse.Observed, TierUse.Overrun, TierUse.Valid, Bearing, Overtake;
    SeenBounds(r.useG);
    SeenBounds(r.useB);
  }

  lemma CreditedWatched(r: Row, credit: real)
    requires Sound(r) && Watched(r) && !r.cut && credit > 0.0
    ensures Watched(Credited(r, credit))
  {
    hide TierUse.Used, TierUse.Observed, TierUse.Overrun, TierUse.Valid, Bearing;
  }

  lemma CutOffWatched(r: Row)
    requires Sound(r) && Watched(r) && !r.cut
    ensures Watched(CutOff(r))
  {
    hide TierUse.Used, TierUse.Observed, TierUse.Overrun, TierUse.Valid, TierUse.SettleAll, Bearing;
    UseBounds(r.useG);
    UseBounds(r.useB);
    SettleAllUse(r.useG);
    SettleAllUse(r.useB);
    if Hollow(r.useG) { NoneBearing(r.useG); }
  }

  /** An agent without any hours is never checked: its jobs run on. */
  lemma NoHoursNoCheck(r: Row)
    requires r.guaranteed <= 0.0 && r.burst <= 0.0
    ensures Check(r) == r
  {
    hide TierUse.Observed, TierUse.SettleAll;
  }

  /** How far an agent has spent past its share, or had when it was cut. */
  function Passed(r: Row): real { if r.cut then r.watch.passed else Max(0.0, r.Spent() - r.Account()) }

  /** No agent spent more than it is accounted for, what the boundary missed and what it passed its
      share by, and it passed it by no more than its jobs cost between two checks. */
  lemma SpentWithinPassed(r: Row)
    requires Sound(r) && Watched(r)
    ensures r.Spent() <= r.Account() + r.stray + Passed(r) && 0.0 <= Passed(r) <= r.watch.surge
  {
    hide TierUse.Used, TierUse.Observed, TierUse.Overrun, TierUse.Valid, Bearing;
  }
}
