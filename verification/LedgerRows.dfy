/** The quota row of one agent of a run, and what each step of the ledger does to it. */
module LedgerRows {
  import opened Hours
  import opened Sums
  import opened Credits
  import opened Quota

  /** What is known of an agent's spending between two checks of its quota: since, what its jobs cost
      since the last; surge, the most they cost between any two; passed, how far a cut agent had
      spent past its share when it was cut. */
  datatype Watch = Watch(since: real, surge: real, passed: real)

  const NO_WATCH := Watch(0.0, 0.0, 0.0)

  /** One agent's quota row, and beside it what the account of the whole run is kept with: kept, the
      part of a cut agent's share the boundary did not hand on; stray, what a cut agent of the
      guaranteed tier spent at burst, which the boundary counts as unspent; lost, burst hours that
      stopped being its share when it was credited guaranteed ones; overtaken, hours a join took of
      it that its running jobs still held; and the watch over what it spends. */
  datatype Row = Row(agent: string, executor: bool, tier: QuotaTier, guaranteed: real, burst: real,
                     useG: TierUse, useB: TierUse, finished: bool, stopped: bool,
                     cut: bool, kept: real, stray: real, lost: real, overtaken: real, watch: Watch) {
    function Q(): AgentQuota { AgentQuota(guaranteed, burst, useG.Used(), useB.Used()) }
    function Share(): real { Q().Share() }
    function Ended(): bool { finished || stopped }
    function Competes(): bool { executor && !cut }
    function Seen(): real { useG.Seen() + useB.Seen() }
    function Spent(): real { useG.Observed() + useB.Observed() }
    function Overrun(): real { useG.Overrun() + useB.Overrun() }
    function Account(): real { (if cut then kept else Share()) + lost }
    function AsExecutorQuota(): ExecutorQuota {
      ExecutorQuota(agent, guaranteed, burst, Seen(), Ended())
    }

    /** A guaranteed row with no guaranteed hour left falls back on its burst hours as its share. */
    function Collapsed(): bool { tier.TierGuaranteed? && guaranteed == 0.0 && burst > 0.0 }
  }

  /** What every row keeps: no tier spends past its hours and the two together not past the share,
      but for what jobs overran their estimates and what joins took of their holds. */
  ghost predicate Sound(r: Row) {
    && r.useG.Valid() && r.useB.Valid()
    && r.guaranteed >= 0.0 && r.burst >= 0.0 && r.stray >= 0.0 && r.lost >= 0.0 && r.overtaken >= 0.0
    && (r.tier.TierBurstOnly? ==> r.guaranteed == 0.0)
    && (!r.cut ==>
          && r.useG.Used() <= r.guaranteed + r.overtaken + r.useG.overrun
          && r.useB.Used() <= r.burst + r.lost + r.overtaken + r.useB.overrun
          && r.Q().Used() <= r.Share() + r.lost + r.overtaken + r.useG.overrun + r.useB.overrun)
    && (r.cut ==> r.Spent() <= r.kept + r.stray + r.lost + r.overtaken + r.Overrun())
  }

  ghost predicate Unused(u: TierUse) { u.settled == 0.0 && u.overrun == 0.0 && u.jobs == [] }

  lemma FreshRowSound(r: Row)
    requires Unused(r.useG) && Unused(r.useB) && !r.cut
    requires r.guaranteed >= 0.0 && r.burst >= 0.0 && r.stray == 0.0 && r.lost == 0.0 && r.overtaken == 0.0
    requires r.tier.TierBurstOnly? ==> r.guaranteed == 0.0
    ensures Sound(r)
  {
    assert r.useG.Holds() == [] && r.useB.Holds() == [];
  }

  // ----- jobs -----------------------------------------------------------------------------------

  function UseOf(r: Row, tier: CapacityTier): TierUse {
    if tier.CapacityGuaranteed? then r.useG else r.useB
  }

  function WithUse(r: Row, tier: CapacityTier, u: TierUse): Row {
    if tier.CapacityGuaranteed? then r.(useG := u) else r.(useB := u)
  }

  /** A hold is a rate times estimated hours. */
  predicate IsHold(hold: real, estimatedHours: real) { hold == 0.0 || (hold > 0.0 && estimatedHours > 0.0) }

  /** A job is admitted when its agent was not cut and did not finish, and its estimate is no more
      than what remains. */
  function Reserve(r: Row, tier: CapacityTier, hold: real, estimatedHours: real): Row {
    if r.cut || r.finished || !IsHold(hold, estimatedHours) || hold > r.Q().Remaining(tier) then r
    else WithUse(r, tier, UseOf(r, tier).Reserve(Job(hold, estimatedHours, 0.0, false)))
  }

  /** More of the hours of a job are observed, which are counted over its whole life. */
  function Observe(r: Row, tier: CapacityTier, k: nat, hours: real): Row {
    if r.cut || k >= |UseOf(r, tier).jobs| || hours < UseOf(r, tier).jobs[k].hours then r
    else
      var after := WithUse(r, tier, UseOf(r, tier).Observe(k, hours));
      var since := r.watch.since + after.Spent() - r.Spent();
      after.(watch := r.watch.(since := since, surge := Max(r.watch.surge, since)))
  }

  function Settle(r: Row, tier: CapacityTier, k: nat, refunded: bool): Row {
    if r.cut || k >= |UseOf(r, tier).jobs| then r
    else WithUse(r, tier, UseOf(r, tier).Settle(k, refunded))
  }

  lemma ReserveSound(r: Row, tier: CapacityTier, hold: real, estimatedHours: real)
    requires Sound(r)
    ensures Sound(Reserve(r, tier, hold, estimatedHours)) && Reserve(r, tier, hold, estimatedHours).Account() == r.Account()
  {
    hide TierUse.Reserve, TierUse.Used, TierUse.Observed, TierUse.Overrun, TierUse.Valid;
    if !(r.cut || r.finished || !IsHold(hold, estimatedHours) || hold > r.Q().Remaining(tier)) {
      var j := Job(hold, estimatedHours, 0.0, false);
      UseBounds(r.useG);
      UseBounds(r.useB);
      ReserveUse(UseOf(r, tier), j);
    }
  }

  /** A job that holds anything is admitted exactly when its agent was not cut and did not finish, and it
      fits the tier's hours and the share; and then it is the last of its tier's jobs, nothing spent. */
  lemma ReserveAdmits(r: Row, tier: CapacityTier, hold: real, estimatedHours: real)
    requires hold > 0.0 && estimatedHours > 0.0
    ensures var after, u := Reserve(r, tier, hold, estimatedHours), UseOf(r, tier);
            var fits := hold <= r.Share() - r.Q().Used()
                        && hold <= (if tier.CapacityGuaranteed? then r.guaranteed else r.burst) - u.Used();
            after == if !r.cut && !r.finished && fits
                     then WithUse(r, tier, u.(jobs := u.jobs + [Job(hold, estimatedHours, 0.0, false)])) else r
  {
    hide TierUse.Used, AgentQuota.Remaining;
    RemainingExactly(r.Q(), tier, hold);
  }

  lemma ObserveSound(r: Row, tier: CapacityTier, k: nat, hours: real)
    requires Sound(r)
    ensures Sound(Observe(r, tier, k, hours)) && Observe(r, tier, k, hours).Account() == r.Account()
  {
    hide TierUse.Observe, TierUse.Used, TierUse.Observed, TierUse.Overrun, TierUse.Valid;
    if !(r.cut || k >= |UseOf(r, tier).jobs| || hours < UseOf(r, tier).jobs[k].hours) {
      ObserveUse(UseOf(r, tier), k, hours);
    }
  }

  lemma SettleSound(r: Row, tier: CapacityTier, k: nat, refunded: bool)
    requires Sound(r)
    ensures Sound(Settle(r, tier, k, refunded)) && Settle(r, tier, k, refunded).Account() == r.Account()
  {
    hide TierUse.Settle, TierUse.Used, TierUse.Observed, TierUse.Overrun, TierUse.Valid;
    if !(r.cut || k >= |UseOf(r, tier).jobs|) {
      SettleUse(UseOf(r, tier), k, refunded);
    }
  }

  // ----- the check of a quota -------------------------------------------------------------------

  const TOLERANCE: real := 0.000001

  /** Whether observed use has reached a budget; one of nothing is none to reach. */
  predicate Exhausts(budget: real, used: real) { budget > 0.0 && used >= budget - TOLERANCE }

  /** Once an agent spent its share every job of its ends at what it cost, and once it spent a tier's
      hours every job of that tier. */
  function Check(r: Row): Row {
    if r.cut then r
    else
      var all := Exhausts(r.Share(), r.Spent());
      var useG := if all || Exhausts(r.guaranteed, r.useG.Observed()) then r.useG.SettleAll() else r.useG;
      var useB := if all || Exhausts(r.burst, r.useB.Observed()) then r.useB.SettleAll() else r.useB;
      r.(useG := useG, useB := useB, watch := r.watch.(since := if r.Share() > 0.0 then 0.0 else r.watch.since))
  }

  lemma CheckSound(r: Row)
    requires Sound(r)
    ensures Sound(Check(r)) && Check(r).Account() == r.Account()
  {
    hide TierUse.Used, TierUse.Observed, TierUse.Overrun, TierUse.Valid, TierUse.SettleAll, Exhausts;
    UseBounds(r.useG);
    UseBounds(r.useB);
    SettleAllUse(r.useG);
    SettleAllUse(r.useB);
  }

  // ----- a late join takes ----------------------------------------------------------------------

  /** What of an amount taken the row's jobs still hold: what passes its share less the admission's
      count. */
  function Overtake(r: Row, amount: real): real { Max(0.0, amount - Max(0.0, r.Share() - r.Q().Used())) }

  /** The write that takes an amount of a row's share: from the column the share is in. */
  function Taken(r: Row, amount: real): Row {
    var after := if r.guaranteed > 0.0 then r.(guaranteed := Max(0.0, r.guaranteed - amount))
                 else r.(burst := Max(0.0, r.burst - amount));
    after.(overtaken := r.overtaken + Overtake(r, amount))
  }

  /** The burst hours that become a row's share when its last guaranteed hour is taken. */
  function DrainGain(r: Row, amount: real): real {
    if r.guaranteed > 0.0 && amount == r.guaranteed then r.burst else 0.0
  }

  lemma UnspentWithinShare(r: Row)
    requires r.useG.Valid() && r.useB.Valid() && r.guaranteed >= 0.0 && r.burst >= 0.0
    ensures r.AsExecutorQuota().Unspent() <= r.Share()
  {
    hide TierUse.Seen, TierUse.Used, TierUse.Valid;
    SeenBounds(r.useG);
    SeenBounds(r.useB);
  }

  lemma TakenSound(r: Row, amount: real)
    requires Sound(r) && !r.cut && 0.0 <= amount <= r.AsExecutorQuota().Unspent()
    ensures Sound(Taken(r, amount)) && Taken(r, amount).Account() == r.Account() - amount + DrainGain(r, amount)
    ensures DrainGain(r, amount) >= 0.0
  {
    hide TierUse.Seen, TierUse.Used, TierUse.Observed, TierUse.Overrun, TierUse.Valid;
    UseBounds(r.useG);
    UseBounds(r.useB);
    UnspentWithinShare(r);
  }

  /** A join can take hours of a row that its jobs hold exactly when it counts less of the row than
      admission does, and less than its share. What it takes leaves the row within its share, as
      admission counts, exactly when it is no more than the share exceeds that count by. A row whose
      last guaranteed hour is taken is another matter (DrainedExactly). */
  lemma TakenWithinShare(r: Row, amount: real)
    requires Sound(r) && !r.cut && 0.0 <= amount <= r.AsExecutorQuota().Unspent() && DrainGain(r, amount) == 0.0
    ensures Overtake(r, r.AsExecutorQuota().Unspent()) > 0.0 <==> r.Seen() < r.Q().Used() && r.Seen() < r.Share()
    ensures var after := Taken(r, amount);
            && (after.Q().Used() <= after.Share() <==> amount <= r.Share() - r.Q().Used())
            && (r.Q().Used() <= r.Share() ==> (after.overtaken == r.overtaken <==> after.Q().Used() <= after.Share()))
  {
    hide TierUse.Seen, TierUse.Used, TierUse.Observed, TierUse.Overrun, TierUse.Valid;
    UnspentWithinShare(r);
  }

  /** A join takes nothing that is held from a row none of whose running jobs has cost less than it
      holds. */
  lemma NothingOvertaken(r: Row, amount: real)
    requires Sound(r) && !r.cut && 0.0 <= amount <= r.AsExecutorQuota().Unspent()
    requires forall i :: 0 <= i < |r.useG.jobs| && r.useG.jobs[i].running ==> r.useG.jobs[i].Cost() >= r.useG.jobs[i].hold
    requires forall i :: 0 <= i < |r.useB.jobs| && r.useB.jobs[i].running ==> r.useB.jobs[i].Cost() >= r.useB.jobs[i].hold
    ensures Taken(r, amount).overtaken == r.overtaken
  {
    hide TierUse.Seen, TierUse.Used, TierUse.Observed, TierUse.Overrun, TierUse.Valid;
    SeenBounds(r.useG);
    SeenBounds(r.useB);
  }

  // ----- a boundary credits and cuts ------------------------------------------------------------

  function Credited(r: Row, credit: real): Row {
    if r.tier.TierGuaranteed? then
      r.(guaranteed := r.guaranteed + credit, lost := r.lost + if r.guaranteed == 0.0 then r.burst else 0.0)
    else r.(burst := r.burst + credit)
  }

  /** What a boundary measures a cut agent by: the hours of its tier's column, and what was spent of
      that column alone. */
  function Measured(r: Row): (real, real) {
    if r.tier.TierGuaranteed? then (r.guaranteed, r.useG.Observed()) else (r.burst, r.useB.Observed())
  }

  /** What the boundary hands on of a cut agent's share. */
  function Returned(r: Row): real { Max(0.0, Measured(r).0 - Measured(r).1) }

  /** A cut agent's row is zeroed and its jobs are stopped, each billed what it cost. */
  function CutOff(r: Row): Row {
    r.(guaranteed := 0.0, burst := 0.0, useG := r.useG.SettleAll(), useB := r.useB.SettleAll(), cut := true,
       kept := r.Share() - Returned(r),
       stray := r.stray + if r.tier.TierGuaranteed? && r.guaranteed > 0.0 then r.useB.Observed() else 0.0,
       watch := r.watch.(passed := Max(0.0, r.Spent() - r.Account())))
  }

  lemma CreditedSound(r: Row, credit: real)
    requires Sound(r) && !r.cut && credit > 0.0
    ensures Sound(Credited(r, credit)) && Credited(r, credit).Account() == r.Account() + credit
  {
    hide TierUse.Used, TierUse.Observed, TierUse.Overrun, TierUse.Valid;
    UseBounds(r.useG);
    UseBounds(r.useB);
  }

  lemma CutOffSound(r: Row)
    requires Sound(r) && !r.cut
    ensures Sound(CutOff(r)) && CutOff(r).Account() == r.Account() - Returned(r)
    ensures Returned(r) >= 0.0
  {
    hide TierUse.Used, TierUse.Observed, TierUse.Overrun, TierUse.Valid, TierUse.SettleAll;
    UseBounds(r.useG);
    UseBounds(r.useB);
    SettleAllUse(r.useG);
    SettleAllUse(r.useB);
  }

  /** No row, live or cut, has spent more than it is accounted for, what the boundary missed, what
      joins took of its jobs' holds and what its jobs overran. */
  lemma SpentWithinAccount(r: Row)
    requires Sound(r)
    ensures r.Spent() <= r.Account() + r.stray + r.overtaken + r.Overrun()
  {
    hide TierUse.Used, TierUse.Observed, TierUse.Overrun, TierUse.Valid;
    UseBounds(r.useG);
    UseBounds(r.useB);
  }
}
