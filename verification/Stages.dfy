/** The elimination ladder of a run: its stages, the boundaries between them and the run's clock. */
module Stages {
  import opened Hours
  import opened Sums

  const MAX_STAGES := 8
  const MIN_EXECUTORS_FOR_CUT := 5

  datatype Stage = Stage(lengthPct: real, evictPct: real, maxJobHours: real) {
    function ReleaseFrac(): real { lengthPct / 100.0 }
  }

  function Lengths(stages: seq<Stage>): seq<real> {
    seq(|stages|, i requires 0 <= i < |stages| => stages[i].lengthPct)
  }

  ghost predicate ValidStage(s: Stage) {
    s.lengthPct > 0.0 && 0.0 <= s.evictPct < 100.0 && s.maxJobHours >= 0.0
  }

  ghost predicate ValidLadder(stages: seq<Stage>) {
    && 1 <= |stages| <= MAX_STAGES
    && (forall i :: 0 <= i < |stages| ==> ValidStage(stages[i]))
    && 99.999 <= Sum(Lengths(stages)) <= 100.001
    && stages[|stages| - 1].evictPct == 0.0
  }

  method ValidateStages(stages: seq<Stage>) returns (ok: bool)
    ensures ok <==> ValidLadder(stages)
  {
    if |stages| == 0 || |stages| > MAX_STAGES {
      return false;
    }
    var total := 0.0;
    for i := 0 to |stages|
      invariant total == Sum(Lengths(stages)[..i])
      invariant forall j :: 0 <= j < i ==> ValidStage(stages[j])
    {
      var s := stages[i];
      if s.lengthPct <= 0.0 || s.evictPct < 0.0 || s.evictPct >= 100.0 || s.maxJobHours < 0.0 {
        assert !ValidStage(stages[i]);
        return false;
      }
      SumPrefix(Lengths(stages), i);
      total := total + s.lengthPct;
    }
    assert Lengths(stages)[..|stages|] == Lengths(stages);
    if total < 99.999 || total > 100.001 {
      return false;
    }
    ok := stages[|stages| - 1].evictPct == 0.0;
  }

  /** The progress at which stage index, from 1, ends. */
  function Boundary(stages: seq<Stage>, index: nat): real {
    Sum(Lengths(stages)[..if index < |stages| then index else |stages|]) / 100.0
  }

  method BoundaryProgress(stages: seq<Stage>, index: nat) returns (progress: real)
    ensures progress == Boundary(stages, index)
  {
    var cum, i := 0.0, 0;
    while i < index && i < |stages|
      invariant i <= index && i <= |stages| && cum == Sum(Lengths(stages)[..i])
    {
      SumPrefix(Lengths(stages), i);
      cum := cum + stages[i].lengthPct;
      i := i + 1;
    }
    progress := cum / 100.0;
  }

  /** Each boundary is the one before it and what the stage between them releases. */
  lemma BoundaryStep(stages: seq<Stage>, k: nat)
    requires k < |stages|
    ensures Boundary(stages, k + 1) == Boundary(stages, k) + stages[k].ReleaseFrac()
  {
    SumPrefix(Lengths(stages), k);
  }

  /** On a valid ladder the boundaries rise strictly, from nothing to the whole run within a
      hundred-thousandth, so a run releases its whole budget and no more than that above it. */
  lemma {:induction false} BoundariesRise(stages: seq<Stage>, j: nat, k: nat)
    requires ValidLadder(stages) && j <= k <= |stages|
    ensures Boundary(stages, j) <= Boundary(stages, k)
    ensures j < k ==> Boundary(stages, j) < Boundary(stages, k)
    ensures Boundary(stages, 0) == 0.0
    ensures 0.99999 <= Boundary(stages, |stages|) <= 1.00001
    decreases k - j
  {
    if j < k {
      BoundariesRise(stages, j, k - 1);
      BoundaryStep(stages, k - 1);
    } else {
      assert Lengths(stages)[..|stages|] == Lengths(stages);
    }
  }

  /** The ladder a run of this many executors is started with. */
  function RunStages(stages: seq<Stage>, executors: int): seq<Stage> {
    if executors >= MIN_EXECUTORS_FOR_CUT || |stages| == 0 then stages
    else [Stage(100.0, 0.0, stages[|stages| - 1].maxJobHours)]
  }

  /** A run's ladder is valid when the one it was made from is, and in a field no boundary can cut
      from it has one stage, which no boundary ends before the run and which cuts nobody. */
  lemma RunStagesValid(stages: seq<Stage>, executors: int)
    requires ValidLadder(stages)
    ensures ValidLadder(RunStages(stages, executors))
    ensures executors >= MIN_EXECUTORS_FOR_CUT ==> RunStages(stages, executors) == stages
    ensures executors < MIN_EXECUTORS_FOR_CUT ==>
              && |RunStages(stages, executors)| == 1 && Boundary(RunStages(stages, executors), 1) == 1.0
              && RunStages(stages, executors)[0].evictPct == 0.0
              && RunStages(stages, executors)[0].maxJobHours == stages[|stages| - 1].maxJobHours
  {
    if executors < MIN_EXECUTORS_FOR_CUT {
      var one := RunStages(stages, executors);
      assert Lengths(one) == [100.0];
      assert Sum(Lengths(one)) == Sum([]) + 100.0 by { SumAppend([], 100.0); }
      assert Lengths(one)[..1] == Lengths(one);
    }
  }

  // ----- the clock ------------------------------------------------------------------------------

  /** A moment, in nanoseconds; unset is Go's zero time. */
  datatype Time = Unset | At(ns: int)

  function TimeProgress(startedAt: Time, endsAt: Time, now: int): real {
    if startedAt.At? && endsAt.At? && endsAt.ns - startedAt.ns > 0
    then (now - startedAt.ns) as real / (endsAt.ns - startedAt.ns) as real else 0.0
  }

  function StageProgress(consumed: real, budget: real, startedAt: Time, endsAt: Time, now: int): real {
    Min(1.0, Max(TimeProgress(startedAt, endsAt, now), if budget > 0.0 then consumed / budget else 0.0))
  }

  lemma DivMonotone(a: real, b: real, c: real)
    requires a <= b && c > 0.0
    ensures a / c <= b / c
  {
  }

  /** The clock driving the ladder never runs backwards. */
  lemma StageProgressMonotone(consumed: real, consumed': real, budget: real, startedAt: Time, endsAt: Time,
                              now: int, now': int)
    requires consumed <= consumed' && now <= now'
    ensures StageProgress(consumed, budget, startedAt, endsAt, now)
         <= StageProgress(consumed', budget, startedAt, endsAt, now')
  {
    if budget > 0.0 { DivMonotone(consumed, consumed', budget); }
    if startedAt.At? && endsAt.At? && endsAt.ns > startedAt.ns {
      DivMonotone((now - startedAt.ns) as real, (now' - startedAt.ns) as real, (endsAt.ns - startedAt.ns) as real);
    }
  }

  /** A boundary of at most the whole run is reached exactly when that part of the run's time has passed,
      or that part of its budget was consumed. */
  lemma ProgressReaches(consumed: real, budget: real, startedAt: Time, endsAt: Time, now: int, boundary: real)
    requires 0.0 < boundary <= 1.0
    ensures StageProgress(consumed, budget, startedAt, endsAt, now) >= boundary <==>
            || (startedAt.At? && endsAt.At? && startedAt.ns < endsAt.ns
                && (now - startedAt.ns) as real >= boundary * (endsAt.ns - startedAt.ns) as real)
            || (budget > 0.0 && consumed >= boundary * budget)
  {
    if budget > 0.0 { QuotientAtLeast(consumed, boundary, budget); }
    if startedAt.At? && endsAt.At? && startedAt.ns < endsAt.ns {
      QuotientAtLeast((now - startedAt.ns) as real, boundary, (endsAt.ns - startedAt.ns) as real);
    }
  }

  /** When stage index ends by the clock: the boundary's part of the run past its start, in whole
      nanoseconds (the conversion drops the fraction of one; no boundary is negative). */
  function StageEndsAt(stages: seq<Stage>, index: nat, startedAt: Time, endsAt: Time): Time
    requires endsAt.At?
  {
    if startedAt.Unset? then Unset
    else At(startedAt.ns + Product(Boundary(stages, index), (endsAt.ns - startedAt.ns) as real).Floor)
  }

  /** With nothing consumed, the clock is short of a boundary before the moment StageEndsAt names
      and has reached it after; at that moment it has exactly when the boundary falls on a whole
      nanosecond. A boundary above 1 is never reached. */
  lemma StageEndsAtIsTheMoment(stages: seq<Stage>, index: nat, budget: real, start: int, end: int, now: int)
    requires start < end && Boundary(stages, index) > 0.0
    ensures var b := Boundary(stages, index);
            var reached := StageProgress(0.0, budget, At(start), At(end), now) >= b;
            var ends := StageEndsAt(stages, index, At(start), At(end)).ns;
            && (b > 1.0 || now < ends ==> !reached)
            && (b <= 1.0 && now > ends ==> reached)
            && (b <= 1.0 && now == ends ==> (reached <==> (ends - start) as real == Product(b, (end - start) as real)))
  {
    var b, w := Boundary(stages, index), (end - start) as real;
    hide Boundary, Sum, Lengths;
    var elapsed := (now - start) as real;
    if budget > 0.0 { DivUnique(0.0, budget, 0.0); }
    assert elapsed / w >= b <==> elapsed >= Product(b, w) by { QuotientAtLeast(elapsed, b, w); }
  }

  // ----- what a boundary hands on ---------------------------------------------------------------

  /** What an agent cut left unspent of what it was allocated, nothing for one that overspent. */
  function LeftBy(given: map<string, real>, used: map<string, real>, agent: string): real
    requires agent in given
  {
    Max(0.0, given[agent] - if agent in used then used[agent] else 0.0)
  }

  /** What the agents cut left together. */
  ghost function LeftByAll(given: map<string, real>, used: map<string, real>): real {
    if given == map[] then 0.0
    else var agent :| agent in given; LeftBy(given, used, agent) + LeftByAll(given - {agent}, used)
  }

  /** The sum does not depend on the order a map is read in. */
  lemma {:induction false} LeftByAny(given: map<string, real>, used: map<string, real>, agent: string)
    requires agent in given
    ensures LeftByAll(given, used) == LeftBy(given, used, agent) + LeftByAll(given - {agent}, used)
    decreases |given|
  {
    var first :| first in given
      && LeftByAll(given, used) == LeftBy(given, used, first) + LeftByAll(given - {first}, used);
    if first != agent {
      LeftByAny(given - {first}, used, agent);
      LeftByAny(given - {agent}, used, first);
      assert given - {first} - {agent} == given - {agent} - {first};
      assert LeftBy(given - {first}, used, agent) == LeftBy(given, used, agent);
      assert LeftBy(given - {agent}, used, first) == LeftBy(given, used, first);
    }
  }

  lemma NothingLeft(used: map<string, real>)
    ensures LeftByAll(map[], used) == 0.0
  {
  }

  ghost function Credit(m: Rounding, budget: real, releaseFrac: real, given: map<string, real>,
                        used: map<string, real>, survivors: nat): real
    requires survivors > 0
  {
    Round(m, (Product(budget, releaseFrac) + LeftByAll(given, used)) / survivors as real)
  }

  /** StageCredit: what each survivor of a boundary is given, read in any order of the map. */
  method StageCredit(m: Rounding, budget: real, releaseFrac: real, allocatedByCut: map<string, real>,
                     usedByCut: map<string, real>, survivors: nat) returns (credit: real)
    requires survivors > 0
    ensures credit == Credit(m, budget, releaseFrac, allocatedByCut, usedByCut, survivors)
  {
    hide LeftByAll, Product, Round;
    NothingLeft(usedByCut);
    var release, unread := Product(budget, releaseFrac), allocatedByCut;
    while unread != map[]
      invariant unread.Keys <= allocatedByCut.Keys
      invariant forall agent :: agent in unread ==> unread[agent] == allocatedByCut[agent]
      invariant release + LeftByAll(unread, usedByCut)
             == Product(budget, releaseFrac) + LeftByAll(allocatedByCut, usedByCut)
      decreases |unread|
    {
      var agent :| agent in unread;
      var unspent := unread[agent] - if agent in usedByCut then usedByCut[agent] else 0.0;
      LeftByAny(unread, usedByCut, agent);
      if unspent > 0.0 {
        release := release + unspent;
      }
      unread := unread - {agent};
    }
    credit := Round(m, release / survivors as real);
  }

  /** What a boundary credits the survivors together is what it releases and what the cut left, to
      one rounding for each survivor. */
  lemma CreditConserves(m: Rounding, budget: real, releaseFrac: real, given: map<string, real>,
                        used: map<string, real>, survivors: nat)
    requires survivors > 0
    ensures var total := Product(budget, releaseFrac) + LeftByAll(given, used);
            var credit := Credit(m, budget, releaseFrac, given, used, survivors);
            -Times(survivors, Delta(m)) <= Times(survivors, credit) - total <= Times(survivors, Delta(m))
            && (total >= 0.0 ==> credit >= 0.0)
  {
    var total := Product(budget, releaseFrac) + LeftByAll(given, used);
    DivMul(total, survivors as real);
    RoundNear(m, total / survivors as real);
    var credit := Credit(m, budget, releaseFrac, given, used, survivors);
    hide *;
    TimesAtMost(survivors, total, credit, Delta(m));
    TimesAtLeast(survivors, total, credit, Delta(m));
  }
}
