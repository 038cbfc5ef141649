/** The failure search run on the two POV strategies: what it can and cannot find. */
module PovSearch {
  import opened PovHarness
  import opened FragilePov
  import opened FragileOverstep
  import opened PovEvaluation
  import opened Minimizer

  datatype Metric = Completion | Shortfall | ParticipationRate | HaltOrders | Remaining

  datatype Property = Property(metric: Metric, atLeast: bool, threshold: real)

  const STEPS: nat := 20

  function Measured(report: Report, metric: Metric): real {
    match metric
    case Completion => report.completion
    case Shortfall => report.shortfall
    case ParticipationRate => report.participation
    case HaltOrders => report.halt
    case Remaining => report.remaining
  }

  predicate Holds(prop: Property, report: Report) {
    if prop.atLeast then Measured(report, prop.metric) >= prop.threshold
    else Measured(report, prop.metric) <= prop.threshold
  }

  predicate PassesAll(props: seq<Property>, report: Report) {
    forall i :: 0 <= i < |props| ==> Holds(props[i], report)
  }

  /** The failure searched for: some participation property does not hold. */
  predicate TargetFails(props: seq<Property>, report: Report) {
    exists i :: 0 <= i < |props| && props[i].metric == ParticipationRate && !Holds(props[i], report)
  }

  predicate Searched(props: seq<Property>) {
    exists i :: 0 <= i < |props| && props[i].metric == ParticipationRate
  }

  function ScenarioAt(p: Point): Scenario {
    Scenario(p.liquidity as real / 100.0, 1.0, p.latencyMs, p.forced as real, 1.0, 1.0)
  }

  function ReportAt(st: Strategy, p: Point, seed: nat): Report
    requires 0.0 < st.quantity
  {
    ReportOf(SetupFor(st, ScenarioAt(p), seed), ScenarioAt(p), STEPS)
  }

  function CountFailures(st: Strategy, props: seq<Property>, p: Point, seeds: seq<nat>): nat
    requires 0.0 < st.quantity
  {
    if seeds == [] then 0
    else (if TargetFails(props, ReportAt(st, p, seeds[0])) then 1 else 0) + CountFailures(st, props, p, seeds[1..])
  }

  predicate AllSeedsPass(st: Strategy, props: seq<Property>, p: Point, seeds: seq<nat>)
    requires 0.0 < st.quantity
  {
    forall i :: 0 <= i < |seeds| ==> PassesAll(props, ReportAt(st, p, seeds[i]))
  }

  function Seeds(quick: bool): seq<nat> {
    if quick then [41, 42, 43] else [41, 42, 43, 44, 45, 46, 47, 48]
  }

  function Required(quick: bool): nat { if quick then 2 else 6 }

  /** Every participation property allows at least `percent`, as it is reported. */
  predicate Allows(props: seq<Property>, percent: real) {
    forall i :: 0 <= i < |props| && props[i].metric == ParticipationRate ==>
      !props[i].atLeast && Rounded(percent) <= props[i].threshold
  }

  lemma {:induction false} NoFailures(st: Strategy, props: seq<Property>, p: Point, seeds: seq<nat>)
    requires 0.0 < st.quantity
    requires forall i :: 0 <= i < |seeds| ==> !TargetFails(props, ReportAt(st, p, seeds[i]))
    ensures CountFailures(st, props, p, seeds) == 0
  {
    if seeds != [] {
      NoFailures(st, props, p, seeds[1..]);
    }
  }

  lemma Percent(part: real, cap: real)
    requires part <= cap
    ensures part * 100.0 <= cap * 100.0
  {
  }

  lemma WithinPercent(st: Strategy, props: seq<Property>, p: Point, seed: nat, percent: real)
    requires 0.0 < st.quantity && Allows(props, percent)
    requires MaxParticipation(SetupFor(st, ScenarioAt(p), seed), STEPS) <= percent / 100.0
    ensures !TargetFails(props, ReportAt(st, p, seed))
  {
    var part := MaxParticipation(SetupFor(st, ScenarioAt(p), seed), STEPS);
    Percent(part, percent / 100.0);
    RoundingIsMonotone(part * 100.0, percent);
  }

  /** The corrected strategy never fails a participation property that allows its own cap. */
  lemma CorrectedNeverFails(st: Strategy, props: seq<Property>, p: Point, seeds: seq<nat>)
    requires 0.0 < st.quantity && !st.fragile && 0.0 <= st.maxParticipation && Allows(props, st.maxParticipation)
    ensures CountFailures(st, props, p, seeds) == 0
  {
    forall i | 0 <= i < |seeds|
      ensures !TargetFails(props, ReportAt(st, p, seeds[i]))
    {
      var s := SetupFor(st, ScenarioAt(p), seeds[i]);
      ScenariosAreWellFormed(st, ScenarioAt(p), seeds[i]);
      ParticipationWithinCap(s, STEPS);
      WithinPercent(st, props, p, seeds[i], st.maxParticipation);
    }
    NoFailures(st, props, p, seeds);
  }

  /** Without forced selling neither does the fragile one. */
  lemma FragileNeedsForcedSelling(st: Strategy, props: seq<Property>, p: Point, seeds: seq<nat>)
    requires 0.0 < st.quantity && st.fragile && 0.0 <= st.maxParticipation && Allows(props, st.maxParticipation)
    requires p.forced == 0
    ensures CountFailures(st, props, p, seeds) == 0
  {
    forall i | 0 <= i < |seeds|
      ensures !TargetFails(props, ReportAt(st, p, seeds[i]))
    {
      FragileInScenario(st, ScenarioAt(p), seeds[i], STEPS);
      WithinPercent(st, props, p, seeds[i], st.maxParticipation);
    }
    NoFailures(st, props, p, seeds);
  }

  /** A property that leaves a third of slack is never failed by either. */
  lemma FragileWithinThird(st: Strategy, props: seq<Property>, p: Point, seeds: seq<nat>)
    requires 0.0 < st.quantity && st.fragile && 0.0 <= st.maxParticipation
    requires Allows(props, st.maxParticipation / 0.75)
    ensures CountFailures(st, props, p, seeds) == 0
  {
    forall i | 0 <= i < |seeds|
      ensures !TargetFails(props, ReportAt(st, p, seeds[i]))
    {
      FragileInScenario(st, ScenarioAt(p), seeds[i], STEPS);
      assert (st.maxParticipation / 100.0) / 0.75 == (st.maxParticipation / 0.75) / 100.0;
      WithinPercent(st, props, p, seeds[i], st.maxParticipation / 0.75);
    }
    NoFailures(st, props, p, seeds);
  }

  /** No scenario at all can fail the strategy's participation properties. */
  predicate Safe(st: Strategy, props: seq<Property>) {
    && 0.0 <= st.maxParticipation
    && (Allows(props, st.maxParticipation / 0.75) || (!st.fragile && Allows(props, st.maxParticipation)))
  }

  lemma SafeNeverFails(st: Strategy, props: seq<Property>, p: Point, seeds: seq<nat>)
    requires 0.0 < st.quantity && Safe(st, props)
    ensures CountFailures(st, props, p, seeds) == 0
  {
    if st.fragile {
      FragileWithinThird(st, props, p, seeds);
    } else {
      CorrectedNeverFails(st, props, p, seeds);
    }
  }

  // ----- exactly when the fragile strategy fails

  /** The participation properties all ask for at most `percent`. */
  predicate AsksFor(props: seq<Property>, percent: nat) {
    Searched(props) && forall i :: 0 <= i < |props| && props[i].metric == ParticipationRate ==>
      !props[i].atLeast && props[i].threshold == percent as real
  }

  /** The share above which the reported participation exceeds `percent`. */
  function LevelOf(percent: nat): real { (percent as real + 0.005) / 100.0 }

  lemma ReportedAbove(part: real, percent: nat)
    ensures percent as real < Rounded(part * 100.0) <==> LevelOf(percent) < part
  {
    RoundsWithin(part * 100.0, percent);
  }

  /** On one seed, the fragile strategy fails properties that allow its cap if and only if the
      scenario lets it overstep their threshold. */
  lemma FragileFailsExactly(st: Strategy, props: seq<Property>, percent: nat, p: Point, seed: nat)
    requires st.fragile && 0.0 < st.quantity && 0.0 <= st.maxParticipation <= percent as real
    requires AsksFor(props, percent)
    ensures TargetFails(props, ReportAt(st, p, seed))
       <==> Oversteps(st, ScenarioAt(p), seed, LevelOf(percent), STEPS)
  {
    OverstepsInScenarioExactly(st, ScenarioAt(p), seed, LevelOf(percent), STEPS);
    ReportedAbove(MaxParticipation(SetupFor(st, ScenarioAt(p), seed), STEPS), percent);
    var i :| 0 <= i < |props| && props[i].metric == ParticipationRate;
    assert !Holds(props[i], ReportAt(st, p, seed))
      <==> percent as real < ReportAt(st, p, seed).participation;
  }

  function CountOversteps(st: Strategy, percent: nat, p: Point, seeds: seq<nat>): nat {
    if seeds == [] then 0
    else
      (if Oversteps(st, ScenarioAt(p), seeds[0], LevelOf(percent), STEPS) then 1 else 0)
      + CountOversteps(st, percent, p, seeds[1..])
  }

  lemma {:induction false} FailuresAreOversteps(st: Strategy, props: seq<Property>, percent: nat, p: Point,
                                                seeds: seq<nat>)
    requires st.fragile && 0.0 < st.quantity && 0.0 <= st.maxParticipation <= percent as real
    requires AsksFor(props, percent)
    ensures CountFailures(st, props, p, seeds) == CountOversteps(st, percent, p, seeds)
  {
    if seeds != [] {
      FragileFailsExactly(st, props, percent, p, seeds[0]);
      FailuresAreOversteps(st, props, percent, p, seeds[1..]);
    }
  }

  // ----- the search

  /** The failure count the search is run on. */
  function Failures(st: Strategy, props: seq<Property>, quick: bool): Count
    requires 0.0 < st.quantity
  {
    p => CountFailures(st, props, p, Seeds(quick))
  }

  /** Only forced selling can make the strategy fail. */
  predicate NeedsForcedSelling(st: Strategy, props: seq<Property>) {
    0.0 <= st.maxParticipation && st.fragile && Allows(props, st.maxParticipation)
  }

  function Passing(st: Strategy, props: seq<Property>, quick: bool): Point -> bool
    requires 0.0 < st.quantity
  {
    p => AllSeedsPass(st, props, p, Seeds(quick))
  }

  /** The search over a strategy. It finds nothing against the corrected strategy, and against the
      fragile one it finds nothing exactly when no candidate lets it overstep on enough seeds; what
      it finds there needs forced selling, wherever the participation properties allow the cap. */
  method RunSearch(st: Strategy, props: seq<Property>, quick: bool) returns (outcome: Outcome)
    requires 0.0 < st.quantity
    ensures Explained(Failures(st, props, quick), Passing(st, props, quick), Required(quick), Searched(props), outcome)
    ensures Searched(props) && Safe(st, props) ==> outcome.NoFailure?
    ensures outcome.Found? && NeedsForcedSelling(st, props) ==> outcome.minimized.forced == outcome.original.forced > 0
    ensures forall percent: nat ::
              AsksFor(props, percent) && st.fragile && 0.0 <= st.maxParticipation <= percent as real ==>
                (outcome.NoFailure? <==>
                   forall p :: IsCandidate(p) ==> CountOversteps(st, percent, p, Seeds(quick)) < Required(quick))
  {
    var failures := Failures(st, props, quick);
    outcome := Search(failures, Passing(st, props, quick), Required(quick), Searched(props));
    if Safe(st, props) {
      forall p: Point
        ensures failures(p) == 0
      {
        SafeNeverFails(st, props, p, Seeds(quick));
      }
    }
    if outcome.Found? && NeedsForcedSelling(st, props) {
      ForcedStays(st, props, quick, outcome.original, outcome.minimized);
    }
    forall percent: nat, p: Point
      | AsksFor(props, percent) && st.fragile && 0.0 <= st.maxParticipation <= percent as real
      ensures failures(p) == CountOversteps(st, percent, p, Seeds(quick))
    {
      FailuresAreOversteps(st, props, percent, p, Seeds(quick));
    }
  }

  lemma ForcedStays(st: Strategy, props: seq<Property>, quick: bool, original: Point, p: Point)
    requires 0.0 < st.quantity && NeedsForcedSelling(st, props)
    requires var failures := Failures(st, props, quick);
             && Minimized(original, failures, Required(quick), p)
             && Required(quick) <= failures(original)
    ensures p.forced == original.forced > 0
  {
    if original.forced == 0 { FragileNeedsForcedSelling(st, props, original, Seeds(quick)); }
    FragileNeedsForcedSelling(st, props, p.(forced := 0), Seeds(quick));
    assert original.(liquidity := p.liquidity).(latencyMs := p.latencyMs).(forced := 0) == p.(forced := 0);
  }
}
