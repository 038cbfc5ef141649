/** The tutorial as shipped: the search run on the fragile strategy with its default parameters and
    the default properties. */
module TutorialDefect {
  import opened PovHarness
  import opened PovEvaluation
  import opened FragilePov
  import opened FragileOverstep
  import opened PovThroughput
  import opened Minimizer
  import opened PovSearch

  const TUTORIAL: Strategy := Strategy(true, 50000.0, 10.0, 10)

  const DEFAULT_PROPERTIES: seq<Property> := [
    Property(Completion, true, 95.0), Property(Shortfall, false, 20.0), Property(ParticipationRate, false, 12.0),
    Property(HaltOrders, false, 0.0), Property(Remaining, false, 5.0)
  ]

  // ----- with forced selling it always fails

  predicate Stressed(p: Point) {
    p.liquidity in [90, 100] && p.latencyMs in [10, 20, 30, 40] && p.forced in [500, 5000]
  }

  /** Displayed volume of the liquid scenarios, before thinning. */
  lemma LiquidVolume(p: Point, seed: nat)
    requires p.liquidity in [90, 100]
    ensures var x, sc := BaseVolume(seed) * ScenarioAt(p).liquidity, ScenarioAt(p);
            27000.0 <= x <= 31800.0 && CalmVolume(sc, seed) == x && ThinVolume(sc, seed) == 0.75 * x
  {
    var base := BaseVolume(seed);
    assert 30000.0 <= base <= 31800.0;
    if p.liquidity == 90 {
      assert ScenarioAt(p).liquidity == 0.9;
    } else {
      assert ScenarioAt(p).liquidity == 1.0;
    }
    assert base * (ScenarioAt(p).liquidity * 0.75) == 0.75 * (base * ScenarioAt(p).liquidity);
  }

  /** The forced flow of a stressed scenario is small beside the thinned volume. */
  lemma StressedRoom(p: Point, seed: nat)
    requires Stressed(p)
    ensures var x, sc := BaseVolume(seed) * ScenarioAt(p).liquidity, ScenarioAt(p);
            && Portion(LevelOf(12), ThinVolume(sc, seed)) == 0.0900375 * x
            && 0.6 * x - 500.0 <= Room(sc, seed, 9)
            && FirstThin(sc) == Opening(sc, seed, LevelOf(12)) == 9
  {
    LiquidVolume(p, seed);
    assert ScenarioAt(p).forcedSeller <= 5000.0;
  }

  lemma StressedUse(p: Point, seed: nat)
    requires Stressed(p)
    ensures var x, sc := BaseVolume(seed) * ScenarioAt(p).liquidity, ScenarioAt(p);
            && CalmSlice(TUTORIAL, sc, seed) == 0.1 * x
            && UsedBefore(TUTORIAL, sc, seed, LevelOf(12)) <= 25440.0
  {
    var sc := ScenarioAt(p);
    LiquidVolume(p, seed);
    StressedRoom(p, seed);
    EightSlices(9 - LatencySteps(sc.latencyMs), CalmFlow(TUTORIAL, sc, seed));
    assert Multiple(0, Room(sc, seed, 9)) == 0.0;
  }

  lemma EightSlices(n: nat, flow: real)
    requires n <= 8 && 0.0 <= flow <= 3180.0
    ensures Multiple(n, flow) <= 25440.0
  {
    var count := n as real;
    Scales(flow, 3180.0, count);
    assert count * flow <= count * 3180.0 <= 25440.0;
    assert Multiple(n, flow) == count * flow;
  }

  /** The thinned market at once leaves room for more than twelve percent, and enough of the order
      is left. */
  lemma StressedOversteps(p: Point, seed: nat)
    requires Stressed(p)
    ensures Oversteps(TUTORIAL, ScenarioAt(p), seed, LevelOf(12), STEPS)
  {
    LiquidVolume(p, seed);
    StressedRoom(p, seed);
    StressedUse(p, seed);
  }

  lemma {:induction false} AllSeedsOverstep(p: Point, seeds: seq<nat>)
    requires Stressed(p)
    ensures CountOversteps(TUTORIAL, 12, p, seeds) == |seeds|
  {
    if seeds != [] {
      StressedOversteps(p, seeds[0]);
      AllSeedsOverstep(p, seeds[1..]);
    }
  }

  lemma AsksForTwelve()
    ensures AsksFor(DEFAULT_PROPERTIES, 12) && NeedsForcedSelling(TUTORIAL, DEFAULT_PROPERTIES)
  {
    assert DEFAULT_PROPERTIES[2].metric == ParticipationRate;
    RoundsWithin(10.0, 12);
  }

  lemma StressedFails(p: Point, quick: bool)
    requires Stressed(p)
    ensures Required(quick) <= Failures(TUTORIAL, DEFAULT_PROPERTIES, quick)(p)
    ensures !Passing(TUTORIAL, DEFAULT_PROPERTIES, quick)(p)
  {
    AsksForTwelve();
    AllSeedsOverstep(p, Seeds(quick));
    FailuresAreOversteps(TUTORIAL, DEFAULT_PROPERTIES, 12, p, Seeds(quick));
    StressedOversteps(p, 41);
    FragileFailsExactly(TUTORIAL, DEFAULT_PROPERTIES, 12, p, 41);
    assert Seeds(quick)[0] == 41;
  }

  // ----- without it everything passes

  const CALM: Point := Point(100, 10, 0)

  /** Cost in a calm market is at most twice the cap a step. */
  lemma {:induction false} CalmCost(s: Setup, sc: Scenario, steps: nat)
    requires MaxParticipation(s, steps) <= 0.1 && sc.spread == 1.0 && sc.volatility == 1.0
    ensures Cost(s, sc, steps) <= 0.2 * steps as real
  {
    if steps != 0 {
      CalmCost(s, sc, steps - 1);
      CalmStepCost(Participation(s, steps - 1), sc);
    }
  }

  lemma CalmStepCost(part: real, sc: Scenario)
    requires sc.spread == 1.0 && sc.volatility == 1.0
    ensures StepCost(part, sc) == 2.0 * part
  {
    assert part * sc.spread == part;
  }

  /** The whole order fills: a tenth of at least thirty thousand in each of nineteen steps. */
  lemma CalmCompletes(seed: nat)
    ensures After(SetupFor(TUTORIAL, ScenarioAt(CALM), seed), STEPS).remaining == 0.0
  {
    var sc := ScenarioAt(CALM);
    ScenarioIsDefective(TUTORIAL, sc, seed);
    forall t | 1 <= t < STEPS
      ensures Flow(SetupFor(TUTORIAL, sc, seed), t) == 0.1 * CalmVolume(sc, seed)
    {
      CalmStepFlow(seed, t);
    }
    LiquidVolume(CALM, seed);
    assert sc.liquidity == 1.0;
    SteadyFlowCompletes(SetupFor(TUTORIAL, sc, seed), 0.1 * CalmVolume(sc, seed));
  }

  lemma CalmStepFlow(seed: nat, t: nat)
    requires 1 <= t
    ensures Flow(SetupFor(TUTORIAL, ScenarioAt(CALM), seed), t) == 0.1 * CalmVolume(ScenarioAt(CALM), seed)
  {
    VolumeInScenario(TUTORIAL, ScenarioAt(CALM), seed, t);
    WantedInScenario(TUTORIAL, ScenarioAt(CALM), seed, t);
  }

  lemma SteadyFlowCompletes(s: Setup, flow: real)
    requires Defective(s) && s.quantity == 50000.0 && s.latency == 1 && 3000.0 <= flow
    requires forall t :: 1 <= t < STEPS ==> Flow(s, t) == flow
    ensures After(s, STEPS).remaining == 0.0
  {
    RemainingIsUnused(s, STEPS);
    NothingUsedYet(s, 1);
    UsedOverStretch(s, 1, STEPS, flow);
    TimesIsMultiple(19, flow);
  }

  /** An order that is done was filled, and in a calm market for little. */
  lemma DoneFigures(s: Setup, sc: Scenario, steps: nat)
    requires After(s, steps).remaining == 0.0 && MaxParticipation(s, steps) <= 0.1
    requires sc.spread == 1.0 && sc.volatility == 1.0 && steps <= 20
    ensures After(s, steps).filled == s.quantity && Cost(s, sc, steps) <= 4.0
  {
    NothingIsLost(s, steps);
    CalmCost(s, sc, steps);
  }

  lemma CalmFigures(seed: nat)
    ensures var s := SetupFor(TUTORIAL, ScenarioAt(CALM), seed);
            && After(s, STEPS).filled == s.quantity && After(s, STEPS).remaining == 0.0
            && MaxParticipation(s, STEPS) <= 0.1 && Cost(s, ScenarioAt(CALM), STEPS) <= 4.0
  {
    FragileInScenario(TUTORIAL, ScenarioAt(CALM), seed, STEPS);
    CalmCompletes(seed);
    DoneFigures(SetupFor(TUTORIAL, ScenarioAt(CALM), seed), ScenarioAt(CALM), STEPS);
  }

  predicate IsGood(report: Report) {
    && report.completion == 100.0 && report.remaining == 0.0 && report.halt == 0.0
    && report.participation <= 12.0 && report.shortfall <= 20.0
  }

  lemma CalmReport(seed: nat)
    ensures IsGood(ReportAt(TUTORIAL, CALM, seed))
  {
    var s := SetupFor(TUTORIAL, ScenarioAt(CALM), seed);
    CalmFigures(seed);
    GoodReport(After(s, STEPS), MaxParticipation(s, STEPS), Cost(s, ScenarioAt(CALM), STEPS), s.quantity);
    ReportIs(s, ScenarioAt(CALM));
  }

  function Reported(b: Books, part: real, cost: real, quantity: real): Report
    requires quantity != 0.0
  {
    Report(Rounded(b.filled / quantity * 100.0), Rounded(cost), Rounded(part * 100.0), 0.0,
           Rounded(b.remaining / quantity * 100.0))
  }

  lemma ReportIs(s: Setup, sc: Scenario)
    requires s.quantity != 0.0
    ensures ReportOf(s, sc, STEPS)
         == Reported(After(s, STEPS), MaxParticipation(s, STEPS), Cost(s, sc, STEPS), s.quantity)
  {
  }

  lemma GoodReport(b: Books, part: real, cost: real, quantity: real)
    requires b.filled == quantity == 50000.0 && b.remaining == 0.0 && part <= 0.1 && cost <= 4.0
    ensures IsGood(Reported(b, part, cost, quantity))
  {
    RoundsWithin(cost, 20);
    RoundsWithin(part * 100.0, 12);
    WholeOrder(quantity);
  }

  lemma WholeOrder(quantity: real)
    requires quantity == 50000.0
    ensures Rounded(quantity / quantity * 100.0) == 100.0 && Rounded(0.0 / quantity * 100.0) == 0.0
  {
  }

  lemma GoodReportPasses(report: Report)
    requires IsGood(report)
    ensures PassesAll(DEFAULT_PROPERTIES, report)
  {
  }

  lemma CalmPasses(seeds: seq<nat>)
    ensures AllSeedsPass(TUTORIAL, DEFAULT_PROPERTIES, CALM, seeds)
  {
    forall i | 0 <= i < |seeds|
      ensures PassesAll(DEFAULT_PROPERTIES, ReportAt(TUTORIAL, CALM, seeds[i]))
    {
      CalmReport(seeds[i]);
      GoodReportPasses(ReportAt(TUTORIAL, CALM, seeds[i]));
    }
  }

  // ----- the corrected strategy

  const CORRECTED: Strategy := Strategy(false, 50000.0, 10.0, 10)

  lemma CalmIsSteady(seed: nat)
    ensures Steady(SetupFor(CORRECTED, ScenarioAt(CALM), seed), BaseVolume(seed))
  {
    var s := SetupFor(CORRECTED, ScenarioAt(CALM), seed);
    ScenariosAreWellFormed(CORRECTED, ScenarioAt(CALM), seed);
    LiquidVolume(CALM, seed);
    forall t: nat
      ensures s.volume(t) == BaseVolume(seed) && s.forced(t) == 0.0
    {
      VolumeInScenario(CORRECTED, ScenarioAt(CALM), seed, t);
      assert ScenarioAt(CALM).liquidity == 1.0;
    }
  }

  lemma NineteenShares(volume: real)
    requires 30000.0 <= volume
    ensures Multiple(19, 0.1 * volume) >= 57000.0
  {
  }

  /** A steady market of at least thirty thousand fills the order in twenty steps of one latency each. */
  lemma SteadyCompletes(s: Setup, volume: real)
    requires Steady(s, volume) && s.quantity == 50000.0 && s.cap == 0.1 && s.latency == 1 && 30000.0 <= volume
    ensures After(s, STEPS).filled == s.quantity && After(s, STEPS).remaining == 0.0
  {
    ThroughputIsAttained(s, volume, STEPS);
    NineteenShares(volume);
    NothingIsLost(s, STEPS);
  }

  lemma SteadyReport(s: Setup, sc: Scenario, volume: real)
    requires Steady(s, volume) && s.quantity == 50000.0 && s.cap == 0.1 && s.latency == 1 && 30000.0 <= volume
    requires sc.spread == 1.0 && sc.volatility == 1.0
    ensures IsGood(ReportOf(s, sc, STEPS))
  {
    SteadyCompletes(s, volume);
    ParticipationWithinCap(s, STEPS);
    CalmCost(s, sc, STEPS);
    GoodReport(After(s, STEPS), MaxParticipation(s, STEPS), Cost(s, sc, STEPS), s.quantity);
    ReportIs(s, sc);
  }

  lemma CorrectedReport(seed: nat)
    ensures IsGood(ReportAt(CORRECTED, CALM, seed))
  {
    CalmIsSteady(seed);
    SteadyReport(SetupFor(CORRECTED, ScenarioAt(CALM), seed), ScenarioAt(CALM), BaseVolume(seed));
  }

  /** The corrected strategy as shipped fills its whole order in the calm scenario, within its cap, and
      passes all the default properties on every seed. */
  lemma CorrectedPasses(seeds: seq<nat>)
    ensures AllSeedsPass(CORRECTED, DEFAULT_PROPERTIES, CALM, seeds)
  {
    forall i | 0 <= i < |seeds|
      ensures PassesAll(DEFAULT_PROPERTIES, ReportAt(CORRECTED, CALM, seeds[i]))
    {
      CorrectedReport(seeds[i]);
      GoodReportPasses(ReportAt(CORRECTED, CALM, seeds[i]));
    }
  }

  // ----- what the search finds

  // Failures and passes in the scenarios the search looks at.

  ghost predicate StressFails(failures: Count, allPass: Point -> bool, required: nat) {
    forall p :: Stressed(p) ==> required <= failures(p) && !allPass(p)
  }

  ghost predicate NeedsForce(failures: Count, required: nat) {
    forall p: Point :: p.forced == 0 ==> failures(p) < required
  }

  lemma UnforcedHolds(p: Point, quick: bool)
    requires p.forced == 0
    ensures Failures(TUTORIAL, DEFAULT_PROPERTIES, quick)(p) < Required(quick)
  {
    AsksForTwelve();
    FragileNeedsForcedSelling(TUTORIAL, DEFAULT_PROPERTIES, p, Seeds(quick));
  }

  lemma AllStressedFail(failures: Count, allPass: Point -> bool, quick: bool)
    requires failures == Failures(TUTORIAL, DEFAULT_PROPERTIES, quick)
    requires allPass == Passing(TUTORIAL, DEFAULT_PROPERTIES, quick)
    ensures StressFails(failures, allPass, Required(quick))
  {
    forall p | Stressed(p)
      ensures Required(quick) <= failures(p) && !allPass(p)
    {
      StressedFails(p, quick);
    }
  }

  lemma NoUnforcedFails(failures: Count, quick: bool)
    requires failures == Failures(TUTORIAL, DEFAULT_PROPERTIES, quick)
    ensures NeedsForce(failures, Required(quick))
  {
    forall p: Point | p.forced == 0
      ensures failures(p) < Required(quick)
    {
      UnforcedHolds(p, quick);
    }
  }

  lemma CalmHolds(allPass: Point -> bool, quick: bool)
    requires allPass == Passing(TUTORIAL, DEFAULT_PROPERTIES, quick)
    ensures allPass(CALM)
  {
    CalmPasses(Seeds(quick));
  }

  /** Every reproducing candidate minimizes to full liquidity and least latency, keeping its forced
      flow; only the calm scenario is a neighbour of the result that passes. */
  lemma MinimizedTutorial(failures: Count, allPass: Point -> bool, required: nat, start: Point, p: Point)
    requires StressFails(failures, allPass, required) && NeedsForce(failures, required) && allPass(CALM)
    requires IsCandidate(start) && required <= failures(start)
    requires Minimized(start, failures, required, p)
    ensures p == Point(100, 10, start.forced) && 0 < p.forced && !Stranded(allPass, p)
    ensures forall q :: q in [MoreLiquid(p), Quicker(p), Unforced(p)] && allPass(q) ==> q == CALM
  {
    assert 100 in LIQUIDITY_LEVELS && 10 in LATENCY_LEVELS;
    assert Stressed(start.(liquidity := 100)) && Stressed(start.(liquidity := 100, latencyMs := 10));
    assert p.liquidity == 100;
    assert p.latencyMs == 10;
    assert Stressed(p) && MoreLiquid(p) == Quicker(p) == p && Unforced(p) == CALM;
  }

  lemma MildestCandidate(p: Point)
    requires IsCandidate(p) && 0 < p.forced && Preferred(p, Point(90, 20, 500))
    ensures p == Point(90, 20, 500)
  {
    RoundingKeepsOrder(p, Point(90, 20, 500));
    assert Units(Point(90, 20, 500)) == 99500;
  }

  lemma SearchIsFixed(failures: Count, allPass: Point -> bool, required: nat, outcome: Outcome)
    requires StressFails(failures, allPass, required) && NeedsForce(failures, required) && allPass(CALM)
    requires Explained(failures, allPass, required, true, outcome)
    ensures outcome.Found? && outcome.original == Point(90, 20, 500)
    ensures outcome.minimized == Point(100, 10, 500) && outcome.neighbour == CALM
  {
    var mildest := Point(90, 20, 500);
    assert IsCandidate(mildest) && Stressed(mildest);
    if outcome.NoNeighbour? {
      var original, p :| IsCandidate(original) && required <= failures(original)
        && Minimized(original, failures, required, p) && Stranded(allPass, p);
      MinimizedTutorial(failures, allPass, required, original, p);
    } else {
      MinimizedTutorial(failures, allPass, required, outcome.original, outcome.minimized);
      assert Preferred(outcome.original, mildest);
      MildestCandidate(outcome.original);
    }
  }

  /** The tutorial's search, in either mode: it always finds the defect, in the mildest scenario of
      the grid that has any forced selling; the minimized scenario is fully liquid at the least
      latency, and without its forced selling everything passes. */
  method SearchTutorial(quick: bool) returns (outcome: Outcome)
    ensures outcome.Found? && outcome.original == Point(90, 20, 500)
    ensures outcome.minimized == Point(100, 10, 500) && outcome.neighbour == Point(100, 10, 0)
  {
    outcome := RunSearch(TUTORIAL, DEFAULT_PROPERTIES, quick);
    AsksForTwelve();
    ghost var failures := Failures(TUTORIAL, DEFAULT_PROPERTIES, quick);
    ghost var allPass := Passing(TUTORIAL, DEFAULT_PROPERTIES, quick);
    AllStressedFail(failures, allPass, quick);
    NoUnforcedFails(failures, quick);
    CalmHolds(allPass, quick);
    SearchIsFixed(failures, allPass, Required(quick), outcome);
  }
}
