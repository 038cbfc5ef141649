/** Exactly when the fragile strategy takes more than a given share of the market, first in any
    market and then read off a scenario. */
module FragileOverstep {
  import opened PovHarness
  import opened FragilePov

  // ----- what each step fills, without the books

  /** The share of what the strategy believed one latency ago. */
  function Wanted(s: Setup, t: nat): real
    requires s.latency <= t
  {
    Max(0.0, Share(s, s.calm(t - s.latency)))
  }

  /** What a step fills while the order lasts. */
  function Flow(s: Setup, t: nat): real {
    if t < s.latency then 0.0 else Min(Wanted(s, t), Executable(s, t))
  }

  function Used(s: Setup, steps: nat): real {
    if steps == 0 then 0.0 else Used(s, steps - 1) + Flow(s, steps - 1)
  }

  ghost predicate Defective(s: Setup) {
    s.WellFormed() && s.fragile && 0.0 <= s.cap
  }

  /** What a step submits. */
  function Submitted(s: Setup, t: nat): Slice { Slice(t + s.latency, TargetAt(s, After(s, t), t)) }

  /** What the last `n` of `steps` steps submitted, in order. */
  function LastSubmitted(s: Setup, steps: nat, n: nat): seq<Slice>
    requires n <= steps
  {
    seq(n, i requires 0 <= i < n => Submitted(s, steps - n + i))
  }

  /** Pending are the slices of the last latency, unchanged. */
  lemma {:induction false} PendingAreSubmitted(s: Setup, steps: nat)
    requires 1 <= s.latency
    ensures After(s, steps).pending == LastSubmitted(s, steps, if steps < s.latency then steps else s.latency)
  {
    if steps != 0 {
      PendingAreSubmitted(s, steps - 1);
      PendingNextStep(s, steps - 1);
    }
  }

  lemma AfterNext(s: Setup, t: nat)
    ensures After(s, t + 1).pending == StillPending(After(s, t).pending, t) + [Submitted(s, t)]
  {
  }

  lemma PendingNextStep(s: Setup, t: nat)
    requires 1 <= s.latency
    requires After(s, t).pending == LastSubmitted(s, t, if t < s.latency then t else s.latency)
    ensures After(s, t + 1).pending
         == LastSubmitted(s, t + 1, if t + 1 < s.latency then t + 1 else s.latency)
  {
    StaysPipelined(s, t);
    OneDue(s, After(s, t).pending, t);
    AfterNext(s, t);
    SubmittedNext(s, t, if t < s.latency then t else s.latency);
  }

  lemma SubmittedNext(s: Setup, t: nat, n: nat)
    requires n <= t
    ensures LastSubmitted(s, t, n) + [Submitted(s, t)] == LastSubmitted(s, t + 1, n + 1)
    ensures n != 0 ==> LastSubmitted(s, t, n)[1..] + [Submitted(s, t)] == LastSubmitted(s, t + 1, n)
  {
  }

  lemma {:induction false} RemainingFalls(s: Setup, steps: nat, later: nat)
    requires Defective(s) && steps <= later
    ensures After(s, later).remaining <= After(s, steps).remaining
  {
    if steps < later {
      RemainingFalls(s, steps, later - 1);
      BooksAreNonNegative(s, later - 1);
      StepIsNonNegative(s, After(s, later - 1), later - 1);
    }
  }

  lemma DueIsTarget(s: Setup, t: nat)
    requires 1 <= s.latency <= t
    ensures Total(DueBy(After(s, t).pending, t))
         == TargetAt(s, After(s, t - s.latency), t - s.latency)
  {
    var pending := After(s, t).pending;
    StaysPipelined(s, t);
    OneDue(s, pending, t);
    PendingAreSubmitted(s, t);
    assert pending[0] == Submitted(s, t - s.latency);
    assert [pending[0]][1..] == [];
    assert Total([pending[0]]) == pending[0].amount + Total([]);
  }

  /** A step fills its flow, or all that is left of the order. */
  lemma FillIsFlow(s: Setup, t: nat)
    requires Defective(s)
    ensures FillAt(s, After(s, t), t) == Min(Flow(s, t), After(s, t).remaining)
  {
    BooksAreNonNegative(s, t);
    if t < s.latency {
      StaysPipelined(s, t);
      OneDue(s, After(s, t).pending, t);
    } else {
      DueIsTarget(s, t);
      RemainingFalls(s, t - s.latency + 1, t);
    }
  }

  lemma FlowIsNonNegative(s: Setup, t: nat)
    requires Defective(s)
    ensures 0.0 <= Flow(s, t)
  {
  }

  /** What is left is the order less the flows so far, as long as that is something. */
  lemma {:induction false} RemainingIsUnused(s: Setup, steps: nat)
    requires Defective(s)
    ensures After(s, steps).remaining == Max(0.0, s.quantity - Used(s, steps))
  {
    if steps != 0 {
      RemainingIsUnused(s, steps - 1);
      FillIsFlow(s, steps - 1);
      FlowIsNonNegative(s, steps - 1);
    }
  }

  // ----- when a step takes more than a given share

  predicate OverstepsAt(s: Setup, level: real, t: nat) {
    && Portion(level, s.volume(t)) < Flow(s, t)
    && Portion(level, s.volume(t)) < s.quantity - Used(s, t)
  }

  lemma RatioAbove(part: real, whole: real, level: real)
    requires 0.0 < whole
    ensures level < part / whole <==> Portion(level, whole) < part
  {
    var q := part / whole;
    assert q * whole == part;
    assert (q - level) * whole == q * whole - level * whole;
    if level < q {
      Positive(q - level, whole);
    } else if q < level {
      Positive(level - q, whole);
    }
  }

  lemma StepOverstepsExactly(s: Setup, level: real, t: nat)
    requires Defective(s) && 0.0 <= level
    ensures level < Participation(s, t) <==> OverstepsAt(s, level, t)
  {
    FillIsFlow(s, t);
    RemainingIsUnused(s, t);
    RatioAbove(FillAt(s, After(s, t), t), s.volume(t), level);
    Product(level, s.volume(t));
  }

  /** In any market: the fragile strategy takes more than the share `level` exactly when some step's
      flow and what is then left of the order both exceed it. */
  lemma {:induction false} OverstepsExactly(s: Setup, level: real, steps: nat)
    requires Defective(s) && 0.0 <= level
    ensures level < MaxParticipation(s, steps) <==> exists t: nat :: t < steps && OverstepsAt(s, level, t)
  {
    if steps != 0 {
      OverstepsExactly(s, level, steps - 1);
      StepOverstepsExactly(s, level, steps - 1);
    }
  }

  // ----- read off a scenario

  /** Displayed volume once forced selling has thinned it. */
  function ThinVolume(sc: Scenario, seed: nat): real { Displayed(BaseVolume(seed), sc.liquidity * 0.75) }

  /** What forced selling leaves for the strategy at a step of a thinned market. */
  function Room(sc: Scenario, seed: nat, t: nat): real { Max(0.0, ThinVolume(sc, seed) - ForcedFlow(sc, t)) * 0.8 }

  /** First step of the thinned market in which anything can fill. */
  function FirstThin(sc: Scenario): nat { if LatencySteps(sc.latencyMs) <= 9 then 9 else LatencySteps(sc.latencyMs) }

  /** First of those steps with room for more than the share: at once, or when the forced flow ends. */
  function Opening(sc: Scenario, seed: nat, level: real): nat {
    var first := FirstThin(sc);
    if Portion(level, ThinVolume(sc, seed)) < Room(sc, seed, first) || 17 <= first then first else 17
  }

  /** What the strategy submits in a scenario while enough of the order is left. */
  function CalmSlice(st: Strategy, sc: Scenario, seed: nat): real {
    Portion(st.maxParticipation / 100.0, CalmVolume(sc, seed))
  }

  /** What a step fills of a slice sized from, and filled in, the calm market. */
  function CalmFlow(st: Strategy, sc: Scenario, seed: nat): real {
    Min(CalmSlice(st, sc, seed), CalmVolume(sc, seed) * 0.8)
  }

  /** What the order loses before that step: full slices of the calm market, then what the forced
      flow leaves. */
  function UsedBefore(st: Strategy, sc: Scenario, seed: nat, level: real): real {
    Multiple(FirstThin(sc) - LatencySteps(sc.latencyMs), CalmFlow(st, sc, seed))
    + Multiple(Opening(sc, seed, level) - FirstThin(sc), Room(sc, seed, FirstThin(sc)))
  }

  /** The scenario lets the strategy take more than the share `level` within `steps`: there is forced
      selling, the calm slice exceeds the thinned share, and room and order are left for it. */
  predicate Oversteps(st: Strategy, sc: Scenario, seed: nat, level: real, steps: nat) {
    var share := Portion(level, ThinVolume(sc, seed));
    var opening := Opening(sc, seed, level);
    && sc.forcedSeller != 0.0
    && share < CalmSlice(st, sc, seed)
    && share < Room(sc, seed, opening)
    && opening < steps
    && share < st.quantity - UsedBefore(st, sc, seed, level)
  }

  ghost predicate Applies(st: Strategy, level: real) {
    st.fragile && 0.0 < st.quantity && 0.0 <= st.maxParticipation && st.maxParticipation / 100.0 <= level
  }

  lemma ScenarioIsDefective(st: Strategy, sc: Scenario, seed: nat)
    requires st.fragile && 0.0 < st.quantity && 0.0 <= st.maxParticipation
    ensures Defective(SetupFor(st, sc, seed))
  {
    ScenariosAreWellFormed(st, sc, seed);
  }

  lemma Thinned(x: real, thin: bool)
    ensures x * (if thin then 0.75 else 1.0) == if thin then x * 0.75 else x
  {
    if thin {
    } else {
      assert x * 1.0 == x;
    }
  }

  /** Early steps, and all steps without forced selling, see the calm volume. */
  lemma VolumeInScenario(st: Strategy, sc: Scenario, seed: nat, t: nat)
    ensures SetupFor(st, sc, seed).volume(t)
         == if 9 <= t && sc.forcedSeller != 0.0 then ThinVolume(sc, seed) else CalmVolume(sc, seed)
  {
    assert SetupFor(st, sc, seed).volume(t) == ScenarioVolume(sc, seed, t);
    Thinned(sc.liquidity, t >= 9 && sc.forcedSeller != 0.0);
  }

  lemma WantedInScenario(st: Strategy, sc: Scenario, seed: nat, t: nat)
    requires 0.0 <= st.maxParticipation && LatencySteps(sc.latencyMs) <= t
    ensures Wanted(SetupFor(st, sc, seed), t) == CalmSlice(st, sc, seed) >= 0.0
  {
    Product(st.maxParticipation / 100.0, CalmVolume(sc, seed));
  }

  lemma FlowInScenario(st: Strategy, sc: Scenario, seed: nat, t: nat)
    requires st.fragile && 0.0 <= st.maxParticipation && LatencySteps(sc.latencyMs) <= t
    ensures var s := SetupFor(st, sc, seed);
            && (t < 9 ==> Flow(s, t) == CalmFlow(st, sc, seed))
            && (9 <= t && sc.forcedSeller != 0.0 ==> Flow(s, t) == Min(CalmSlice(st, sc, seed), Room(sc, seed, t)))
            && Flow(s, t) <= CalmSlice(st, sc, seed)
  {
    VolumeInScenario(st, sc, seed, t);
    WantedInScenario(st, sc, seed, t);
  }

  lemma {:induction false} UsedOverStretch(s: Setup, from: nat, to: nat, flow: real)
    requires from <= to && forall t :: from <= t < to ==> Flow(s, t) == flow
    ensures Used(s, to) == Used(s, from) + Times(to - from, flow)
  {
    if from < to {
      UsedOverStretch(s, from, to - 1, flow);
    }
  }

  lemma {:induction false} NothingUsedYet(s: Setup, steps: nat)
    requires steps <= s.latency
    ensures Used(s, steps) == 0.0
  {
    if steps != 0 {
      NothingUsedYet(s, steps - 1);
    }
  }

  lemma {:induction false} UsedGrows(s: Setup, steps: nat, later: nat)
    requires Defective(s) && steps <= later
    ensures Used(s, steps) <= Used(s, later)
  {
    if steps < later {
      UsedGrows(s, steps, later - 1);
      FlowIsNonNegative(s, later - 1);
    }
  }

  lemma UsedAtFirst(st: Strategy, sc: Scenario, seed: nat)
    requires st.fragile && 0.0 < st.quantity && 0.0 <= st.maxParticipation
    ensures Used(SetupFor(st, sc, seed), FirstThin(sc))
         == Multiple(FirstThin(sc) - LatencySteps(sc.latencyMs), CalmFlow(st, sc, seed))
  {
    var s, latency := SetupFor(st, sc, seed), LatencySteps(sc.latencyMs);
    NothingUsedYet(s, latency);
    forall t | latency <= t < FirstThin(sc)
      ensures Flow(s, t) == CalmFlow(st, sc, seed)
    {
      FlowInScenario(st, sc, seed, t);
    }
    UsedOverStretch(s, latency, FirstThin(sc), CalmFlow(st, sc, seed));
    TimesIsMultiple(FirstThin(sc) - latency, CalmFlow(st, sc, seed));
  }

  /** Up to the opening the forced flow leaves less than a slice, and always the same. */
  lemma FlowBeforeOpening(st: Strategy, sc: Scenario, seed: nat, level: real, t: nat)
    requires Applies(st, level) && sc.forcedSeller != 0.0
    requires Portion(level, ThinVolume(sc, seed)) < CalmSlice(st, sc, seed)
    requires FirstThin(sc) <= t < Opening(sc, seed, level)
    ensures Flow(SetupFor(st, sc, seed), t) == Room(sc, seed, FirstThin(sc))
  {
    FlowInScenario(st, sc, seed, t);
  }

  lemma UsedAtOpening(st: Strategy, sc: Scenario, seed: nat, level: real)
    requires Applies(st, level) && sc.forcedSeller != 0.0
    requires Portion(level, ThinVolume(sc, seed)) < CalmSlice(st, sc, seed)
    ensures Used(SetupFor(st, sc, seed), Opening(sc, seed, level)) == UsedBefore(st, sc, seed, level)
  {
    var s, first, opening := SetupFor(st, sc, seed), FirstThin(sc), Opening(sc, seed, level);
    UsedAtFirst(st, sc, seed);
    forall t | first <= t < opening
      ensures Flow(s, t) == Room(sc, seed, first)
    {
      FlowBeforeOpening(st, sc, seed, level, t);
    }
    UsedOverStretch(s, first, opening, Room(sc, seed, first));
    TimesIsMultiple(opening - first, Room(sc, seed, first));
  }

  /** A step can only overstep in the thinned market, from the opening on. */
  lemma OverstepNeedsOpening(st: Strategy, sc: Scenario, seed: nat, level: real, t: nat)
    requires Applies(st, level) && OverstepsAt(SetupFor(st, sc, seed), level, t)
    ensures sc.forcedSeller != 0.0 && Opening(sc, seed, level) <= t
    ensures Portion(level, ThinVolume(sc, seed)) < CalmSlice(st, sc, seed)
    ensures Portion(level, ThinVolume(sc, seed)) < Room(sc, seed, Opening(sc, seed, level))
  {
    var s, calm := SetupFor(st, sc, seed), CalmVolume(sc, seed);
    VolumeInScenario(st, sc, seed, t);
    Product(level, s.volume(t));
    FlowInScenario(st, sc, seed, t);
    CapWithinLevel(st.maxParticipation / 100.0, level, calm);
  }

  lemma CapWithinLevel(cap: real, level: real, volume: real)
    requires cap <= level && 0.0 <= volume
    ensures Portion(cap, volume) <= Portion(level, volume)
  {
    Scales(cap, level, volume);
  }

  lemma OpeningOversteps(st: Strategy, sc: Scenario, seed: nat, level: real, steps: nat)
    requires Applies(st, level) && Oversteps(st, sc, seed, level, steps)
    ensures OverstepsAt(SetupFor(st, sc, seed), level, Opening(sc, seed, level))
  {
    var opening := Opening(sc, seed, level);
    VolumeInScenario(st, sc, seed, opening);
    FlowInScenario(st, sc, seed, opening);
    UsedAtOpening(st, sc, seed, level);
  }

  /** In the harness's scenarios, for any share no smaller than the cap: the fragile strategy takes
      more than it if and only if the scenario's own figures say so. */
  lemma OverstepsInScenarioExactly(st: Strategy, sc: Scenario, seed: nat, level: real, steps: nat)
    requires Applies(st, level)
    ensures level < MaxParticipation(SetupFor(st, sc, seed), steps) <==> Oversteps(st, sc, seed, level, steps)
  {
    var s := SetupFor(st, sc, seed);
    ScenarioIsDefective(st, sc, seed);
    OverstepsExactly(s, level, steps);
    if Oversteps(st, sc, seed, level, steps) {
      OpeningOversteps(st, sc, seed, level, steps);
    }
    if t: nat :| t < steps && OverstepsAt(s, level, t) {
      OverstepNeedsOpening(st, sc, seed, level, t);
      UsedAtOpening(st, sc, seed, level);
      UsedGrows(s, Opening(sc, seed, level), t);
      VolumeInScenario(st, sc, seed, t);
    }
  }
}
