/** Searching a grid of scenarios for a reproducible failure and minimizing the one found, one
    coordinate at a time. */
module Minimizer {

  /** A grid scenario: displayed liquidity in percent, latency in milliseconds, forced selling. */
  datatype Point = Point(liquidity: nat, latencyMs: nat, forced: nat)

  datatype Axis = Liquidity | Latency | ForcedFlow

  function With(p: Point, axis: Axis, value: nat): Point {
    match axis
    case Liquidity => p.(liquidity := value)
    case Latency => p.(latencyMs := value)
    case ForcedFlow => p.(forced := value)
  }

  function ValueOn(p: Point, axis: Axis): nat {
    match axis
    case Liquidity => p.liquidity
    case Latency => p.latencyMs
    case ForcedFlow => p.forced
  }

  // ----- severity

  /** The severity score: how far a scenario is from the calm baseline. */
  function Severity(p: Point): real {
    (1.0 - p.liquidity as real / 100.0)
    + (if p.latencyMs <= 10 then 0.0 else (p.latencyMs - 10) as real / 90.0)
    + p.forced as real / 50000.0
  }

  /** The same score in units of 1/450000. */
  function Units(p: Point): int {
    4500 * (100 - p.liquidity) + 5000 * (if p.latencyMs <= 10 then 0 else p.latencyMs - 10) + 9 * p.forced
  }

  lemma SeverityInUnits(p: Point)
    ensures Severity(p) * 450000.0 == Units(p) as real
  {
  }

  /** The score as reported: rounded to thousandths. */
  function Thousandths(p: Point): int { (2 * Units(p) + 450) / 900 }

  /** That is the nearest number of thousandths. */
  lemma ThousandthsAreNearest(p: Point)
    ensures -0.0005 <= Severity(p) - Thousandths(p) as real / 1000.0 <= 0.0005
  {
    var units, thousandths := Units(p), Thousandths(p);
    SeverityInUnits(p);
    assert -450 <= 2 * units - 900 * thousandths <= 450;
    assert Severity(p) == units as real / 450000.0;
  }

  /** A calm market scores nothing; taking all liquidity away, ninety milliseconds more latency and a
      forced seller of fifty thousand score one each, and add up. */
  lemma SeverityAddsUp(p: Point)
    requires 10 <= p.latencyMs
    ensures Severity(Point(100, 10, 0)) == 0.0
    ensures Severity(Point(0, 10, 0)) == Severity(Point(100, 100, 0)) == Severity(Point(100, 10, 50000)) == 1.0
    ensures Severity(p)
         == Severity(Point(p.liquidity, 10, 0)) + Severity(Point(100, p.latencyMs, 0))
            + Severity(Point(100, 10, p.forced))
  {
  }

  predicate OnGrid(p: Point) { p.latencyMs % 10 == 0 && p.forced % 500 == 0 }

  /** Rounding the score never changes which of two grid scenarios counts as the milder. */
  lemma RoundingKeepsOrder(a: Point, b: Point)
    requires OnGrid(a) && OnGrid(b)
    ensures Thousandths(a) <= Thousandths(b) <==> Units(a) <= Units(b)
  {
    InFiveHundreds(a);
    InFiveHundreds(b);
    RoundedOrder(FiveHundreds(a), FiveHundreds(b));
  }

  lemma InFiveHundreds(p: Point)
    requires OnGrid(p)
    ensures Units(p) == 500 * FiveHundreds(p)
  {
    assert p.latencyMs == 10 * (p.latencyMs / 10) && p.forced == 500 * (p.forced / 500);
  }

  /** Steps of a thousand are never lost when dividing by nine hundred. */
  lemma RoundedOrder(x: int, y: int)
    ensures (1000 * x + 450) / 900 <= (1000 * y + 450) / 900 <==> x <= y
  {
  }

  function FiveHundreds(p: Point): int
    requires OnGrid(p)
  {
    9 * (100 - p.liquidity) + (if p.latencyMs <= 10 then 0 else 100 * (p.latencyMs / 10 - 1)) + 9 * (p.forced / 500)
  }

  // ----- one axis

  type Count = Point -> nat

  datatype Trial = Trial(axis: Axis, oldValue: nat, trialValue: nat, accepted: bool, failures: nat,
                         before: int, after: int)

  /** Applies the accepted trials of a trace in order. */
  function Replay(p: Point, trace: seq<Trial>): Point {
    if trace == [] then p
    else
      var current, last := Replay(p, trace[..|trace| - 1]), trace[|trace| - 1];
      if last.accepted then With(current, last.axis, last.trialValue) else current
  }

  /** The entry says what was tried from where, and was accepted for the reasons it states. */
  predicate HoldsAt(at: Point, t: Trial, failures: Count, required: nat) {
    var trial := With(at, t.axis, t.trialValue);
    && t.oldValue == ValueOn(at, t.axis) && t.failures == failures(trial)
    && t.before == Thousandths(at) && t.after == Thousandths(trial)
    && (t.accepted <==> required <= t.failures && t.after <= t.before)
  }

  predicate Truthful(p: Point, trace: seq<Trial>, failures: Count, required: nat) {
    trace == [] ||
    (var front := trace[..|trace| - 1];
     Truthful(p, front, failures, required) && HoldsAt(Replay(p, front), trace[|trace| - 1], failures, required))
  }

  lemma TraceSnoc(p: Point, trace: seq<Trial>, t: Trial, failures: Count, required: nat)
    ensures Replay(p, trace + [t])
         == if t.accepted then With(Replay(p, trace), t.axis, t.trialValue) else Replay(p, trace)
    ensures Truthful(p, trace + [t], failures, required)
       <==> Truthful(p, trace, failures, required) && HoldsAt(Replay(p, trace), t, failures, required)
  {
    assert (trace + [t])[..|trace|] == trace;
  }

  predicate GridLevels(axis: Axis, levels: seq<nat>) {
    && (axis.Latency? ==> forall i :: 0 <= i < |levels| ==> levels[i] % 10 == 0)
    && (axis.ForcedFlow? ==> forall i :: 0 <= i < |levels| ==> levels[i] % 500 == 0)
  }

  /** The level does not reproduce, is worse than the start, or is no milder than `p`. */
  predicate NoMilder(start: Point, axis: Axis, level: nat, failures: Count, required: nat, p: Point) {
    var trial := With(start, axis, level);
    required <= failures(trial) && Units(trial) <= Units(start) ==> Units(p) <= Units(trial)
  }

  /** `p` is the mildest reproducing scenario among the start and the levels no worse than it. */
  predicate MildestOn(start: Point, axis: Axis, levels: seq<nat>, failures: Count, required: nat, p: Point) {
    && (p == start
        || (ValueOn(p, axis) in levels && p == With(start, axis, ValueOn(p, axis)) && required <= failures(p)))
    && Units(p) <= Units(start)
    && forall level :: level in levels ==> NoMilder(start, axis, level, failures, required, p)
  }

  lemma MildestNext(start: Point, axis: Axis, levels: seq<nat>, level: nat, failures: Count, required: nat, p: Point)
    requires MildestOn(start, axis, levels, failures, required, p)
    ensures var trial := With(start, axis, level);
            var next := if required <= failures(trial) && Units(trial) <= Units(p) then trial else p;
            MildestOn(start, axis, levels + [level], failures, required, next)
  {
    var trial := With(start, axis, level);
    var next := if required <= failures(trial) && Units(trial) <= Units(p) then trial else p;
    forall w | w in levels + [level]
      ensures NoMilder(start, axis, w, failures, required, next)
    {
      if w in levels { assert NoMilder(start, axis, w, failures, required, p); }
    }
  }

  /** Tries the levels of one axis in turn, keeping each that still reproduces and is no worse. */
  method MinimizeAxis(failures: Count, required: nat, ghost origin: Point, start: Point, axis: Axis, levels: seq<nat>,
                      trace: seq<Trial>)
    returns (p: Point, longer: seq<Trial>)
    requires OnGrid(start) && GridLevels(axis, levels)
    requires Truthful(origin, trace, failures, required) && Replay(origin, trace) == start
    ensures OnGrid(p) && MildestOn(start, axis, levels, failures, required, p)
    ensures Truthful(origin, longer, failures, required) && Replay(origin, longer) == p
    ensures |longer| == |trace| + |levels|
  {
    p, longer := start, trace;
    for i := 0 to |levels|
      invariant OnGrid(p) && MildestOn(start, axis, levels[..i], failures, required, p)
      invariant p == With(start, axis, ValueOn(p, axis))
      invariant Truthful(origin, longer, failures, required) && Replay(origin, longer) == p
      invariant |longer| == |trace| + i
    {
      var trial := With(p, axis, levels[i]);
      var failed := failures(trial);
      var milder := Thousandths(trial) <= Thousandths(p);
      var ok := required <= failed && milder;
      RoundingKeepsOrder(trial, p);
      MildestNext(start, axis, levels[..i], levels[i], failures, required, p);
      assert levels[..i] + [levels[i]] == levels[..i + 1];
      var t := Trial(axis, ValueOn(p, axis), levels[i], ok, failed, Thousandths(p), Thousandths(trial));
      TraceSnoc(origin, longer, t, failures, required);
      longer := longer + [t];
      if ok { p := trial; }
    }
    assert levels[..|levels|] == levels;
  }

  // ----- the whole minimization

  const LIQUIDITY_LEVELS: seq<nat> := [55, 70, 90, 100]
  const LATENCY_LEVELS: seq<nat> := [30, 20, 10]

  predicate MostLiquid(start: Point, failures: Count, required: nat, value: nat) {
    && start.liquidity <= value
    && (value == start.liquidity || (value in LIQUIDITY_LEVELS && required <= failures(start.(liquidity := value))))
    && forall w :: w in LIQUIDITY_LEVELS && value < w ==> failures(start.(liquidity := w)) < required
  }

  predicate LeastLatency(start: Point, failures: Count, required: nat, value: nat) {
    && value <= start.latencyMs
    && (value == start.latencyMs || (value in LATENCY_LEVELS && required <= failures(start.(latencyMs := value))))
    && forall w :: w in LATENCY_LEVELS && w < value ==> failures(start.(latencyMs := w)) < required
  }

  /** The result, axis by axis: the most liquid level that still fails, then the least latency
      given that, then no forced selling if the failure survives without it. */
  predicate Minimized(start: Point, failures: Count, required: nat, p: Point) {
    var liquid := start.(liquidity := p.liquidity);
    var quick := liquid.(latencyMs := p.latencyMs);
    && MostLiquid(start, failures, required, p.liquidity)
    && LeastLatency(liquid, failures, required, p.latencyMs)
    && p.forced == if required <= failures(quick.(forced := 0)) then 0 else start.forced
  }

  lemma MildestIsMostLiquid(start: Point, failures: Count, required: nat, p: Point)
    requires MildestOn(start, Liquidity, LIQUIDITY_LEVELS, failures, required, p)
    ensures p == start.(liquidity := p.liquidity) && MostLiquid(start, failures, required, p.liquidity)
  {
    forall w | w in LIQUIDITY_LEVELS && p.liquidity < w
      ensures failures(start.(liquidity := w)) < required
    {
      assert NoMilder(start, Liquidity, w, failures, required, p);
    }
  }

  lemma MildestIsLeastLatency(start: Point, failures: Count, required: nat, p: Point)
    requires 10 <= start.latencyMs && MildestOn(start, Latency, LATENCY_LEVELS, failures, required, p)
    ensures p == start.(latencyMs := p.latencyMs) && LeastLatency(start, failures, required, p.latencyMs)
  {
    forall w | w in LATENCY_LEVELS && w < p.latencyMs
      ensures failures(start.(latencyMs := w)) < required
    {
      assert NoMilder(start, Latency, w, failures, required, p);
    }
  }

  lemma MildestIsUnforced(start: Point, failures: Count, required: nat, p: Point)
    requires MildestOn(start, ForcedFlow, [0], failures, required, p)
    ensures p == start.(forced := p.forced)
    ensures p.forced == if required <= failures(start.(forced := 0)) then 0 else start.forced
  {
    assert 0 in [0] && NoMilder(start, ForcedFlow, 0, failures, required, p);
  }

  lemma AxesCompose(original: Point, failures: Count, required: nat, liquid: Point, quick: Point, p: Point)
    requires 10 <= original.latencyMs && required <= failures(original)
    requires MildestOn(original, Liquidity, LIQUIDITY_LEVELS, failures, required, liquid)
    requires MildestOn(liquid, Latency, LATENCY_LEVELS, failures, required, quick)
    requires MildestOn(quick, ForcedFlow, [0], failures, required, p)
    ensures Minimized(original, failures, required, p) && required <= failures(p)
  {
    MildestIsMostLiquid(original, failures, required, liquid);
    MildestIsLeastLatency(liquid, failures, required, quick);
    MildestIsUnforced(quick, failures, required, p);
    assert liquid == original.(liquidity := p.liquidity) && quick == liquid.(latencyMs := p.latencyMs);
  }

  /** Minimizes a reproducing grid scenario; the trace replays to the result. */
  method Minimize(failures: Count, required: nat, original: Point) returns (p: Point, trace: seq<Trial>)
    requires OnGrid(original) && 10 <= original.latencyMs && required <= failures(original)
    ensures Minimized(original, failures, required, p) && required <= failures(p)
    ensures Truthful(original, trace, failures, required) && Replay(original, trace) == p && |trace| == 8
  {
    var liquid, quick;
    liquid, trace := MinimizeAxis(failures, required, original, original, Liquidity, LIQUIDITY_LEVELS, []);
    quick, trace := MinimizeAxis(failures, required, original, liquid, Latency, LATENCY_LEVELS, trace);
    p, trace := MinimizeAxis(failures, required, original, quick, ForcedFlow, [0], trace);
    AxesCompose(original, failures, required, liquid, quick, p);
  }

  /** The characterization leaves no choice. */
  lemma MinimizedIsUnique(start: Point, failures: Count, required: nat, p: Point, q: Point)
    requires Minimized(start, failures, required, p) && Minimized(start, failures, required, q)
    ensures p == q
  {
    assert p.liquidity == q.liquidity;
    assert p.latencyMs == q.latencyMs;
  }

  // ----- the grid search

  predicate IsCandidate(p: Point) {
    p.liquidity in [90, 70, 55, 44] && p.latencyMs in [20, 30, 40] && p.forced in [0, 500, 5000]
  }

  /** The order in which qualifying candidates are preferred: severity, then the serialized scenario. */
  predicate Preferred(a: Point, b: Point) {
    || Thousandths(a) < Thousandths(b)
    || (Thousandths(a) == Thousandths(b) &&
        (a.forced < b.forced || (a.forced == b.forced &&
          (a.latencyMs < b.latencyMs || (a.latencyMs == b.latencyMs && a.liquidity <= b.liquidity)))))
  }

  datatype Outcome =
    | NotEnabled
    | NoFailure(tested: nat)
    | NoNeighbour(tested: nat)
    | Found(tested: nat, original: Point, minimized: Point, trace: seq<Trial>, neighbour: Point)

  method Qualifying(failures: Count, required: nat) returns (found: seq<Point>, tested: nat)
    ensures forall p :: p in found <==> IsCandidate(p) && required <= failures(p)
    ensures tested == 36
  {
    var liquidities, latencies, forceds := [90, 70, 55, 44], [20, 30, 40], [0, 500, 5000];
    found, tested := [], 0;
    for i := 0 to 4
      invariant tested == 9 * i
      invariant forall p :: p in found <==> IsCandidate(p) && required <= failures(p) && p.liquidity in liquidities[..i]
    {
      var before := found;
      for j := 0 to 3
        invariant tested == 9 * i + 3 * j
        invariant forall p :: p in found <==>
                    p in before || (IsCandidate(p) && required <= failures(p)
                                    && p.liquidity == liquidities[i] && p.latencyMs in latencies[..j])
      {
        var earlier := found;
        for k := 0 to 3
          invariant tested == 9 * i + 3 * j + k
          invariant forall p :: p in found <==>
                      p in earlier || (required <= failures(p) && p.liquidity == liquidities[i]
                                       && p.latencyMs == latencies[j] && p.forced in forceds[..k])
        {
          var p := Point(liquidities[i], latencies[j], forceds[k]);
          if required <= failures(p) { found := found + [p]; }
          tested := tested + 1;
        }
      }
    }
  }

  method MostPreferred(points: seq<Point>) returns (best: Point)
    requires points != []
    ensures best in points && forall p :: p in points ==> Preferred(best, p)
  {
    best := points[0];
    for i := 1 to |points|
      invariant best in points && forall j :: 0 <= j < i ==> Preferred(best, points[j])
    {
      if Preferred(points[i], best) { best := points[i]; }
    }
  }

  function MoreLiquid(p: Point): Point { p.(liquidity := if p.liquidity + 15 <= 100 then p.liquidity + 15 else 100) }

  function Quicker(p: Point): Point { p.(latencyMs := if p.latencyMs <= 20 then 10 else p.latencyMs - 10) }

  function Unforced(p: Point): Point { p.(forced := 0) }

  /** The neighbours differ from a scenario on one axis each, and are milder unless it is already
      calm there. */
  lemma NeighboursAreMilder(p: Point)
    requires p.liquidity <= 100 && 10 <= p.latencyMs
    ensures MoreLiquid(p) == p.(liquidity := MoreLiquid(p).liquidity)
    ensures Quicker(p) == p.(latencyMs := Quicker(p).latencyMs)
    ensures Units(MoreLiquid(p)) < Units(p) || (p.liquidity == 100 && MoreLiquid(p) == p)
    ensures Units(Quicker(p)) < Units(p) || (p.latencyMs == 10 && Quicker(p) == p)
    ensures Units(Unforced(p)) == Units(p) - 9 * p.forced
    ensures MoreLiquid(p).liquidity <= 100 && 10 <= Quicker(p).latencyMs
  {
  }

  /** More liquidity is tried first, then less latency, then no forced selling. */
  function FirstPassing(allPass: Point -> bool, p: Point): Point {
    if allPass(MoreLiquid(p)) then MoreLiquid(p) else if allPass(Quicker(p)) then Quicker(p) else Unforced(p)
  }

  /** None of the three milder scenarios passes everything. */
  predicate Stranded(allPass: Point -> bool, p: Point) {
    !allPass(MoreLiquid(p)) && !allPass(Quicker(p)) && !allPass(Unforced(p))
  }

  /** The outcome is the right one: a found failure is the preferred reproducing candidate, minimal on
      each axis in turn, and has the first neighbour that passes everything; the other endings say why there
      is none. */
  ghost predicate Explained(failures: Count, allPass: Point -> bool, required: nat, enabled: bool, outcome: Outcome) {
    && (outcome.NotEnabled? <==> !enabled)
    && (outcome.NoFailure? <==> enabled && forall p :: IsCandidate(p) ==> failures(p) < required)
    && (outcome.Found? ==>
          && IsCandidate(outcome.original) && required <= failures(outcome.original)
          && (forall p :: IsCandidate(p) && required <= failures(p) ==> Preferred(outcome.original, p))
          && Minimized(outcome.original, failures, required, outcome.minimized)
          && required <= failures(outcome.minimized)
          && Replay(outcome.original, outcome.trace) == outcome.minimized
          && Truthful(outcome.original, outcome.trace, failures, required)
          && allPass(outcome.neighbour) && outcome.neighbour == FirstPassing(allPass, outcome.minimized))
    && (outcome.NoNeighbour? ==>
          exists original, p ::
            && IsCandidate(original) && required <= failures(original)
            && Minimized(original, failures, required, p) && Stranded(allPass, p))
  }

  method Search(failures: Count, allPass: Point -> bool, required: nat, enabled: bool) returns (outcome: Outcome)
    ensures Explained(failures, allPass, required, enabled, outcome)
  {
    if !enabled { return NotEnabled; }
    var found, tested := Qualifying(failures, required);
    if found == [] {
      assert forall p :: IsCandidate(p) && required <= failures(p) ==> p in found;
      return NoFailure(tested);
    }
    assert found[0] in found;
    var original := MostPreferred(found);
    var minimized, trace := Minimize(failures, required, original);
    var neighbour := MoreLiquid(minimized);
    if !allPass(neighbour) { neighbour := Quicker(minimized); }
    if !allPass(neighbour) { neighbour := Unforced(minimized); }
    if !allPass(neighbour) { return NoNeighbour(tested); }
    return Found(tested, original, minimized, trace, neighbour);
  }
}
