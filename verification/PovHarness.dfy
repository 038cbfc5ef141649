/** The POV test harness: a feedback loop that submits a share of the observed volume, waits
    out a latency, and fills what the market can take. */
module PovHarness {

  /** A strategy in a market: what trades at each step, what forced selling takes of it, and what
      a strategy that never refreshes its data believes. */
  datatype Setup = Setup(fragile: bool, quantity: real, cap: real, latency: nat,
                         volume: nat -> real, forced: nat -> real, calm: nat -> real)
  {
    /** `latency` counts steps, at least one; the order is not empty; something always trades. */
    ghost predicate WellFormed() {
      0.0 < quantity && 1 <= latency && forall t :: 0.0 < volume(t)
    }
  }

  datatype Strategy = Strategy(fragile: bool, quantity: real, maxParticipation: real, latencyMs: nat)

  datatype Scenario = Scenario(liquidity: real, volatility: real, latencyMs: nat, forcedSeller: real, spread: real,
                               replenishment: real)

  /** Milliseconds to steps of ten, rounding halves to even, and at least one. */
  function LatencySteps(ms: nat): (steps: nat)
    ensures 1 <= steps
  {
    var tens, rest := ms / 10, ms % 10;
    var rounded := if rest < 5 || (rest == 5 && tens % 2 == 0) then tens else tens + 1;
    if rounded < 1 then 1 else rounded
  }

  function BaseVolume(seed: nat): real { 30000.0 + (seed % 7) as real * 300.0 }

  /** Consecutive seeds differ by three hundred, starting over after seven. */
  lemma BaseVolumeCycles(seed: nat)
    ensures BaseVolume(0) == 30000.0 && 30000.0 <= BaseVolume(seed) <= 31800.0
    ensures BaseVolume(seed + 1) == if BaseVolume(seed) == 31800.0 then 30000.0 else BaseVolume(seed) + 300.0
  {
  }

  function Max(a: real, b: real): real { if a <= b then b else a }

  function Min(a: real, b: real): real { if a <= b then a else b }

  /** What trades in a step, never less than a thousand. */
  function Displayed(base: real, contraction: real): real { Max(1000.0, base * contraction) }

  /** Displayed volume, thinned by a quarter once forced selling is on. */
  function ScenarioVolume(sc: Scenario, seed: nat, t: nat): real {
    Displayed(BaseVolume(seed), sc.liquidity * if t >= 9 && sc.forcedSeller != 0.0 then 0.75 else 1.0)
  }

  function CalmVolume(sc: Scenario, seed: nat): real { Displayed(BaseVolume(seed), sc.liquidity) }

  function ForcedFlow(sc: Scenario, t: nat): real { if 9 <= t < 17 then sc.forcedSeller / 8.0 else 0.0 }

  function ForcedUntil(sc: Scenario, steps: nat): real {
    if steps == 0 then 0.0 else ForcedUntil(sc, steps - 1) + ForcedFlow(sc, steps - 1)
  }

  lemma OneMorePart(n: nat, x: real)
    ensures (n + 1) as real * x == n as real * x + x
  {
  }

  /** How many of the first `steps` steps the forced seller sells in. */
  function SellingSteps(steps: nat): nat { if steps <= 9 then 0 else if steps <= 17 then steps - 9 else 8 }

  /** The forced seller sells evenly over eight steps and is done after seventeen. */
  lemma {:induction false} ForcedFlowAddsUp(sc: Scenario, steps: nat)
    ensures 8.0 * ForcedUntil(sc, steps) == SellingSteps(steps) as real * sc.forcedSeller
    ensures 17 <= steps ==> ForcedUntil(sc, steps) == sc.forcedSeller
  {
    if steps != 0 {
      ForcedFlowAddsUp(sc, steps - 1);
      if 9 < steps <= 17 {
        OneMorePart(SellingSteps(steps - 1), sc.forcedSeller);
        assert SellingSteps(steps) == SellingSteps(steps - 1) + 1;
      }
    }
  }

  /** The harness's inputs as one strategy in one market. */
  function SetupFor(st: Strategy, sc: Scenario, seed: nat): Setup {
    Setup(st.fragile, st.quantity, st.maxParticipation / 100.0, LatencySteps(sc.latencyMs),
          (t: nat) => ScenarioVolume(sc, seed, t), (t: nat) => ForcedFlow(sc, t), (t: nat) => CalmVolume(sc, seed))
  }

  lemma ScenariosAreWellFormed(st: Strategy, sc: Scenario, seed: nat)
    requires 0.0 < st.quantity
    ensures SetupFor(st, sc, seed).WellFormed()
  {
  }

  datatype Slice = Slice(due: nat, amount: real)

  function Total(pending: seq<Slice>): real {
    if pending == [] then 0.0 else pending[0].amount + Total(pending[1..])
  }

  function DueBy(pending: seq<Slice>, t: nat): seq<Slice> {
    if pending == [] then []
    else if pending[0].due <= t then [pending[0]] + DueBy(pending[1..], t)
    else DueBy(pending[1..], t)
  }

  function StillPending(pending: seq<Slice>, t: nat): seq<Slice> {
    if pending == [] then []
    else if pending[0].due <= t then StillPending(pending[1..], t)
    else [pending[0]] + StillPending(pending[1..], t)
  }

  /** What the loop carries from step to step. `submitted` and `dropped` are running totals. */
  datatype Books = Books(remaining: real, filled: real, pending: seq<Slice>, submitted: real, dropped: real)

  /** The strategy's share of a volume. */
  function Share(s: Setup, volume: real): real { s.cap * volume }

  /** The corrected strategy sees the market as it is. */
  function Observed(s: Setup, t: nat): real {
    if s.fragile then s.calm(t) else s.volume(t)
  }

  function Executable(s: Setup, t: nat): real {
    var open := Max(0.0, s.volume(t) - s.forced(t));
    if s.fragile then open * 0.8 else Min(open, Share(s, s.volume(t)))
  }

  function FillAt(s: Setup, b: Books, t: nat): real {
    Min(Total(DueBy(b.pending, t)), Min(Executable(s, t), b.remaining))
  }

  function TargetAt(s: Setup, b: Books, t: nat): real {
    var counted := if s.fragile then 0.0 else Total(StillPending(b.pending, t));
    Min(b.remaining - FillAt(s, b, t), Max(0.0, Share(s, Observed(s, t)) - counted))
  }

  function Start(s: Setup): Books {
    Books(s.quantity, 0.0, [], 0.0, 0.0)
  }

  /** The books after a step that filled `fill` and submitted `target`. */
  function Booked(b: Books, t: nat, latency: nat, fill: real, target: real): Books {
    Books(b.remaining - fill, b.filled + fill, StillPending(b.pending, t) + [Slice(t + latency, target)],
          b.submitted + target, b.dropped + Total(DueBy(b.pending, t)) - fill)
  }

  function After(s: Setup, steps: nat): Books {
    if steps == 0 then Start(s)
    else
      var b := After(s, steps - 1);
      Booked(b, steps - 1, s.latency, FillAt(s, b, steps - 1), TargetAt(s, b, steps - 1))
  }

  function Ratio(part: real, whole: real): real { if whole == 0.0 then 0.0 else part / whole }

  /** The share of the market's volume that a step filled. */
  function Participation(s: Setup, t: nat): real {
    Ratio(FillAt(s, After(s, t), t), s.volume(t))
  }

  function MaxParticipation(s: Setup, steps: nat): real {
    if steps == 0 then 0.0 else Max(MaxParticipation(s, steps - 1), Participation(s, steps - 1))
  }

  /** The execution-cost proxy of the first `steps` steps. */
  function Cost(s: Setup, sc: Scenario, steps: nat): real {
    if steps == 0 then 0.0
    else Cost(s, sc, steps - 1) + StepCost(Participation(s, steps - 1), sc)
  }

  function StepCost(part: real, sc: Scenario): real {
    part * sc.spread * 2.0 + Max(0.0, sc.volatility - 1.0) * 0.4
  }

  /** The largest volume of the first `steps` steps. */
  function PeakVolume(s: Setup, steps: nat): real {
    if steps == 0 then 0.0 else Max(PeakVolume(s, steps - 1), s.volume(steps - 1))
  }

  // ----- accounting that holds for both strategies

  lemma {:induction false} TotalSplits(pending: seq<Slice>, t: nat)
    ensures Total(pending) == Total(DueBy(pending, t)) + Total(StillPending(pending, t))
  {
    if pending != [] {
      TotalSplits(pending[1..], t);
    }
  }

  lemma {:induction false} TotalSnoc(pending: seq<Slice>, slice: Slice)
    ensures Total(pending + [slice]) == Total(pending) + slice.amount
  {
    if pending == [] {
      assert [slice][1..] == [];
    } else {
      assert (pending + [slice])[1..] == pending[1..] + [slice];
      TotalSnoc(pending[1..], slice);
    }
  }

  predicate Balanced(b: Books, quantity: real) {
    b.filled + b.remaining == quantity && b.submitted == b.filled + b.dropped + Total(b.pending)
  }

  lemma BookingBalances(b: Books, quantity: real, t: nat, latency: nat, fill: real, target: real)
    requires Balanced(b, quantity)
    ensures Balanced(Booked(b, t, latency, fill, target), quantity)
  {
    TotalSplits(b.pending, t);
    TotalSnoc(StillPending(b.pending, t), Slice(t + latency, target));
  }

  /** Nothing is created or lost: fills come out of the order, and every share ever submitted
      was filled, dropped or is still pending. */
  lemma {:induction false} NothingIsLost(s: Setup, steps: nat)
    ensures var b := After(s, steps);
            && b.filled + b.remaining == s.quantity
            && b.submitted == b.filled + b.dropped + Total(b.pending)
  {
    if steps != 0 {
      var b, t := After(s, steps - 1), steps - 1;
      NothingIsLost(s, t);
      BookingBalances(b, s.quantity, t, s.latency, FillAt(s, b, t), TargetAt(s, b, t));
    }
  }

  // ----- signs

  predicate AllNonNegative(pending: seq<Slice>) {
    forall i :: 0 <= i < |pending| ==> 0.0 <= pending[i].amount
  }

  lemma {:induction false} PartsAreNonNegative(pending: seq<Slice>, t: nat)
    requires AllNonNegative(pending)
    ensures AllNonNegative(StillPending(pending, t)) && AllNonNegative(DueBy(pending, t))
    ensures 0.0 <= Total(StillPending(pending, t)) && 0.0 <= Total(DueBy(pending, t)) && 0.0 <= Total(pending)
  {
    if pending != [] {
      assert 0.0 <= pending[0].amount;
      PartsAreNonNegative(pending[1..], t);
    }
  }

  lemma Product(a: real, b: real)
    requires 0.0 <= a && 0.0 <= b
    ensures 0.0 <= a * b
  {
  }

  lemma Scales(a: real, b: real, factor: real)
    requires 0.0 <= factor && a <= b
    ensures factor * a <= factor * b
  {
    Product(factor, b - a);
  }

  /** A step never fills more than is due, than is left, or - when corrected - than its share. */
  lemma FillBounds(s: Setup, b: Books, t: nat)
    ensures FillAt(s, b, t) <= Total(DueBy(b.pending, t)) && FillAt(s, b, t) <= b.remaining
    ensures !s.fragile ==> FillAt(s, b, t) <= Share(s, s.volume(t))
  {
  }

  lemma StepIsNonNegative(s: Setup, b: Books, t: nat)
    requires s.WellFormed() && 0.0 <= s.cap && 0.0 <= b.remaining && AllNonNegative(b.pending)
    ensures 0.0 <= FillAt(s, b, t) && 0.0 <= TargetAt(s, b, t)
  {
    PartsAreNonNegative(b.pending, t);
    Product(s.cap, s.volume(t));
    FillBounds(s, b, t);
  }

  /** With a non-negative cap no quantity in the books is ever negative. */
  lemma {:induction false} BooksAreNonNegative(s: Setup, steps: nat)
    requires s.WellFormed() && 0.0 <= s.cap
    ensures var b := After(s, steps);
            0.0 <= b.remaining && 0.0 <= b.filled && AllNonNegative(b.pending)
  {
    if steps != 0 {
      var b, t := After(s, steps - 1), steps - 1;
      BooksAreNonNegative(s, t);
      StepIsNonNegative(s, b, t);
      FillBounds(s, b, t);
      PartsAreNonNegative(b.pending, t);
    }
  }

  // ----- the corrected strategy: participation, pending quantity, throughput

  lemma QuotientBound(part: real, whole: real, cap: real)
    requires 0.0 < whole && part <= cap * whole
    ensures part / whole <= cap
  {
    var q := part / whole;
    assert q * whole == part;
    assert (q - cap) * whole == q * whole - cap * whole;
    if q > cap {
      Positive(q - cap, whole);
    }
  }

  lemma Positive(a: real, b: real)
    requires 0.0 < a && 0.0 < b
    ensures 0.0 < a * b
  {
  }

  lemma RatioWithinCap(s: Setup, b: Books, t: nat)
    requires s.WellFormed() && !s.fragile
    ensures Ratio(FillAt(s, b, t), s.volume(t)) <= s.cap
  {
    FillBounds(s, b, t);
    QuotientBound(FillAt(s, b, t), s.volume(t), s.cap);
  }

  /** The corrected strategy's participation stays within its cap exactly when the cap is not
      negative, for every scenario, seed, horizon and latency. */
  lemma {:induction false} ParticipationWithinCap(s: Setup, steps: nat)
    requires s.WellFormed() && !s.fragile
    ensures MaxParticipation(s, steps) <= s.cap <==> 0.0 <= s.cap
  {
    MaxParticipationStartsAtZero(s, steps);
    if 0.0 <= s.cap && steps != 0 {
      ParticipationWithinCap(s, steps - 1);
      RatioWithinCap(s, After(s, steps - 1), steps - 1);
    }
  }

  lemma {:induction false} MaxParticipationStartsAtZero(s: Setup, steps: nat)
    ensures 0.0 <= MaxParticipation(s, steps)
  {
    if steps != 0 {
      MaxParticipationStartsAtZero(s, steps - 1);
    }
  }

  lemma PendingNext(s: Setup, b: Books, t: nat)
    requires !s.fragile && AllNonNegative(b.pending)
    ensures Total(Booked(b, t, s.latency, FillAt(s, b, t), TargetAt(s, b, t)).pending)
         <= Max(Total(b.pending), Share(s, s.volume(t)))
  {
    PartsAreNonNegative(b.pending, t);
    TotalSplits(b.pending, t);
    TotalSnoc(StillPending(b.pending, t), Slice(t + s.latency, TargetAt(s, b, t)));
  }

  lemma ShareGrows(s: Setup, volume: real, larger: real)
    requires 0.0 <= s.cap && volume <= larger
    ensures Share(s, volume) <= Share(s, larger)
  {
    Scales(volume, larger, s.cap);
  }

  /** Pending quantity of the corrected strategy never exceeds its share of the largest volume
      seen, however long the latency. */
  lemma {:induction false} PendingWithinCap(s: Setup, steps: nat)
    requires s.WellFormed() && !s.fragile && 0.0 <= s.cap
    ensures Total(After(s, steps).pending) <= Share(s, PeakVolume(s, steps))
  {
    if steps != 0 {
      var b, t := After(s, steps - 1), steps - 1;
      PendingWithinCap(s, t);
      BooksAreNonNegative(s, t);
      PendingNext(s, b, t);
      ShareGrows(s, PeakVolume(s, t), PeakVolume(s, steps));
      ShareGrows(s, s.volume(t), PeakVolume(s, steps));
    }
  }

  /** Pending quantity that comes due before `bound`. */
  function Early(pending: seq<Slice>, bound: nat): real {
    if pending == [] then 0.0
    else (if pending[0].due < bound then pending[0].amount else 0.0) + Early(pending[1..], bound)
  }

  /** A step moves what was due out of the early quantity and adds nothing to it. */
  lemma {:induction false} EarlyAfterStep(pending: seq<Slice>, t: nat, bound: nat, slice: Slice)
    requires t < bound && bound <= slice.due
    ensures Early(StillPending(pending, t) + [slice], bound) + Total(DueBy(pending, t)) == Early(pending, bound)
  {
    if pending == [] {
      assert [slice][1..] == [] && [] + [slice] == [slice];
    } else {
      var rest := pending[1..];
      EarlyAfterStep(rest, t, bound, slice);
      if pending[0].due > t {
        assert ([pending[0]] + StillPending(rest, t) + [slice])[1..] == StillPending(rest, t) + [slice];
      }
    }
  }

  lemma WindowStep(s: Setup, b: Books, t: nat, bound: nat)
    requires t < bound && bound <= t + s.latency
    ensures var b' := Booked(b, t, s.latency, FillAt(s, b, t), TargetAt(s, b, t));
            b'.filled + Early(b'.pending, bound) <= b.filled + Early(b.pending, bound)
  {
    FillBounds(s, b, t);
    EarlyAfterStep(b.pending, t, bound, Slice(t + s.latency, TargetAt(s, b, t)));
  }

  /** What fills within one latency of step `from` was already pending then. */
  lemma {:induction false} WindowFills(s: Setup, from: nat, k: nat)
    requires 1 <= s.latency && k <= s.latency
    ensures var b, b' := After(s, from), After(s, from + k);
            b'.filled + Early(b'.pending, from + s.latency) <= b.filled + Early(b.pending, from + s.latency)
  {
    if k != 0 {
      WindowFills(s, from, k - 1);
      WindowStep(s, After(s, from + k - 1), from + k - 1, from + s.latency);
    }
  }

  lemma {:induction false} EarlyIsPart(pending: seq<Slice>, bound: nat)
    requires AllNonNegative(pending)
    ensures 0.0 <= Early(pending, bound) <= Total(pending)
  {
    if pending != [] {
      EarlyIsPart(pending[1..], bound);
    }
  }

  lemma FillsPerWindow(s: Setup, from: nat, k: nat)
    requires s.WellFormed() && 0.0 <= s.cap && k <= s.latency
    ensures After(s, from + k).filled - After(s, from).filled <= Total(After(s, from).pending)
  {
    WindowFills(s, from, k);
    BooksAreNonNegative(s, from);
    BooksAreNonNegative(s, from + k);
    EarlyIsPart(After(s, from).pending, from + s.latency);
    EarlyIsPart(After(s, from + k).pending, from + s.latency);
  }

  lemma {:induction false} PeakGrows(s: Setup, steps: nat, later: nat)
    requires steps <= later
    ensures 0.0 <= PeakVolume(s, steps) <= PeakVolume(s, later)
  {
    if steps < later {
      PeakGrows(s, steps, later - 1);
    } else if steps != 0 {
      PeakGrows(s, steps - 1, steps - 1);
    }
  }

  /** Number of latency-long windows needed after the first one to cover `steps` steps. */
  function LaterWindows(steps: nat, latency: nat): nat
    requires 1 <= latency
    decreases steps
  {
    if steps <= latency then 0 else 1 + LaterWindows(steps - latency, latency)
  }

  function Times(n: nat, amount: real): real {
    if n == 0 then 0.0 else Times(n - 1, amount) + amount
  }

  function Multiple(n: nat, amount: real): real { n as real * amount }

  lemma OneMore(n: nat, amount: real)
    requires 1 <= n
    ensures Multiple(n, amount) == Multiple(n - 1, amount) + amount
  {
    assert n as real == (n - 1) as real + 1.0;
  }

  lemma {:induction false} TimesIsMultiple(n: nat, amount: real)
    ensures Times(n, amount) == Multiple(n, amount)
  {
    if n != 0 {
      TimesIsMultiple(n - 1, amount);
      OneMore(n, amount);
    }
  }

  lemma {:induction false} TimesGrows(n: nat, amount: real, larger: real)
    requires amount <= larger
    ensures Times(n, amount) <= Times(n, larger)
  {
    if n != 0 {
      TimesGrows(n - 1, amount, larger);
    }
  }

  /** Nothing fills within the first latency, and each further window of that length fills at most
      the capped share of the largest volume. */
  lemma {:induction false} WindowsOfShares(s: Setup, steps: nat)
    requires s.WellFormed() && !s.fragile && 0.0 <= s.cap
    ensures After(s, steps).filled <= Times(LaterWindows(steps, s.latency), Share(s, PeakVolume(s, steps)))
    decreases steps
  {
    if steps <= s.latency {
      FillsPerWindow(s, 0, steps);
    } else {
      var from := steps - s.latency;
      var before, now := Share(s, PeakVolume(s, from)), Share(s, PeakVolume(s, steps));
      WindowsOfShares(s, from);
      FillsPerWindow(s, from, s.latency);
      PendingWithinCap(s, from);
      PeakGrows(s, from, steps);
      ShareGrows(s, PeakVolume(s, from), PeakVolume(s, steps));
      TimesGrows(LaterWindows(from, s.latency), before, now);
    }
  }

  /** Windows after the first: the steps over the latency, rounded up, less one. */
  lemma {:induction false} LaterWindowsRoundUp(steps: nat, latency: nat)
    requires 1 <= latency && 1 <= steps
    ensures LaterWindows(steps, latency) == (steps - 1) / latency
    decreases steps
  {
    if steps > latency {
      LaterWindowsRoundUp(steps - latency, latency);
      QuotientNext(steps - 1, latency);
    } else {
      SmallQuotient(steps - 1, latency);
    }
  }

  lemma QuotientNext(n: nat, d: nat)
    requires 1 <= d <= n
    ensures n / d == (n - d) / d + 1
  {
    var q := (n - d) / d;
    assert n - d == q * d + (n - d) % d;
    assert n == (q + 1) * d + (n - d) % d;
    UniqueQuotient(n, d, q + 1, (n - d) % d);
  }

  lemma SmallQuotient(n: nat, d: nat)
    requires n < d
    ensures n / d == 0
  {
  }

  lemma UniqueQuotient(n: nat, d: nat, q: nat, r: nat)
    requires 0 < d && r < d && n == q * d + r
    ensures n / d == q
  {
    var a, b := n / d, n % d;
    assert n == a * d + b;
    Gap(a, q, d);
    Gap(q, a, d);
  }

  lemma Gap(a: nat, b: nat, d: nat)
    requires 0 < d
    ensures a < b ==> a * d + d <= b * d
  {
    if a < b {
      assert b * d - a * d == (b - a) * d;
      AtLeastOne(b - a, d);
    }
  }

  lemma AtLeastOne(factor: nat, d: nat)
    requires 1 <= factor
    ensures d <= factor * d
  {
  }

  lemma ThroughputOver(s: Setup, steps: nat, windows: nat, share: real)
    requires s.WellFormed() && !s.fragile && 0.0 <= s.cap && 1 <= steps
    requires windows == (steps - 1) / s.latency && share == Share(s, PeakVolume(s, steps))
    ensures After(s, steps).filled <= Multiple(windows, share)
  {
    WindowsOfShares(s, steps);
    LaterWindowsRoundUp(steps, s.latency);
    TimesIsMultiple(windows, share);
  }

  /** The corrected strategy's throughput, for every scenario, horizon and latency: at most its
      share of the largest volume for each whole latency that the steps after the first contain. */
  lemma Throughput(s: Setup, steps: nat)
    requires s.WellFormed() && !s.fragile && 0.0 <= s.cap && 1 <= steps
    ensures After(s, steps).filled <= Multiple((steps - 1) / s.latency, Share(s, PeakVolume(s, steps)))
  {
    ThroughputOver(s, steps, (steps - 1) / s.latency, Share(s, PeakVolume(s, steps)));
  }
}
