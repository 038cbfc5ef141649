/** The evaluation loop of the POV harness and its report. */
module PovEvaluation {
  import opened PovHarness

  // ----- rounding to two decimals

  /** The nearest whole number, halves to even. */
  function Nearest(y: real): int {
    var below := y.Floor;
    var rest := y - below as real;
    if rest < 0.5 || (rest == 0.5 && below % 2 == 0) then below else below + 1
  }

  function Rounded(x: real): real { Nearest(x * 100.0) as real / 100.0 }

  lemma NearestIsMonotone(y: real, z: real)
    requires y <= z
    ensures Nearest(y) <= Nearest(z)
  {
    if y.Floor != z.Floor {
      assert Nearest(y) <= y.Floor + 1 <= z.Floor <= Nearest(z);
    }
  }

  lemma NearestAtMost(y: real, even: int)
    requires even % 2 == 0
    ensures Nearest(y) <= even <==> y <= even as real + 0.5
  {
    if y <= even as real + 0.5 {
      assert y.Floor <= even;
    } else {
      assert y.Floor >= even;
    }
  }

  lemma NearestOfParts(y: real, z: real, whole: int)
    requires y + z == whole as real && whole % 2 == 0
    ensures Nearest(y) + Nearest(z) == whole
  {
    var rest := y - y.Floor as real;
    if rest == 0.0 {
      assert z.Floor == whole - y.Floor;
    } else {
      assert z.Floor == whole - y.Floor - 1;
      assert z - z.Floor as real == 1.0 - rest;
      assert z.Floor % 2 == 0 <==> y.Floor % 2 != 0;
    }
  }

  lemma RoundingIsMonotone(x: real, y: real)
    requires x <= y
    ensures Rounded(x) <= Rounded(y)
  {
    NearestIsMonotone(x * 100.0, y * 100.0);
  }

  lemma HalfAHundredth(x: real, n: int)
    ensures x <= n as real + 0.005 <==> x * 100.0 <= (100 * n) as real + 0.5
  {
    assert (100 * n) as real == 100.0 * n as real;
  }

  lemma HundredthsAtMost(hundredths: int, n: int)
    ensures hundredths as real / 100.0 <= n as real <==> hundredths <= 100 * n
  {
    assert (100 * n) as real == 100.0 * n as real;
  }

  lemma HundredthsWithin(hundredths: int, x: real, n: int)
    requires hundredths <= 100 * n <==> x * 100.0 <= (100 * n) as real + 0.5
    ensures hundredths as real / 100.0 <= n as real <==> x <= n as real + 0.005
  {
    HundredthsAtMost(hundredths, n);
    HalfAHundredth(x, n);
  }

  lemma HundredsAreEven(n: int)
    ensures (100 * n) % 2 == 0
  {
  }

  /** A value is reported as at most a whole number when it exceeds that by no more than half a
      hundredth. */
  lemma RoundsWithin(x: real, n: int)
    ensures Rounded(x) <= n as real <==> x <= n as real + 0.005
  {
    var whole := 100 * n;
    HundredsAreEven(n);
    NearestAtMost(x * 100.0, whole);
    HundredthsWithin(Nearest(x * 100.0), x, n);
  }

  /** Parts of a hundred still add up after rounding: where one ends in a half so does the other,
      and exactly one of the two is rounded up. */
  lemma RoundedParts(x: real, y: real)
    requires x + y == 100.0
    ensures Rounded(x) + Rounded(y) == 100.0
  {
    assert x * 100.0 + y * 100.0 == 10000 as real;
    NearestOfParts(x * 100.0, y * 100.0, 10000);
  }

  // ----- the evaluation itself

  /** What one evaluation reports and compares with the properties' thresholds. */
  datatype Report = Report(completion: real, shortfall: real, participation: real, halt: real, remaining: real)

  function ReportOf(s: Setup, sc: Scenario, steps: nat): Report
    requires s.quantity != 0.0
  {
    var b := After(s, steps);
    Report(Rounded(b.filled / s.quantity * 100.0), Rounded(Cost(s, sc, steps)),
           Rounded(MaxParticipation(s, steps) * 100.0), 0.0, Rounded(b.remaining / s.quantity * 100.0))
  }

  method SumAmounts(slices: seq<Slice>) returns (total: real)
    ensures total == Total(slices)
  {
    total := 0.0;
    for i := 0 to |slices|
      invariant total + Total(slices[i..]) == Total(slices)
    {
      assert slices[i..][1..] == slices[i + 1..];
      total := total + slices[i].amount;
    }
    assert slices[|slices|..] == [];
  }

  /** Splits the pending slices into those due by step `t` and the rest, each in order. */
  method Collect(pending: seq<Slice>, t: nat) returns (due: seq<Slice>, rest: seq<Slice>)
    ensures due == DueBy(pending, t) && rest == StillPending(pending, t)
  {
    due, rest := [], [];
    for i := 0 to |pending|
      invariant due + DueBy(pending[i..], t) == DueBy(pending, t)
      invariant rest + StillPending(pending[i..], t) == StillPending(pending, t)
    {
      assert pending[i..][1..] == pending[i + 1..];
      if pending[i].due <= t { due := due + [pending[i]]; } else { rest := rest + [pending[i]]; }
    }
    assert pending[|pending|..] == [];
  }

  /** What the market and, when corrected, the cap let through at a step. */
  method Capacity(s: Setup, t: nat) returns (executable: real)
    ensures executable == Executable(s, t)
  {
    var volume := s.volume(t);
    executable := Max(0.0, volume - s.forced(t));
    if s.fragile { executable := executable * 0.8; } else { executable := Min(executable, Share(s, volume)); }
  }

  /** What the strategy may still submit given what it counts as pending. */
  method Budget(s: Setup, rest: seq<Slice>, t: nat) returns (budget: real)
    ensures budget == Max(0.0, Share(s, Observed(s, t)) - if s.fragile then 0.0 else Total(rest))
  {
    var counted := 0.0;
    if !s.fragile { counted := SumAmounts(rest); }
    budget := Max(0.0, Share(s, Observed(s, t)) - counted);
  }

  /** One step of the loop: what fills, what is submitted, and what else stays pending. */
  method RunStep(s: Setup, remaining: real, pending: seq<Slice>, t: nat, ghost b: Books)
    returns (fill: real, target: real, rest: seq<Slice>)
    requires b.remaining == remaining && b.pending == pending
    ensures fill == FillAt(s, b, t) && target == TargetAt(s, b, t) && rest == StillPending(b.pending, t)
  {
    var due: seq<Slice>;
    due, rest := Collect(pending, t);
    var submitted := SumAmounts(due);
    var executable := Capacity(s, t);
    fill := Min(submitted, Min(executable, remaining));
    var budget := Budget(s, rest, t);
    target := Min(remaining - fill, budget);
  }

  lemma AfterNext(s: Setup, t: nat)
    ensures After(s, t + 1) == Booked(After(s, t), t, s.latency, FillAt(s, After(s, t), t), TargetAt(s, After(s, t), t))
  {
  }

  /** Runs the loop for `steps` steps. */
  method Evaluate(s: Setup, sc: Scenario, steps: nat) returns (report: Report)
    requires s.WellFormed()
    ensures report == ReportOf(s, sc, steps)
    ensures report.completion + report.remaining == 100.0
  {
    var remaining, filled, cost, maxPart, pending: seq<Slice> := s.quantity, 0.0, 0.0, 0.0, [];
    for t := 0 to steps
      invariant remaining == After(s, t).remaining && filled == After(s, t).filled && pending == After(s, t).pending
      invariant cost == Cost(s, sc, t) && maxPart == MaxParticipation(s, t)
    {
      var fill, target, rest := RunStep(s, remaining, pending, t, After(s, t));
      AfterNext(s, t);
      var part := Ratio(fill, s.volume(t));
      remaining, filled := remaining - fill, filled + fill;
      pending := rest + [Slice(t + s.latency, target)];
      maxPart := Max(maxPart, part);
      cost := cost + StepCost(part, sc);
    }
    report := MakeReport(s, sc, steps, filled, remaining, cost, maxPart);
  }

  method MakeReport(s: Setup, sc: Scenario, steps: nat, filled: real, remaining: real, cost: real, maxPart: real)
    returns (report: Report)
    requires s.WellFormed() && filled == After(s, steps).filled && remaining == After(s, steps).remaining
    requires cost == Cost(s, sc, steps) && maxPart == MaxParticipation(s, steps)
    ensures report == ReportOf(s, sc, steps)
    ensures report.completion + report.remaining == 100.0
  {
    report := Report(Rounded(filled / s.quantity * 100.0), Rounded(cost), Rounded(maxPart * 100.0), 0.0,
                     Rounded(remaining / s.quantity * 100.0));
    NothingIsLost(s, steps);
    AddsToHundred(filled, remaining, s.quantity);
    RoundedParts(filled / s.quantity * 100.0, remaining / s.quantity * 100.0);
  }

  lemma AddsToHundred(filled: real, remaining: real, quantity: real)
    requires filled + remaining == quantity && 0.0 < quantity
    ensures filled / quantity * 100.0 + remaining / quantity * 100.0 == 100.0
  {
    assert filled / quantity + remaining / quantity == (filled + remaining) / quantity;
  }
}
