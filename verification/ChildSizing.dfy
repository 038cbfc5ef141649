/** The sizing block: from an agent's wish to the quantity of a child order. */
module ChildSizing {

  datatype UrgencyCurve = Uniform | FrontLoaded | BackLoaded | Adaptive | OtherCurve

  datatype Policy = Policy(curve: UrgencyCurve, bufferSteps: nat, enforceParticipation: bool, maxParticipation: real,
                           includePending: bool)

  /** What the block reads at one decision. `stressed` switches on the completion buffer;
      `turbulent` is the part of it that does not depend on displayed depth. */
  datatype Moment = Moment(step: nat, steps: nat, lot: nat, available: nat, active: nat, observedVolume: nat,
                           stressed: bool, turbulent: bool)
  {
    predicate WellFormed() { 0 < lot && step < steps && 0 < available }

    function StepsLeft(): nat
      requires WellFormed()
    {
      steps - step
    }
  }

  function Lots(quantity: int, lot: nat): int
    requires 0 < lot
  {
    (quantity / lot) * lot
  }

  function Max(a: int, b: int): int { if a <= b then b else a }

  function Min(a: int, b: int): int { if a <= b then a else b }

  function Progress(m: Moment): real
    requires m.WellFormed()
  {
    m.step as real / (Max(1, m.steps - 1)) as real
  }

  function UrgencyFactor(policy: Policy, m: Moment): real
    requires m.WellFormed()
  {
    match policy.curve
    case FrontLoaded => 1.5 - Progress(m)
    case BackLoaded => 0.5 + Progress(m)
    case Adaptive => if m.turbulent then 1.25 else 1.0
    case _ => 1.0
  }

  lemma ProgressIsFraction(m: Moment)
    requires m.WellFormed()
    ensures 0.0 <= Progress(m) <= 1.0
  {
    if m.steps == 1 {
    } else {
      FractionBounds(m.step as real, (m.steps - 1) as real);
    }
  }

  lemma FractionBounds(a: real, b: real)
    requires 0.0 <= a <= b && 0.0 < b
    ensures 0.0 <= a / b <= 1.0
  {
  }

  lemma UrgencyIsModerate(policy: Policy, m: Moment)
    requires m.WellFormed()
    ensures 0.5 <= UrgencyFactor(policy, m) <= 1.5
  {
    ProgressIsFraction(m);
  }

  lemma LotsFit(quantity: int, lot: nat)
    requires 0 < lot
    ensures Lots(quantity, lot) <= quantity < Lots(quantity, lot) + lot
  {
  }

  /** Whole lots in the allowed share of the observed volume. */
  function ObservedLots(policy: Policy, m: Moment): int
    requires m.WellFormed() && 0.0 <= policy.maxParticipation
  {
    Lots((m.observedVolume as real * policy.maxParticipation).Floor, m.lot)
  }

  /** The most the participation rule lets the agent add at this moment. */
  function ParticipationRoom(policy: Policy, m: Moment): int
    requires m.WellFormed() && 0.0 <= policy.maxParticipation
  {
    var budget := Max(m.lot, ObservedLots(policy, m));
    if policy.includePending then Max(m.lot, budget - m.active) else budget
  }

  /** Evenly spreads what is left over the remaining steps, rounding each slice up. */
  function CompletionSlice(m: Moment): int
    requires m.WellFormed()
  {
    Lots((m.available + m.StepsLeft() - 1) / m.StepsLeft(), m.lot)
  }

  predicate Completing(policy: Policy, m: Moment)
    requires m.WellFormed()
  {
    policy.bufferSteps != 0 && m.stressed && m.StepsLeft() <= policy.bufferSteps
  }

  /** The participation room is a lot, or what the agent has at work and may add stays within the
      allowed share of the observed volume; either way it misses that share by less than a lot. */
  lemma RoomIsShare(policy: Policy, m: Moment)
    requires m.WellFormed() && 0.0 <= policy.maxParticipation
    ensures var room, share := ParticipationRoom(policy, m), m.observedVolume as real * policy.maxParticipation;
            var counted := if policy.includePending then m.active + room else room;
            m.lot <= room && (m.lot < room ==> counted as real <= share) && share < (counted + m.lot) as real
  {
    var share := m.observedVolume as real * policy.maxParticipation;
    LotsFit(share.Floor, m.lot);
    assert share.Floor as real <= share < share.Floor as real + 1.0;
    assert share < (ObservedLots(policy, m) + m.lot) as real;
  }

  /** The completion slice is the even share of what is left, rounded up and cut to whole lots. */
  lemma SliceIsEven(m: Moment)
    requires m.WellFormed()
    ensures var even := (m.available + m.StepsLeft() - 1) / m.StepsLeft();
            && CompletionSlice(m) <= even < CompletionSlice(m) + m.lot
            && (even - 1) * m.StepsLeft() < m.available <= even * m.StepsLeft()
  {
    var left := m.StepsLeft();
    var even := (m.available + left - 1) / left;
    LotsFit(even, m.lot);
    assert m.available + left - 1 == even * left + (m.available + left - 1) % left;
    assert (even - 1) * left == even * left - left;
  }

  /** Front-loaded agents ask for less with every step and back-loaded ones for as much more; uniform
      ones never change, and adaptive ones ask for more in turbulence. */
  lemma UrgencyTurns(policy: Policy, m: Moment, later: Moment)
    requires m.WellFormed() && later == m.(step := later.step) && later.WellFormed() && m.step < later.step
    ensures match policy.curve
            case FrontLoaded => UrgencyFactor(policy, later) < UrgencyFactor(policy, m)
            case BackLoaded => UrgencyFactor(policy, m) < UrgencyFactor(policy, later)
            case Adaptive => UrgencyFactor(policy, m) == if m.turbulent then 1.25 else 1.0
            case _ => UrgencyFactor(policy, m) == 1.0
    ensures policy.curve == FrontLoaded ==>
              UrgencyFactor(policy, m) + UrgencyFactor(policy.(curve := BackLoaded), m) == 2.0
    ensures policy.curve == FrontLoaded && m.step == 0 ==> UrgencyFactor(policy, m) == 1.5
    ensures policy.curve == FrontLoaded && later.step == m.steps - 1 ==> UrgencyFactor(policy, later) == 0.5
  {
    LargerFraction(m.step as real, later.step as real, (m.steps - 1) as real);
    assert (m.steps - 1) as real / (m.steps - 1) as real == 1.0;
  }

  lemma LargerFraction(a: real, b: real, c: real)
    requires 0.0 <= a < b && 0.0 < c
    ensures a / c < b / c
  {
    var p, q := a / c, b / c;
    assert p * c == a && q * c == b;
    assert (q - p) * c == b - a;
    if q <= p { Product(p - q, c); }
  }

  /** The agent's wish, bent by its urgency. */
  function Scaled(policy: Policy, m: Moment, wish: nat): int
    requires m.WellFormed()
  {
    (wish as real * UrgencyFactor(policy, m)).Floor
  }

  /** A lot, or the most whole lots within `limit`. */
  predicate LotsWithin(adjusted: int, limit: int, lot: nat) {
    limit - lot < adjusted <= Max(lot, limit) && lot <= adjusted
  }

  /** What the block aims for before the participation rule: the scaled wish in whole lots, and inside
      the completion buffer no less than the even slice of what is left. */
  predicate OnAim(policy: Policy, m: Moment, wish: nat, adjusted: int)
    requires m.WellFormed()
  {
    || LotsWithin(adjusted, Scaled(policy, m, wish), m.lot)
    || (Completing(policy, m) && adjusted == CompletionSlice(m) && Scaled(policy, m, wish) - m.lot < adjusted)
  }

  predicate Capped(policy: Policy, m: Moment, adjusted: int)
    requires m.WellFormed() && 0.0 <= policy.maxParticipation
  {
    policy.enforceParticipation && adjusted == ParticipationRoom(policy, m)
  }

  /** Sizes one child, before it is cut to what the parent can take. It is on its aim, or at the
      participation room when that is enforced and less; inside the completion buffer only the room
      can take it below the even slice. */
  method SizeChild(policy: Policy, m: Moment, wish: nat) returns (adjusted: int)
    requires m.WellFormed() && 0.0 <= policy.maxParticipation
    ensures m.lot <= adjusted
    ensures policy.enforceParticipation ==> adjusted <= ParticipationRoom(policy, m)
    ensures adjusted
         <= Max(m.lot, Max(Scaled(policy, m, wish), if Completing(policy, m) then CompletionSlice(m) else 0))
    ensures !Capped(policy, m, adjusted) ==> OnAim(policy, m, wish, adjusted)
    ensures !Capped(policy, m, adjusted) && Completing(policy, m) ==> CompletionSlice(m) <= adjusted
    ensures !Capped(policy, m, adjusted) && !Completing(policy, m) ==>
              wish / 2 - m.lot < adjusted <= Max(m.lot, wish + wish / 2)
  {
    var scaled := ScaleByUrgency(policy, m, wish);
    LotsFit(scaled, m.lot);
    adjusted := Max(m.lot, Lots(scaled, m.lot));
    if Completing(policy, m) {
      adjusted := Max(adjusted, CompletionSlice(m));
    }
    if policy.enforceParticipation {
      var budget := Max(m.lot, ObservedLots(policy, m));
      if policy.includePending {
        budget := Max(m.lot, budget - m.active);
      }
      adjusted := Min(adjusted, budget);
    }
  }

  method ScaleByUrgency(policy: Policy, m: Moment, wish: nat) returns (scaled: int)
    requires m.WellFormed()
    ensures scaled == Scaled(policy, m, wish) && wish / 2 <= scaled <= wish + wish / 2
  {
    UrgencyIsModerate(policy, m);
    ScaledIsModerate(wish, UrgencyFactor(policy, m));
    scaled := (wish as real * UrgencyFactor(policy, m)).Floor;
  }

  lemma FloorAtMost(x: real, n: int)
    requires x < (n + 1) as real
    ensures x.Floor <= n
  {
  }

  lemma FloorAtLeast(x: real, n: int)
    requires n as real <= x
    ensures n <= x.Floor
  {
  }

  lemma ScaledIsModerate(wish: nat, factor: real)
    requires 0.5 <= factor <= 1.5
    ensures wish / 2 <= (wish as real * factor).Floor <= wish + wish / 2
  {
    var w := wish as real;
    var x := ScaleBounds(w, factor);
    assert wish as real <= 2.0 * x <= 3.0 * wish as real;
    HalfBounds(wish, x);
  }

  lemma ScaleBounds(w: real, factor: real) returns (x: real)
    requires 0.5 <= factor <= 1.5 && 0.0 <= w
    ensures x == w * factor && w <= 2.0 * x <= 3.0 * w
  {
    x := w * factor;
    var low, high := factor - 0.5, 1.5 - factor;
    assert x == w * low + 0.5 * w;
    assert x == 1.5 * w - w * high;
    Product(w, low);
    Product(w, high);
  }

  lemma Product(a: real, b: real)
    requires 0.0 <= a && 0.0 <= b
    ensures 0.0 <= a * b
  {
  }

  lemma HalfBounds(wish: nat, x: real)
    requires wish as real <= 2.0 * x <= 3.0 * wish as real
    ensures wish / 2 <= x.Floor <= wish + wish / 2
  {
    var half, odd := wish / 2, wish % 2;
    assert wish == 2 * half + odd && odd <= 1;
    assert wish as real == 2.0 * half as real + odd as real && odd as real <= 1.0;
    assert (wish + half + 1) as real == wish as real + half as real + 1.0;
    FloorAtMost(x, wish + half);
    FloorAtLeast(x, half);
  }

  /** Inside the buffer of an uncapped agent the last decision sends every whole lot that is left. */
  lemma LastStepSendsEverything(policy: Policy, m: Moment, adjusted: int)
    requires m.WellFormed() && m.StepsLeft() == 1 && CompletionSlice(m) <= adjusted
    ensures Lots(Min(m.available, adjusted), m.lot) == Lots(m.available, m.lot)
  {
    LotsFit(m.available, m.lot);
    if adjusted < m.available {
      LotsOfBetween(m.available, adjusted, m.lot);
    }
  }

  lemma LotsOfBetween(quantity: int, between: int, lot: nat)
    requires 0 < lot && Lots(quantity, lot) <= between <= quantity
    ensures Lots(between, lot) == Lots(quantity, lot)
  {
    var a, b := quantity / lot, between / lot;
    assert quantity == a * lot + quantity % lot && between == b * lot + between % lot;
    if b < a {
      Spread(a, b, lot);
    } else if a < b {
      Spread(b, a, lot);
    }
  }

  lemma Spread(larger: int, smaller: int, lot: nat)
    requires smaller < larger
    ensures smaller * lot + lot <= larger * lot
  {
    assert larger * lot - smaller * lot == (larger - smaller) * lot;
    OneOrMore(larger - smaller, lot);
  }

  lemma OneOrMore(factor: int, lot: nat)
    requires 1 <= factor
    ensures lot <= factor * lot
  {
  }
}
