/** The corrected strategy's throughput bound is attained: in a steady market it fills its share once
    per latency until the order is done. */
module PovThroughput {
  import opened PovHarness
  import opened FragilePov
  import opened FragileOverstep

  /** The same volume at every step, of which nothing is taken by forced selling. */
  ghost predicate Steady(s: Setup, volume: real) {
    && s.WellFormed() && !s.fragile && 0.0 <= s.cap <= 1.0
    && forall t :: s.volume(t) == volume && s.forced(t) == 0.0
  }

  /** Number of whole latencies in the steps before the last of `steps`. */
  function Rounds(s: Setup, steps: nat): nat
    requires 1 <= s.latency
  {
    if steps == 0 then 0 else (steps - 1) / s.latency
  }

  /** What is left of the order after some rounds of full slices. */
  function Left(s: Setup, slice: real, rounds: nat): real { Max(0.0, s.quantity - Times(rounds, slice)) }

  function Target(s: Setup, t: nat): real { TargetAt(s, After(s, t), t) }

  // ----- steps and latencies

  lemma Divides(t: nat, latency: nat)
    requires 1 <= latency
    ensures t == (t / latency) * latency + t % latency && t % latency < latency
  {
  }

  lemma PositiveFactor(q: nat, latency: nat)
    requires 0 < q * latency
    ensures 1 <= q
  {
  }

  lemma QuotientIs(t: nat, latency: nat, q: nat, r: nat)
    requires r < latency && t == q * latency + r
    ensures t / latency == q && t % latency == r
  {
    UniqueQuotient(t, latency, q, r);
  }

  /** A latency earlier is one round earlier, at the same place in it. */
  lemma OneRoundBack(t: nat, latency: nat)
    requires 1 <= latency <= t
    ensures 1 <= t / latency && (t - latency) / latency == t / latency - 1 && (t - latency) % latency == t % latency
  {
    var q, r := t / latency, t % latency;
    Divides(t, latency);
    PositiveFactor(q, latency);
    assert t - latency == (q - 1) * latency + r by { assert (q - 1) * latency == q * latency - latency; }
    QuotientIs(t - latency, latency, q - 1, r);
  }

  lemma StepBack(t: nat, latency: nat)
    requires 1 <= latency && 1 <= t
    ensures (t - 1) / latency == if t % latency == 0 then t / latency - 1 else t / latency
  {
    var q, r := t / latency, t % latency;
    Divides(t, latency);
    if r == 0 {
      PositiveFactor(q, latency);
      assert t - 1 == (q - 1) * latency + (latency - 1) by { assert (q - 1) * latency == q * latency - latency; }
      QuotientIs(t - 1, latency, q - 1, latency - 1);
    } else {
      QuotientIs(t - 1, latency, q, r - 1);
    }
  }

  /** Steps between two round starts are in the earlier round and no round's start. */
  lemma InRound(t: nat, k: nat, latency: nat)
    requires 1 <= latency && t % latency == 0 && k < t < k + latency
    ensures k % latency != 0 && 1 <= t / latency && k / latency == t / latency - 1
  {
    var q := t / latency;
    Divides(t, latency);
    PositiveFactor(q, latency);
    assert k == (q - 1) * latency + (k + latency - t) by { assert (q - 1) * latency == q * latency - latency; }
    QuotientIs(k, latency, q - 1, k + latency - t);
  }

  /** The round of a step starts within the last latency. */
  lemma RoundStart(t: nat, latency: nat)
    requires 1 <= latency
    ensures t % latency <= t
    ensures (t - t % latency) % latency == 0 && (t - t % latency) / latency == t / latency
  {
    Divides(t, latency);
    QuotientIs(t - t % latency, latency, t / latency, 0);
  }

  // ----- what is pending

  lemma {:induction false} TotalOfZeros(pending: seq<Slice>)
    requires forall i :: 0 <= i < |pending| ==> pending[i].amount == 0.0
    ensures Total(pending) == 0.0
  {
    if pending != [] {
      TotalOfZeros(pending[1..]);
    }
  }

  lemma {:induction false} TotalCovers(pending: seq<Slice>, i: nat)
    requires AllNonNegative(pending) && i < |pending|
    ensures pending[i].amount <= Total(pending)
  {
    PartsAreNonNegative(pending[1..], 0);
    if i != 0 {
      TotalCovers(pending[1..], i - 1);
    }
  }

  lemma LastButFirst(s: Setup, t: nat, n: nat)
    requires 1 <= n <= t
    ensures LastSubmitted(s, t, n)[1..] == LastSubmitted(s, t, n - 1)
  {
    var some, fewer := LastSubmitted(s, t, n)[1..], LastSubmitted(s, t, n - 1);
    assert |some| == |fewer| && forall i :: 0 <= i < |fewer| ==> some[i] == fewer[i];
  }

  /** What stays pending in a step are the slices of the latency before it. */
  lemma StillPendingAre(s: Setup, t: nat)
    requires 1 <= s.latency
    ensures StillPending(After(s, t).pending, t) == LastSubmitted(s, t, if t < s.latency then t else s.latency - 1)
  {
    PendingAreSubmitted(s, t);
    StaysPipelined(s, t);
    OneDue(s, After(s, t).pending, t);
    if t >= s.latency { LastButFirst(s, t, s.latency); }
  }

  // ----- the rounds

  /** Each round starts with a full slice, or with all that is left; while a full slice is left,
      nothing else is submitted in it. */
  ghost predicate RoundsUntil(s: Setup, slice: real, t: nat)
    requires 1 <= s.latency
  {
    && After(s, t).remaining == Left(s, slice, Rounds(s, t))
    && forall k: nat :: k < t ==> RoundAt(s, slice, k)
  }

  predicate RoundAt(s: Setup, slice: real, k: nat)
    requires 1 <= s.latency
  {
    var left := Left(s, slice, k / s.latency);
    && (k % s.latency == 0 ==> Target(s, k) == Min(left, slice))
    && (k % s.latency != 0 && slice <= left ==> Target(s, k) == 0.0)
  }

  lemma LeftNext(s: Setup, slice: real, rounds: nat)
    requires 0.0 <= slice
    ensures Left(s, slice, rounds + 1) == Max(0.0, Left(s, slice, rounds) - slice)
    ensures Left(s, slice, rounds) < slice ==> Left(s, slice, rounds + 1) == 0.0
  {
  }

  lemma TargetsAreNonNegative(s: Setup, t: nat)
    requires s.WellFormed() && 0.0 <= s.cap
    ensures 0.0 <= Target(s, t) && 0.0 <= After(s, t).remaining && AllNonNegative(StillPending(After(s, t).pending, t))
  {
    BooksAreNonNegative(s, t);
    StepIsNonNegative(s, After(s, t), t);
    PartsAreNonNegative(After(s, t).pending, t);
  }

  lemma ShareWithin(s: Setup, volume: real)
    requires 0.0 <= s.cap <= 1.0 && 0.0 <= volume
    ensures 0.0 <= Share(s, volume) <= volume
  {
    Product(s.cap, volume);
    Product(1.0 - s.cap, volume);
    assert (1.0 - s.cap) * volume == volume - s.cap * volume;
  }

  lemma SteadyRoom(s: Setup, volume: real, t: nat)
    requires Steady(s, volume)
    ensures 0.0 <= Share(s, volume) == Executable(s, t)
  {
    assert 0.0 < s.volume(t) == volume && s.forced(t) == 0.0;
    ShareWithin(s, volume);
  }

  function DueAmount(s: Setup, t: nat): real { if t < s.latency then 0.0 else Target(s, t - s.latency) }

  lemma DueThen(s: Setup, t: nat)
    requires 1 <= s.latency
    ensures Total(DueBy(After(s, t).pending, t)) == DueAmount(s, t)
  {
    if t < s.latency {
      StaysPipelined(s, t);
      OneDue(s, After(s, t).pending, t);
    } else {
      DueIsTarget(s, t);
    }
  }

  /** The most of what is due and left that the market takes after forced selling - of which the
      fragile strategy can use four fifths and the corrected one its share of all volume. */
  predicate MostFilled(fragile: bool, fill: real, due: real, left: real, free: real, share: real) {
    && fill <= due && fill <= left && fill <= free && (if fragile then 5.0 * fill <= 4.0 * free else fill <= share)
    && (fill == due || fill == left || (if fragile then 5.0 * fill == 4.0 * free else fill == free || fill == share))
  }

  lemma MinIsMost(fragile: bool, due: real, left: real, free: real, share: real)
    requires 0.0 <= free
    ensures MostFilled(fragile, Min(due, Min(if fragile then free * 0.8 else Min(free, share), left)), due, left, free,
                       share)
  {
  }

  lemma BooksNext(s: Setup, t: nat)
    ensures After(s, t + 1).filled == After(s, t).filled + FillAt(s, After(s, t), t)
    ensures After(s, t + 1).remaining == After(s, t).remaining - FillAt(s, After(s, t), t)
    ensures After(s, t + 1).submitted == After(s, t).submitted + Target(s, t)
  {
  }

  lemma FillIsMost(s: Setup, t: nat)
    requires 1 <= s.latency
    ensures var fill, free := After(s, t + 1).filled - After(s, t).filled, Max(0.0, s.volume(t) - s.forced(t));
            MostFilled(s.fragile, fill, DueAmount(s, t), After(s, t).remaining, free, Share(s, s.volume(t)))
  {
    var free := Max(0.0, s.volume(t) - s.forced(t));
    DueThen(s, t);
    MinIsMost(s.fragile, DueAmount(s, t), After(s, t).remaining, free, Share(s, s.volume(t)));
    BooksNext(s, t);
  }

  /** The most of what is left for which there is room, or nothing. */
  predicate MostSent(sent: real, left: real, room: real) {
    sent <= left && (sent == left || (sent == room && 0.0 <= room) || (sent == 0.0 && room <= 0.0))
    && (sent <= room || sent <= 0.0)
  }

  /** Every step submits the most for which its share of the volume it sees has room. Only the
      corrected strategy makes room for what it already has on the way, and the fragile one sees the
      volume as it would be in a calm market. */
  lemma SubmissionIsMost(s: Setup, t: nat)
    requires 1 <= s.latency
    ensures var sent, left := After(s, t + 1).submitted - After(s, t).submitted, After(s, t + 1).remaining;
            var coming := Total(After(s, t).pending) - DueAmount(s, t);
            MostSent(sent, left, if s.fragile then Share(s, s.calm(t)) else Share(s, s.volume(t)) - coming)
  {
    DueThen(s, t);
    TotalSplits(After(s, t).pending, t);
    BooksNext(s, t);
  }

  /** In a steady market a step can fill up to a slice of what is due. */
  lemma SteadyFill(s: Setup, volume: real, t: nat)
    requires Steady(s, volume)
    ensures 0.0 <= Share(s, volume)
    ensures FillAt(s, After(s, t), t) == Min(DueAmount(s, t), Min(Share(s, volume), After(s, t).remaining))
    ensures After(s, t + 1).remaining == After(s, t).remaining - FillAt(s, After(s, t), t)
  {
    SteadyRoom(s, volume, t);
    DueThen(s, t);
  }

  lemma TargetIs(s: Setup, t: nat)
    requires !s.fragile
    ensures Target(s, t) == Min(After(s, t + 1).remaining,
                                Max(0.0, Share(s, s.volume(t)) - Total(StillPending(After(s, t).pending, t))))
  {
    BooksNext(s, t);
  }

  /** It submits what its share leaves over the slices still pending. */
  lemma SteadyTarget(s: Setup, volume: real, t: nat)
    requires Steady(s, volume)
    ensures var still := Total(StillPending(After(s, t).pending, t));
            0.0 <= still
            && Target(s, t) == Min(After(s, t + 1).remaining, Max(0.0, Share(s, volume) - still))
  {
    TargetIs(s, t);
    BooksAreNonNegative(s, t);
    PartsAreNonNegative(After(s, t).pending, t);
    assert s.volume(t) == volume;
  }

  lemma NothingFillsEarly(s: Setup, volume: real, t: nat)
    requires Steady(s, volume) && t < s.latency
    ensures After(s, t + 1).remaining == After(s, t).remaining && Rounds(s, t) == Rounds(s, t + 1) == 0
  {
    SteadyFill(s, volume, t);
    TargetsAreNonNegative(s, t);
    SmallQuotient(t, s.latency);
    if t != 0 { SmallQuotient(t - 1, s.latency); }
  }

  /** At the start of a round what was left then fills, up to a slice; in between nothing does. */
  lemma LaterFill(s: Setup, slice: real, t: nat, left: real)
    requires s.latency >= 1 && s.latency <= t && 0.0 <= slice && RoundAt(s, slice, t - s.latency)
    requires left == Left(s, slice, Rounds(s, t)) && 0.0 <= Target(s, t - s.latency)
    ensures left - Min(DueAmount(s, t), Min(slice, left)) == Left(s, slice, Rounds(s, t + 1))
  {
    OneRoundBack(t, s.latency);
    StepBack(t, s.latency);
    LeftNext(s, slice, t / s.latency - 1);
  }

  lemma FillKeepsRounds(s: Setup, volume: real, t: nat)
    requires Steady(s, volume) && RoundsUntil(s, Share(s, volume), t)
    ensures After(s, t + 1).remaining == Left(s, Share(s, volume), Rounds(s, t + 1))
  {
    if t < s.latency {
      NothingFillsEarly(s, volume, t);
    } else {
      SteadyFill(s, volume, t);
      TargetsAreNonNegative(s, t - s.latency);
      assert RoundAt(s, Share(s, volume), t - s.latency);
      LaterFill(s, Share(s, volume), t, After(s, t).remaining);
    }
  }

  lemma {:induction false} LastAreNothing(s: Setup, t: nat, n: nat)
    requires n <= t && forall k: nat :: t - n <= k < t ==> Target(s, k) == 0.0
    ensures Total(LastSubmitted(s, t, n)) == 0.0
  {
    var pending := LastSubmitted(s, t, n);
    forall i | 0 <= i < n
      ensures pending[i].amount == 0.0
    {
      assert pending[i].amount == Target(s, t - n + i);
    }
    TotalOfZeros(pending);
  }

  lemma LastCover(s: Setup, t: nat, n: nat, k: nat)
    requires n <= t && t - n <= k < t && AllNonNegative(LastSubmitted(s, t, n))
    ensures Target(s, k) <= Total(LastSubmitted(s, t, n))
  {
    assert LastSubmitted(s, t, n)[k - (t - n)] == Submitted(s, k);
    TotalCovers(LastSubmitted(s, t, n), k - (t - n));
  }

  lemma PendingAtStart(s: Setup, volume: real, t: nat)
    requires Steady(s, volume) && RoundsUntil(s, Share(s, volume), t) && t % s.latency == 0
    requires t != 0 ==> 1 <= t / s.latency && Share(s, volume) <= Left(s, Share(s, volume), t / s.latency - 1)
    ensures Total(StillPending(After(s, t).pending, t)) == 0.0
  {
    var n := if t < s.latency then t else s.latency - 1;
    StillPendingAre(s, t);
    forall k: nat | t - n <= k < t
      ensures Target(s, k) == 0.0
    {
      InRound(t, k, s.latency);
      assert RoundAt(s, Share(s, volume), k);
    }
    LastAreNothing(s, t, n);
  }

  lemma PendingWithin(s: Setup, volume: real, t: nat)
    requires Steady(s, volume) && RoundsUntil(s, Share(s, volume), t) && t % s.latency != 0
    requires Share(s, volume) <= Left(s, Share(s, volume), t / s.latency)
    ensures Share(s, volume) <= Total(StillPending(After(s, t).pending, t))
  {
    var start := t - t % s.latency;
    RoundStart(t, s.latency);
    StillPendingAre(s, t);
    TargetsAreNonNegative(s, t);
    assert RoundAt(s, Share(s, volume), start);
    LastCover(s, t, if t < s.latency then t else s.latency - 1, start);
  }

  lemma TargetKeepsRounds(s: Setup, volume: real, t: nat)
    requires Steady(s, volume) && RoundsUntil(s, Share(s, volume), t)
    requires After(s, t + 1).remaining == Left(s, Share(s, volume), Rounds(s, t + 1))
    ensures RoundAt(s, Share(s, volume), t)
  {
    var slice, left := Share(s, volume), Left(s, Share(s, volume), t / s.latency);
    SteadyRoom(s, volume, t);
    SteadyTarget(s, volume, t);
    if t % s.latency == 0 {
      if t == 0 {
        PendingAtStart(s, volume, t);
      } else {
        RoundBefore(t, s.latency);
        LeftNext(s, slice, t / s.latency - 1);
        if slice <= Left(s, slice, t / s.latency - 1) { PendingAtStart(s, volume, t); }
      }
    } else if slice <= left {
      PendingWithin(s, volume, t);
    }
  }

  lemma RoundBefore(t: nat, latency: nat)
    requires 1 <= latency && 1 <= t && t % latency == 0
    ensures 1 <= t / latency
  {
    Divides(t, latency);
    PositiveFactor(t / latency, latency);
  }

  lemma {:induction false} RoundsGoOn(s: Setup, volume: real, t: nat)
    requires Steady(s, volume)
    ensures RoundsUntil(s, Share(s, volume), t)
  {
    if t != 0 {
      RoundsGoOn(s, volume, t - 1);
      FillKeepsRounds(s, volume, t - 1);
      TargetKeepsRounds(s, volume, t - 1);
    }
  }

  /** In a steady market the throughput bound is met with equality until the order is done: after any
      number of steps the filled quantity is one capped share for each whole latency that the steps
      after the first contain, or the whole order. */
  lemma ThroughputIsAttained(s: Setup, volume: real, steps: nat)
    requires Steady(s, volume) && 1 <= steps
    ensures After(s, steps).filled
         == Min(s.quantity, Multiple((steps - 1) / s.latency, Share(s, volume)))
  {
    RoundsGoOn(s, volume, steps);
    NothingIsLost(s, steps);
    TimesIsMultiple((steps - 1) / s.latency, Share(s, volume));
  }

  // ----- the cost of it

  /** Twice the spread on the filled share of the volume, and a flat charge for every step of
      heightened volatility. */
  function Charge(sc: Scenario, filled: real, volume: real, steps: nat): real
    requires volume != 0.0
  {
    filled / volume * sc.spread * 2.0 + Multiple(steps, Max(0.0, sc.volatility - 1.0) * 0.4)
  }

  lemma ChargeNext(sc: Scenario, filled: real, fill: real, volume: real, steps: nat)
    requires 0.0 < volume
    ensures Charge(sc, filled, volume, steps) + StepCost(fill / volume, sc)
         == Charge(sc, filled + fill, volume, steps + 1)
  {
    OneMore(steps + 1, Max(0.0, sc.volatility - 1.0) * 0.4);
    AddShares(filled, fill, volume, sc.spread);
  }

  lemma AddShares(filled: real, fill: real, volume: real, spread: real)
    requires 0.0 < volume
    ensures filled / volume * spread * 2.0 + fill / volume * spread * 2.0 == (filled + fill) / volume * spread * 2.0
  {
    var a, b, c := filled / volume, fill / volume, (filled + fill) / volume;
    assert c == a + b;
    assert c * spread == a * spread + b * spread;
  }

  lemma NoCharge(sc: Scenario, volume: real)
    requires 0.0 < volume
    ensures Charge(sc, 0.0, volume, 0) == 0.0
  {
  }

  lemma CostNext(s: Setup, sc: Scenario, t: nat)
    requires 0.0 < s.volume(t)
    ensures Cost(s, sc, t + 1) == Cost(s, sc, t) + StepCost(FillAt(s, After(s, t), t) / s.volume(t), sc)
  {
  }

  predicate Charged(sc: Scenario, cost: real, filled: real, volume: real, steps: nat) {
    volume != 0.0 && cost == Charge(sc, filled, volume, steps)
  }

  lemma ChargedNext(sc: Scenario, cost: real, filled: real, fill: real, volume: real, steps: nat)
    requires 0.0 < volume && Charged(sc, cost, filled, volume, steps)
    ensures Charged(sc, cost + StepCost(fill / volume, sc), filled + fill, volume, steps + 1)
  {
    ChargeNext(sc, filled, fill, volume, steps);
  }

  lemma {:induction false} SteadyIsCharged(s: Setup, sc: Scenario, volume: real, steps: nat)
    requires 0.0 < volume && forall t :: s.volume(t) == volume
    ensures Charged(sc, Cost(s, sc, steps), After(s, steps).filled, volume, steps)
  {
    if steps == 0 {
      NoCharge(sc, volume);
    } else {
      var t := steps - 1;
      var filled, fill := After(s, t).filled, FillAt(s, After(s, t), t);
      SteadyIsCharged(s, sc, volume, t);
      assert s.volume(t) == volume;
      ChargedNext(sc, Cost(s, sc, t), filled, fill, volume, t);
      assert Cost(s, sc, steps) == Cost(s, sc, t) + StepCost(fill / volume, sc) by {
        CostNext(s, sc, t);
      }
      assert After(s, steps).filled == filled + fill by {
        BooksNext(s, t);
      }
    }
  }

  /** Where the volume never changes the cost proxy follows from the filled quantity alone, for both
      strategies. */
  lemma SteadyCost(s: Setup, sc: Scenario, volume: real, steps: nat)
    requires 0.0 < volume && forall t :: s.volume(t) == volume
    ensures Cost(s, sc, steps) == Charge(sc, After(s, steps).filled, volume, steps)
  {
    SteadyIsCharged(s, sc, volume, steps);
  }

  /** The latency in steps is the nearest number of tens of milliseconds, the even one of two, and at
      least one. */
  lemma LatencyIsNearest(ms: nat)
    ensures var steps := LatencySteps(ms);
            && (steps == 1 || -5 <= 10 * steps - ms <= 5) && (ms < 15 ==> steps == 1)
            && (15 <= ms && (10 * steps - ms == 5 || 10 * steps - ms == -5) ==> steps % 2 == 0)
  {
  }
}
