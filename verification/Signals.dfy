/** Rolling-window trading signals: each position depends on nothing later than its own price -
    for breakouts exactly when the exit window is not longer than it should be. */
module Signals {
  import opened Wrappers
  import opened Ranks

  // ----- moving-average crossover

  /** Correlates a window of `k` equal weights with the prices, as far as it fits. */
  function Weighted(prices: seq<real>, k: nat, weight: real): real
    requires k <= |prices|
  {
    if k == 0 then 0.0 else Weighted(prices, k - 1, weight) + prices[k - 1] * weight
  }

  /** The valid part of the convolution with `window` equal weights that add up to one. */
  function Convolved(prices: seq<real>, window: nat): (out: seq<real>)
    requires 1 <= window <= |prices|
    ensures |out| == |prices| - window + 1
  {
    seq(|prices| - window + 1,
        k requires 0 <= k < |prices| - window + 1 => Weighted(prices[k..], window, 1.0 / window as real))
  }

  predicate SmaAccepts(prices: seq<real>, fast: nat, slow: nat) { 2 <= fast < slow < |prices| }

  /** Zero until the slow window is full, then one where the fast average is above the slow one. */
  function SmaPositions(prices: seq<real>, fast: nat, slow: nat): (positions: seq<real>)
    requires SmaAccepts(prices, fast, slow)
    ensures |positions| == |prices|
  {
    var aligned := Convolved(prices, fast)[slow - fast..];
    var base := Convolved(prices, slow);
    seq(slow - 1, _ => 0.0)
    + seq(|base|, i requires 0 <= i < |base| => if aligned[i] > base[i] then 1.0 else 0.0)
  }

  function Average(values: seq<real>): real
    requires values != []
  {
    Sum(values) / |values| as real
  }

  lemma {:induction false} WeightedIsScaled(prices: seq<real>, k: nat, weight: real)
    requires k <= |prices|
    ensures Weighted(prices, k, weight) == Sum(prices[..k]) * weight
  {
    if k != 0 {
      WeightedIsScaled(prices, k - 1, weight);
      assert prices[..k][..k - 1] == prices[..k - 1];
      assert (Sum(prices[..k - 1]) + prices[k - 1]) * weight == Sum(prices[..k - 1]) * weight + prices[k - 1] * weight;
    }
  }

  lemma ConvolutionAverages(prices: seq<real>, window: nat, k: nat)
    requires 1 <= window <= |prices| && k < |prices| - window + 1
    ensures Convolved(prices, window)[k] == Average(prices[k..k + window])
  {
    WeightedIsScaled(prices[k..], window, 1.0 / window as real);
    assert prices[k..][..window] == prices[k..k + window];
    Reciprocal(Sum(prices[k..k + window]), window as real);
  }

  lemma Reciprocal(x: real, n: real)
    requires n != 0.0
    ensures x * (1.0 / n) == x / n
  {
  }

  /** The convolution form compares, at every index, the averages of the last `fast` and the last
      `slow` prices. */
  lemma SmaComparesAverages(prices: seq<real>, fast: nat, slow: nat, i: nat)
    requires SmaAccepts(prices, fast, slow) && i < |prices|
    ensures SmaPositions(prices, fast, slow)[i]
         == if i + 1 < slow then 0.0
            else if Average(prices[i + 1 - fast..i + 1]) > Average(prices[i + 1 - slow..i + 1]) then 1.0 else 0.0
  {
    if i + 1 >= slow {
      var k := i + 1 - slow;
      ConvolutionAverages(prices, slow, k);
      ConvolutionAverages(prices, fast, i + 1 - fast);
      assert Convolved(prices, fast)[slow - fast..][k] == Convolved(prices, fast)[i + 1 - fast];
    }
  }

  /** No lookahead: a prefix of the prices gives the same prefix of the positions. */
  lemma SmaSeesNoFuture(prices: seq<real>, fast: nat, slow: nat, n: nat)
    requires SmaAccepts(prices, fast, slow) && slow < n <= |prices|
    ensures SmaPositions(prices[..n], fast, slow) == SmaPositions(prices, fast, slow)[..n]
  {
    forall i | 0 <= i < n
      ensures SmaPositions(prices[..n], fast, slow)[i] == SmaPositions(prices, fast, slow)[i]
    {
      SmaComparesAverages(prices[..n], fast, slow, i);
      SmaComparesAverages(prices, fast, slow, i);
      if i + 1 >= slow {
        assert prices[..n][i + 1 - fast..i + 1] == prices[i + 1 - fast..i + 1];
        assert prices[..n][i + 1 - slow..i + 1] == prices[i + 1 - slow..i + 1];
      }
    }
  }

  // ----- breakout momentum

  function Highest(values: seq<real>): real
    requires values != []
  {
    if |values| == 1 then values[0]
    else
      var rest := Highest(values[1..]);
      if rest > values[0] then rest else values[0]
  }

  function Lowest(values: seq<real>): real
    requires values != []
  {
    if |values| == 1 then values[0]
    else
      var rest := Lowest(values[1..]);
      if rest < values[0] then rest else values[0]
  }

  /** Where a slice that starts `fast` before `index` really starts: before the first price it
      counts from the end of the series. */
  function SliceStart(length: nat, index: nat, fast: nat): nat {
    if fast <= index then index - fast else if fast <= length + index then length + index - fast else 0
  }

  /** The minimum of the exit window exists; otherwise the computation raises. */
  predicate HasExit(length: nat, index: nat, fast: nat) {
    SliceStart(length, index, fast) < index
  }

  predicate BreakoutAccepts(length: nat, slow: nat) { 3 <= slow < length }

  /** No exit window before index `end` is empty. */
  predicate ExitsTo(length: nat, fast: nat, slow: nat, end: nat) {
    forall index :: slow <= index < end ==> HasExit(length, index, fast)
  }

  predicate BreakoutSucceeds(length: nat, fast: nat, slow: nat) {
    BreakoutAccepts(length, slow) && ExitsTo(length, fast, slow, length)
  }

  /** Enter above the entry window's high, leave below the exit window's low, else stay. */
  function BreakoutStep(prices: seq<real>, fast: nat, slow: nat, index: nat, previous: real): real
    requires 1 <= slow <= index < |prices| && HasExit(|prices|, index, fast)
  {
    if prices[index] < Lowest(prices[SliceStart(|prices|, index, fast)..index]) then 0.0
    else if prices[index] > Highest(prices[index - slow..index]) then 1.0
    else previous
  }

  function BreakoutAt(prices: seq<real>, fast: nat, slow: nat, index: nat): real
    requires 3 <= slow && index < |prices| && ExitsTo(|prices|, fast, slow, index + 1)
  {
    if index < slow then 0.0
    else
      assert HasExit(|prices|, index, fast);
      BreakoutStep(prices, fast, slow, index, BreakoutAt(prices, fast, slow, index - 1))
  }

  function BreakoutPositions(prices: seq<real>, fast: nat, slow: nat): Option<seq<real>> {
    if BreakoutSucceeds(|prices|, fast, slow)
    then Some(seq(|prices|, i requires 0 <= i < |prices| => BreakoutAt(prices, fast, slow, i))) else None
  }

  /** One turn of the loop, entry first, exit over it; `None` when the exit window is empty. */
  method BreakoutTurn(prices: seq<real>, fast: nat, slow: nat, index: nat, previous: real)
    returns (position: Option<real>)
    requires 1 <= slow <= index < |prices|
    ensures position.Some? <==> HasExit(|prices|, index, fast)
    ensures position.Some? ==> position.value == BreakoutStep(prices, fast, slow, index, previous)
  {
    var value := if prices[index] > Highest(prices[index - slow..index]) then 1.0 else previous;
    var start := SliceStart(|prices|, index, fast);
    if start >= index { return None; }
    if prices[index] < Lowest(prices[start..index]) { value := 0.0; }
    position := Some(value);
  }

  /** The loop over the positions; `None` is the exception of an empty exit window or bad parameters. */
  method ComputeBreakout(prices: seq<real>, fast: nat, slow: nat) returns (positions: Option<seq<real>>)
    ensures positions == BreakoutPositions(prices, fast, slow)
  {
    if slow < 3 || |prices| <= slow { return None; }
    var at := new real[|prices|](_ => 0.0);
    for index := slow to |prices|
      invariant CollectedTo(prices, fast, slow, at[..], index)
    {
      ghost var before := at[..];
      var position := BreakoutTurn(prices, fast, slow, index, at[index - 1]);
      if position.None? {
        NoPositions(prices, fast, slow, index);
        return None;
      }
      CollectNext(prices, fast, slow, before, index, position.value);
      at[index] := position.value;
      assert at[..] == before[index := position.value];
    }
    CollectedPositions(prices, fast, slow, at[..]);
    positions := Some(at[..]);
  }

  /** No exit window so far was empty, and the first `n` positions are in place. */
  predicate CollectedTo(prices: seq<real>, fast: nat, slow: nat, at: seq<real>, n: nat) {
    && 3 <= slow <= n <= |prices| == |at| && ExitsTo(|prices|, fast, slow, n)
    && forall k :: 0 <= k < n ==> at[k] == BreakoutAt(prices, fast, slow, k)
  }

  lemma CollectNext(prices: seq<real>, fast: nat, slow: nat, at: seq<real>, index: nat, value: real)
    requires CollectedTo(prices, fast, slow, at, index) && index < |prices| && HasExit(|prices|, index, fast)
    requires value == BreakoutStep(prices, fast, slow, index, at[index - 1])
    ensures CollectedTo(prices, fast, slow, at[index := value], index + 1)
  {
    assert ExitsTo(|prices|, fast, slow, index + 1);
  }

  lemma NoPositions(prices: seq<real>, fast: nat, slow: nat, index: nat)
    requires slow <= index < |prices| && !HasExit(|prices|, index, fast)
    ensures BreakoutPositions(prices, fast, slow) == None
  {
  }

  lemma CollectedPositions(prices: seq<real>, fast: nat, slow: nat, at: seq<real>)
    requires slow < |prices| && CollectedTo(prices, fast, slow, at, |prices|)
    ensures BreakoutPositions(prices, fast, slow) == Some(at)
  {
    assert BreakoutPositions(prices, fast, slow).value == at;
  }

  lemma ShortExitsExist(length: nat, fast: nat, slow: nat, end: nat)
    requires 1 <= fast <= slow
    ensures ExitsTo(length, fast, slow, end)
  {
  }

  lemma {:induction false} BreakoutPrefix(prices: seq<real>, fast: nat, slow: nat, n: nat, index: nat)
    requires 3 <= slow && n <= |prices| && 1 <= fast <= slow && index < n
    requires ExitsTo(n, fast, slow, index + 1) && ExitsTo(|prices|, fast, slow, index + 1)
    ensures BreakoutAt(prices[..n], fast, slow, index) == BreakoutAt(prices, fast, slow, index)
  {
    if index >= slow {
      BreakoutPrefix(prices, fast, slow, n, index - 1);
      StepOfPrefix(prices, fast, slow, n, index, BreakoutAt(prices, fast, slow, index - 1));
    }
  }

  lemma StepOfPrefix(prices: seq<real>, fast: nat, slow: nat, n: nat, index: nat, previous: real)
    requires n <= |prices| && 1 <= fast <= slow <= index < n
    ensures BreakoutStep(prices[..n], fast, slow, index, previous) == BreakoutStep(prices, fast, slow, index, previous)
  {
    assert SliceStart(n, index, fast) == SliceStart(|prices|, index, fast) == index - fast;
    assert prices[..n][index - slow..index] == prices[index - slow..index];
    assert prices[..n][index - fast..index] == prices[index - fast..index];
  }

  /** What a prefix gives is that prefix of what the whole series gives, raising included. */
  predicate SeesNoFuture(prices: seq<real>, fast: nat, slow: nat, n: nat)
    requires n <= |prices|
  {
    var part, whole := BreakoutPositions(prices[..n], fast, slow), BreakoutPositions(prices, fast, slow);
    (part.Some? <==> whole.Some?) && (whole.Some? && n <= |whole.value| ==> part.value == whole.value[..n])
  }

  ghost predicate NeverSeesFuture(fast: nat, slow: nat) {
    forall prices: seq<real>, n: nat :: slow < n <= |prices| ==> SeesNoFuture(prices, fast, slow, n)
  }

  lemma ShortExitSeesNoFuture(prices: seq<real>, fast: nat, slow: nat, n: nat)
    requires 3 <= slow < n <= |prices| && fast <= slow + 1
    ensures SeesNoFuture(prices, fast, slow, n)
  {
    if fast == 0 || fast == slow + 1 {
      assert !HasExit(n, slow, fast) && !HasExit(|prices|, slow, fast);
    } else {
      ShortExitsExist(n, fast, slow, n);
      ShortExitsExist(|prices|, fast, slow, |prices|);
      forall i | 0 <= i < n
        ensures BreakoutAt(prices[..n], fast, slow, i) == BreakoutAt(prices, fast, slow, i)
      {
        BreakoutPrefix(prices, fast, slow, n, i);
      }
      assert BreakoutPositions(prices[..n], fast, slow).value == BreakoutPositions(prices, fast, slow).value[..n];
    }
  }

  /** An exit window longer than the entry window by two or more wraps around the end of the series:
      a short history is accepted, the same history with later prices added is not. */
  lemma LongExitSeesFuture(fast: nat, slow: nat)
    requires 3 <= slow && slow + 1 < fast
    ensures var prices := seq(fast, _ => 1.0);
            && BreakoutPositions(prices[..slow + 1], fast, slow).Some? && BreakoutPositions(prices, fast, slow).None?
  {
    assert HasExit(slow + 1, slow, fast);
    assert !HasExit(fast, slow, fast);
  }

  /** The breakout rule is free of lookahead exactly when its exit window is at most one longer than
      its entry window; at one longer it always raises. */
  lemma BreakoutSeesNoFuture(fast: nat, slow: nat)
    requires 3 <= slow
    ensures NeverSeesFuture(fast, slow) <==> fast <= slow + 1
  {
    if fast <= slow + 1 {
      forall prices: seq<real>, n: nat | slow < n <= |prices|
        ensures SeesNoFuture(prices, fast, slow, n)
      {
        ShortExitSeesNoFuture(prices, fast, slow, n);
      }
    } else {
      LongExitSeesFuture(fast, slow);
      assert !SeesNoFuture(seq(fast, _ => 1.0), fast, slow, slow + 1);
    }
  }

  // ----- what the breakout rule holds

  lemma {:induction false} HighestIsMost(values: seq<real>)
    requires values != []
    ensures Highest(values) in values && forall i :: 0 <= i < |values| ==> values[i] <= Highest(values)
  {
    if |values| > 1 {
      HighestIsMost(values[1..]);
      assert forall i :: 0 < i < |values| ==> values[i] == values[1..][i - 1];
    }
  }

  lemma {:induction false} LowestIsLeast(values: seq<real>)
    requires values != []
    ensures Lowest(values) in values && forall i :: 0 <= i < |values| ==> Lowest(values) <= values[i]
  {
    if |values| > 1 {
      LowestIsLeast(values[1..]);
      assert forall i :: 0 < i < |values| ==> values[i] == values[1..][i - 1];
    }
  }

  /** The price breaks out above all `slow` prices before it. */
  predicate Enters(prices: seq<real>, slow: nat, index: nat) {
    slow <= index < |prices| && forall k :: index - slow <= k < index ==> prices[k] < prices[index]
  }

  /** The price falls below all `fast` prices before it. */
  predicate Leaves(prices: seq<real>, fast: nat, index: nat) {
    fast <= index < |prices| && forall k :: index - fast <= k < index ==> prices[index] < prices[k]
  }

  /** Entered at `j`, and nowhere from there to `index` left. */
  predicate HoldsSince(prices: seq<real>, fast: nat, slow: nat, j: nat, index: nat) {
    j <= index && Enters(prices, slow, j) && forall k :: j <= k <= index ==> !Leaves(prices, fast, k)
  }

  ghost predicate Holds(prices: seq<real>, fast: nat, slow: nat, index: nat) {
    exists j: nat :: HoldsSince(prices, fast, slow, j, index)
  }

  lemma StepIsSignal(prices: seq<real>, fast: nat, slow: nat, index: nat, previous: real)
    requires 1 <= fast <= slow <= index < |prices|
    ensures BreakoutStep(prices, fast, slow, index, previous)
         == if Leaves(prices, fast, index) then 0.0 else if Enters(prices, slow, index) then 1.0 else previous
  {
    var exits, entries := prices[index - fast..index], prices[index - slow..index];
    LowestIsLeast(exits);
    HighestIsMost(entries);
    assert forall k :: index - fast <= k < index ==> prices[k] == exits[k - (index - fast)];
    assert forall k :: index - slow <= k < index ==> prices[k] == entries[k - (index - slow)];
  }

  lemma HoldsNext(prices: seq<real>, fast: nat, slow: nat, last: nat, next: nat)
    requires last + 1 == next < |prices|
    ensures Holds(prices, fast, slow, next)
       <==> !Leaves(prices, fast, next) && (Enters(prices, slow, next) || Holds(prices, fast, slow, last))
  {
    if j: nat :| HoldsSince(prices, fast, slow, j, next) {
      assert j <= last ==> HoldsSince(prices, fast, slow, j, last);
    }
    if !Leaves(prices, fast, next) {
      if Enters(prices, slow, next) {
        assert HoldsSince(prices, fast, slow, next, next);
      }
      if j: nat :| HoldsSince(prices, fast, slow, j, last) {
        assert HoldsSince(prices, fast, slow, j, next);
      }
    }
  }

  /** The rule is long exactly when some earlier price broke out above the whole entry window before
      it and no price since fell below the whole exit window before that one. */
  lemma {:induction false} BreakoutHoldsSinceEntry(prices: seq<real>, fast: nat, slow: nat, index: nat)
    requires 3 <= slow && 1 <= fast <= slow && index < |prices| && ExitsTo(|prices|, fast, slow, index + 1)
    ensures BreakoutAt(prices, fast, slow, index) == if Holds(prices, fast, slow, index) then 1.0 else 0.0
  {
    if index >= slow {
      BreakoutHoldsSinceEntry(prices, fast, slow, index - 1);
      StepIsSignal(prices, fast, slow, index, BreakoutAt(prices, fast, slow, index - 1));
      HoldsNext(prices, fast, slow, index - 1, index);
    }
  }

  // ----- relative strength reversion

  function Change(prices: seq<real>, i: nat): real
    requires i < |prices|
  {
    if i == 0 then 0.0 else prices[i] - prices[i - 1]
  }

  /** Sum of the rises (or, with `falls`, of the falls) over the `k` changes up to `index`. */
  function Moves(prices: seq<real>, index: nat, k: nat, falls: bool): real
    requires k <= index < |prices|
  {
    if k == 0 then 0.0
    else
      var change := if falls then -Change(prices, index - k + 1) else Change(prices, index - k + 1);
      (if change > 0.0 then change else 0.0) + Moves(prices, index, k - 1, falls)
  }

  function Rsi(gains: real, losses: real): real
    requires 0.0 <= gains && 0.0 <= losses
  {
    if losses == 0.0 then 100.0 else 100.0 - 100.0 / (1.0 + gains / losses)
  }

  lemma {:induction false} MovesAreNonNegative(prices: seq<real>, index: nat, k: nat, falls: bool)
    requires k <= index < |prices|
    ensures 0.0 <= Moves(prices, index, k, falls)
  {
    if k != 0 {
      MovesAreNonNegative(prices, index, k - 1, falls);
    }
  }

  function RsiAt(prices: seq<real>, fast: nat, index: nat): real
    requires 2 <= fast <= index < |prices|
  {
    MovesAreNonNegative(prices, index, fast, false);
    MovesAreNonNegative(prices, index, fast, true);
    Rsi(Moves(prices, index, fast, false) / fast as real, Moves(prices, index, fast, true) / fast as real)
  }

  predicate RsiAccepts(length: nat, fast: nat) { 2 <= fast < length }

  function RsiPositionAt(prices: seq<real>, fast: nat, index: nat): real
    requires RsiAccepts(|prices|, fast) && index < |prices|
  {
    if index < fast then 0.0
    else if RsiAt(prices, fast, index) < 30.0 then 1.0
    else if RsiAt(prices, fast, index) > 70.0 then 0.0
    else RsiPositionAt(prices, fast, index - 1)
  }

  method ComputeRsi(prices: seq<real>, fast: nat) returns (positions: Option<seq<real>>)
    ensures positions.Some? <==> RsiAccepts(|prices|, fast)
    ensures positions.Some? ==>
              && |positions.value| == |prices|
              && forall i :: 0 <= i < |prices| ==> positions.value[i] == RsiPositionAt(prices, fast, i)
  {
    if fast < 2 || |prices| <= fast { return None; }
    var at := new real[|prices|](_ => 0.0);
    for index := fast to |prices|
      invariant forall k :: 0 <= k < index ==> at[k] == RsiPositionAt(prices, fast, k)
      invariant forall k :: index <= k < |prices| ==> at[k] == 0.0
    {
      var rsi := RsiAt(prices, fast, index);
      at[index] := if rsi < 30.0 then 1.0 else if rsi > 70.0 then 0.0 else at[index - 1];
    }
    positions := Some(at[..]);
  }

  lemma {:induction false} MovesOfPrefix(prices: seq<real>, n: nat, index: nat, k: nat, falls: bool)
    requires k <= index < n <= |prices|
    ensures Moves(prices[..n], index, k, falls) == Moves(prices, index, k, falls)
  {
    if k != 0 {
      MovesOfPrefix(prices, n, index, k - 1, falls);
      assert Change(prices[..n], index - k + 1) == Change(prices, index - k + 1);
    }
  }

  /** No lookahead for the reversion rule either. */
  lemma {:induction false} RsiSeesNoFuture(prices: seq<real>, fast: nat, n: nat, index: nat)
    requires RsiAccepts(n, fast) && n <= |prices| && index < n
    ensures RsiPositionAt(prices[..n], fast, index) == RsiPositionAt(prices, fast, index)
  {
    if index >= fast {
      MovesOfPrefix(prices, n, index, fast, false);
      MovesOfPrefix(prices, n, index, fast, true);
      RsiSeesNoFuture(prices, fast, n, index - 1);
    }
  }

  /** The index lies between 0 and 100, and crosses its thresholds where one side of the moves is
      more than seven thirds of the other. */
  lemma RsiThresholds(gains: real, losses: real)
    requires 0.0 <= gains && 0.0 <= losses
    ensures 0.0 <= Rsi(gains, losses) <= 100.0
    ensures losses > 0.0 ==> (Rsi(gains, losses) < 30.0 <==> 7.0 * gains < 3.0 * losses)
    ensures losses > 0.0 ==> (Rsi(gains, losses) > 70.0 <==> 3.0 * gains > 7.0 * losses)
  {
    if losses != 0.0 {
      var s := gains / losses;
      assert s * losses == gains;
      var q := 100.0 / (1.0 + s);
      RatioSign(gains, losses, s);
      Share(s, q);
      Compare(s, losses, 3.0 / 7.0);
      Compare(s, losses, 7.0 / 3.0);
    }
  }

  lemma RatioSign(gains: real, losses: real, s: real)
    requires 0.0 <= gains && 0.0 < losses && s == gains / losses
    ensures 0.0 <= s
  {
  }

  lemma Share(s: real, q: real)
    requires 0.0 <= s && q == 100.0 / (1.0 + s)
    ensures 0.0 < q <= 100.0
    ensures q > 70.0 <==> s < 3.0 / 7.0
    ensures q < 30.0 <==> s > 7.0 / 3.0
  {
    assert q * (1.0 + s) == 100.0;
  }

  lemma Compare(s: real, losses: real, bound: real)
    requires 0.0 < losses
    ensures s < bound <==> s * losses < bound * losses
    ensures s > bound <==> s * losses > bound * losses
  {
  }

  /** How far prices moved in all over the last `k` steps, up and down. */
  function Travel(prices: seq<real>, index: nat, k: nat): real
    requires k <= index < |prices|
  {
    if k == 0 then 0.0
    else
      var step := prices[index - k + 1] - prices[index - k];
      (if step < 0.0 then -step else step) + Travel(prices, index, k - 1)
  }

  /** Rises and falls together are the whole travel, and the one less the other the net move. */
  lemma {:induction false} MovesMakeTravel(prices: seq<real>, index: nat, k: nat)
    requires k <= index < |prices|
    ensures Moves(prices, index, k, false) + Moves(prices, index, k, true) == Travel(prices, index, k)
    ensures Moves(prices, index, k, false) - Moves(prices, index, k, true) == prices[index] - prices[index - k]
  {
    if k != 0 {
      MovesMakeTravel(prices, index, k - 1);
    }
  }

  lemma DividedBy(x: real, n: real)
    requires 0.0 < n
    ensures x / n > 0.0 <==> x > 0.0
    ensures x / n == 0.0 <==> x == 0.0
  {
    var q := x / n;
    assert q * n == x;
  }

  /** The index is below 30 exactly when prices have fallen, net, by more than two fifths of their
      travel, and above 70 when they have risen by that much - or have not moved at all. */
  lemma RsiComparesTravel(prices: seq<real>, fast: nat, index: nat)
    requires 2 <= fast <= index < |prices|
    ensures var net, travel := prices[index] - prices[index - fast], Travel(prices, index, fast);
            && (RsiAt(prices, fast, index) < 30.0 <==> 5.0 * net < -2.0 * travel)
            && (RsiAt(prices, fast, index) > 70.0 <==> 5.0 * net > 2.0 * travel || travel == 0.0)
  {
    var rises, falls := Moves(prices, index, fast, false), Moves(prices, index, fast, true);
    MovesMakeTravel(prices, index, fast);
    MovesAreNonNegative(prices, index, fast, false);
    MovesAreNonNegative(prices, index, fast, true);
    DividedBy(falls, fast as real);
    DividedBy(rises, fast as real);
    RsiThresholds(rises / fast as real, falls / fast as real);
    DividedBy(3.0 * falls - 7.0 * rises, fast as real);
    DividedBy(3.0 * rises - 7.0 * falls, fast as real);
    Spread(falls, rises, fast as real);
    Spread(rises, falls, fast as real);
  }

  lemma Spread(a: real, b: real, n: real)
    requires 0.0 < n
    ensures (3.0 * a - 7.0 * b) / n == 3.0 * (a / n) - 7.0 * (b / n)
  {
  }

  /** Oversold at `j`, and nowhere from there to `index` overbought. */
  predicate OversoldSince(prices: seq<real>, fast: nat, j: nat, index: nat)
    requires 2 <= fast && index < |prices|
  {
    && fast <= j <= index && RsiAt(prices, fast, j) < 30.0
    && forall k :: j <= k <= index ==> RsiAt(prices, fast, k) <= 70.0
  }

  ghost predicate Oversold(prices: seq<real>, fast: nat, index: nat)
    requires 2 <= fast && index < |prices|
  {
    exists j: nat :: OversoldSince(prices, fast, j, index)
  }

  lemma OversoldNext(prices: seq<real>, fast: nat, last: nat, next: nat)
    requires 2 <= fast <= last + 1 == next < |prices|
    ensures Oversold(prices, fast, next)
       <==> RsiAt(prices, fast, next) <= 70.0
            && (RsiAt(prices, fast, next) < 30.0 || Oversold(prices, fast, last))
  {
    if j: nat :| OversoldSince(prices, fast, j, next) {
      assert j <= last ==> OversoldSince(prices, fast, j, last);
    }
    if RsiAt(prices, fast, next) <= 70.0 {
      if RsiAt(prices, fast, next) < 30.0 {
        assert OversoldSince(prices, fast, next, next);
      }
      if j: nat :| OversoldSince(prices, fast, j, last) {
        assert OversoldSince(prices, fast, j, next);
      }
    }
  }

  /** The rule is long exactly when the index has been below 30 and not above 70 since. */
  lemma {:induction false} RsiHoldsSinceOversold(prices: seq<real>, fast: nat, index: nat)
    requires RsiAccepts(|prices|, fast) && index < |prices|
    ensures RsiPositionAt(prices, fast, index) == if Oversold(prices, fast, index) then 1.0 else 0.0
  {
    if index >= fast {
      RsiHoldsSinceOversold(prices, fast, index - 1);
      OversoldNext(prices, fast, index - 1, index);
    }
  }
}
