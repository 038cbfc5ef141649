/** Correlation over exact reals: it always lies between -1 and 1, so clamping it changes
    nothing, and rank correlation only sees the order of its inputs. Quantiles by linear
    interpolation lie within the data and grow with their probability. */
module Correlation {
  import opened Ranks

  /** Sum of products of paired entries. */
  function Dot(a: seq<real>, b: seq<real>): real
    requires |a| == |b|
  {
    if a == [] then 0.0 else Dot(a[..|a| - 1], b[..|b| - 1]) + a[|a| - 1] * b[|b| - 1]
  }

  function Mean(values: seq<real>): real
    requires values != []
  {
    Sum(values) / |values| as real
  }

  function Deviations(values: seq<real>): (d: seq<real>)
    requires values != []
    ensures |d| == |values|
  {
    var mean := Mean(values);
    seq(|values|, i requires 0 <= i < |values| => values[i] - mean)
  }

  /** Product of the two sums of squared deviations: the square of the correlation's denominator. */
  function Spread(x: seq<real>, y: seq<real>): real
    requires x != [] && |x| == |y|
  {
    Dot(Deviations(x), Deviations(x)) * Dot(Deviations(y), Deviations(y))
  }

  function Covariance(x: seq<real>, y: seq<real>): real
    requires x != [] && |x| == |y|
  {
    Dot(Deviations(x), Deviations(y))
  }

  // ----- the Cauchy-Schwarz inequality

  lemma Square(x: real)
    ensures 0.0 <= x * x
  {
  }

  lemma Product(a: real, b: real)
    requires 0.0 <= a && 0.0 <= b
    ensures 0.0 <= a * b
  {
  }

  /** The mixed term is no larger than the two pure ones. */
  lemma MixedTerm(A: real, B: real, C: real, a: real, b: real)
    requires 0.0 <= A && 0.0 <= B && C * C <= A * B
    ensures 2.0 * (C * (a * b)) <= A * (b * b) + B * (a * a)
  {
    Square(a);
    Square(b);
    Product(B, a * a);
    if A == 0.0 {
      ZeroSquare(C, C * C);
    } else {
      var gap := A * (b * b) + B * (a * a) - 2.0 * (C * (a * b));
      ScaledGap(A, B, C, a, b, gap);
      if gap < 0.0 { NegativeProduct(A, gap); }
    }
  }

  lemma ZeroSquare(c: real, square: real)
    requires square == c * c && square <= 0.0
    ensures c == 0.0
  {
    if c > 0.0 { PositiveProduct(c, c, square); } else if c < 0.0 { PositiveProduct(-c, -c, square); }
  }

  lemma PositiveProduct(a: real, b: real, product: real)
    requires 0.0 < a && 0.0 < b && product == a * b
    ensures 0.0 < product
  {
  }

  lemma Positive(a: real, b: real)
    requires 0.0 < a && 0.0 < b
    ensures 0.0 < a * b
  {
  }

  lemma NegativeProduct(a: real, b: real)
    requires 0.0 < a && b < 0.0
    ensures a * b < 0.0
  {
  }

  /** Completing the square. */
  lemma ScaledGap(A: real, B: real, C: real, a: real, b: real, gap: real)
    requires C * C <= A * B && gap == A * (b * b) + B * (a * a) - 2.0 * (C * (a * b))
    ensures 0.0 <= A * gap
  {
    var r := A * b - C * a;
    Square(r);
    Square(a);
    Product(A * B - C * C, a * a);
    Expand(A, B, C, a, b);
  }

  lemma Expand(A: real, B: real, C: real, a: real, b: real)
    ensures A * (A * (b * b) + B * (a * a) - 2.0 * (C * (a * b)))
         == (A * b - C * a) * (A * b - C * a) + (A * B - C * C) * (a * a)
  {
    var Ab, Ca := A * b, C * a;
    assert (Ab - Ca) * (Ab - Ca) == Ab * Ab - 2.0 * (Ab * Ca) + Ca * Ca;
    assert Ab * Ab == A * (A * (b * b));
    assert Ab * Ca == A * (C * (a * b));
    assert Ca * Ca == (C * C) * (a * a);
    assert (A * B - C * C) * (a * a) == A * (B * (a * a)) - (C * C) * (a * a);
  }

  lemma OneMoreTerm(A: real, B: real, C: real, a: real, b: real)
    requires 0.0 <= A && 0.0 <= B && C * C <= A * B
    ensures (C + a * b) * (C + a * b) <= (A + a * a) * (B + b * b)
  {
    MixedTerm(A, B, C, a, b);
    var p := a * b;
    assert (C + p) * (C + p) == C * C + 2.0 * (C * p) + p * p;
    assert p * p == (a * a) * (b * b);
    assert (A + a * a) * (B + b * b) == A * B + A * (b * b) + B * (a * a) + (a * a) * (b * b);
  }

  lemma {:induction false} CauchySchwarz(a: seq<real>, b: seq<real>)
    requires |a| == |b|
    ensures 0.0 <= Dot(a, a) && 0.0 <= Dot(b, b)
    ensures Dot(a, b) * Dot(a, b) <= Dot(a, a) * Dot(b, b)
  {
    if a != [] {
      var a', b' := a[..|a| - 1], b[..|b| - 1];
      CauchySchwarz(a', b');
      Square(a[|a| - 1]);
      Square(b[|b| - 1]);
      OneMoreTerm(Dot(a', a'), Dot(b', b'), Dot(a', b'), a[|a| - 1], b[|b| - 1]);
    }
  }

  // ----- the correlation

  /** The correlation, given the square root of the spread; zero for series too short, of unequal
      length, or constant. */
  function Correlated(x: seq<real>, y: seq<real>, root: real): real {
    if |x| != |y| || |x| < 2 || root == 0.0 then 0.0 else Covariance(x, y) / root
  }

  predicate IsRoot(x: seq<real>, y: seq<real>, root: real) {
    |x| == |y| && |x| >= 2 ==> 0.0 <= root && root * root == Spread(x, y)
  }

  lemma WithinRoot(c: real, root: real)
    requires 0.0 <= root && c * c <= root * root
    ensures -root <= c <= root
  {
    assert (c - root) * (c + root) == c * c - root * root;
    assert (-c - root) * (root - c) == c * c - root * root;
    if c > root { Positive(c - root, c + root); } else if c < -root { Positive(-c - root, root - c); }
  }

  lemma QuotientWithinOne(c: real, root: real)
    requires 0.0 < root && -root <= c <= root
    ensures -1.0 <= c / root <= 1.0
  {
    var q := c / root;
    assert q * root == c;
    assert (q - 1.0) * root == c - root && (-1.0 - q) * root == -root - c;
    if q > 1.0 { Positive(q - 1.0, root); } else if q < -1.0 { Positive(-1.0 - q, root); }
  }

  function Clamp(r: real): real { if r < -1.0 then -1.0 else if r > 1.0 then 1.0 else r }

  /** For all series the squared covariance is at most the product of the two sums of squares, so
      the correlation lies between -1 and 1 and clamping it changes nothing. */
  lemma CorrelationWithinOne(x: seq<real>, y: seq<real>, root: real)
    requires IsRoot(x, y, root)
    ensures |x| == |y| && x != [] ==> Covariance(x, y) * Covariance(x, y) <= Spread(x, y)
    ensures -1.0 <= Correlated(x, y, root) <= 1.0 && Clamp(Correlated(x, y, root)) == Correlated(x, y, root)
  {
    if |x| == |y| && x != [] {
      CauchySchwarz(Deviations(x), Deviations(y));
      if |x| >= 2 && root != 0.0 {
        QuotientInRoot(Covariance(x, y), Spread(x, y), root);
      }
    }
  }

  lemma QuotientInRoot(c: real, spread: real, root: real)
    requires c * c <= spread && 0.0 < root && root * root == spread
    ensures -1.0 <= c / root <= 1.0
  {
    WithinRoot(c, root);
    QuotientWithinOne(c, root);
  }

  /** The correlation of ranks; `root` is the root of the ranks' spread. */
  function RankCorrelated(x: seq<real>, y: seq<real>, root: real): real {
    Correlated(RankSeq(x), RankSeq(y), root)
  }

  /** Rank correlation is the same after any strictly increasing transformation of either side. */
  lemma RankCorrelationFollowsOrder(x: seq<real>, x': seq<real>, y: seq<real>, y': seq<real>, root: real)
    requires SameOrder(x, x') && SameOrder(y, y')
    ensures RankCorrelated(x, y, root) == RankCorrelated(x', y', root)
    ensures IsRoot(RankSeq(x), RankSeq(y), root) <==> IsRoot(RankSeq(x'), RankSeq(y'), root)
  {
    RanksFollowOrder(x, x');
    RanksFollowOrder(y, y');
  }

  // ----- quantiles

  predicate Nondecreasing(values: seq<real>) {
    forall i, j :: 0 <= i <= j < |values| ==> values[i] <= values[j]
  }

  /** The value at a fractional position, interpolated between its neighbours. */
  function AtPosition(ordered: seq<real>, position: real): real
    requires ordered != [] && 0.0 <= position <= (|ordered| - 1) as real
  {
    var lower := position.Floor;
    if lower as real == position then ordered[lower]
    else ordered[lower] + (ordered[lower + 1] - ordered[lower]) * (position - lower as real)
  }

  function Quantile(ordered: seq<real>, probability: real): real
    requires ordered != [] && 0.0 <= probability <= 1.0
  {
    PositionWithin(|ordered| - 1, probability);
    AtPosition(ordered, (|ordered| - 1) as real * probability)
  }

  lemma PositionWithin(last: nat, probability: real)
    requires 0.0 <= probability <= 1.0
    ensures 0.0 <= last as real * probability <= last as real
  {
    Product(last as real, probability);
    Product(last as real, 1.0 - probability);
    assert last as real * (1.0 - probability) == last as real - last as real * probability;
  }

  lemma PositionGrows(last: nat, p: real, q: real)
    requires p <= q
    ensures last as real * p <= last as real * q
  {
    Product(last as real, q - p);
    assert last as real * (q - p) == last as real * q - last as real * p;
  }

  /** A point between two neighbours has a value between theirs, and more of it further on. */
  lemma Between(low: real, high: real, s: real, t: real)
    requires low <= high && 0.0 <= s <= t <= 1.0
    ensures low <= low + (high - low) * s <= low + (high - low) * t <= high
  {
    Product(high - low, s);
    Product(high - low, t - s);
    Product(high - low, 1.0 - t);
    assert (high - low) * (t - s) == (high - low) * t - (high - low) * s;
    assert (high - low) * (1.0 - t) == (high - low) - (high - low) * t;
  }

  lemma StepBounds(ordered: seq<real>, position: real)
    requires ordered != [] && Nondecreasing(ordered) && 0.0 <= position <= (|ordered| - 1) as real
    ensures ordered[position.Floor] <= AtPosition(ordered, position)
    ensures AtPosition(ordered, position)
         <= ordered[if position.Floor + 1 < |ordered| then position.Floor + 1 else position.Floor]
  {
    var lower := position.Floor;
    if lower as real != position {
      Between(ordered[lower], ordered[lower + 1], position - lower as real, 1.0);
    }
  }

  lemma PositionsGrow(ordered: seq<real>, p: real, q: real)
    requires ordered != [] && Nondecreasing(ordered) && 0.0 <= p <= q <= (|ordered| - 1) as real
    ensures AtPosition(ordered, p) <= AtPosition(ordered, q)
  {
    StepBounds(ordered, p);
    StepBounds(ordered, q);
    if p.Floor == q.Floor {
      if q.Floor as real != q {
        Between(ordered[q.Floor], ordered[q.Floor + 1], p - p.Floor as real, q - q.Floor as real);
      }
    } else {
      assert p.Floor + 1 <= q.Floor;
    }
  }

  lemma PositionsOrdered(ordered: seq<real>, p: real, q: real)
    requires ordered != [] && Nondecreasing(ordered) && 0.0 <= p <= q <= (|ordered| - 1) as real
    ensures ordered[0] <= AtPosition(ordered, p) <= AtPosition(ordered, q) <= ordered[|ordered| - 1]
  {
    PositionsGrow(ordered, p, q);
    StepBounds(ordered, p);
    StepBounds(ordered, q);
    assert ordered[0] <= ordered[p.Floor];
  }

  /** Every quantile lies between the least and the greatest value, and quantiles are ordered like
      their probabilities, so an interval's ends never cross. */
  lemma QuantilesAreOrdered(ordered: seq<real>, p: real, q: real)
    requires ordered != [] && Nondecreasing(ordered) && 0.0 <= p <= q <= 1.0
    ensures ordered[0] <= Quantile(ordered, p) <= Quantile(ordered, q) <= ordered[|ordered| - 1]
  {
    var a, b := (|ordered| - 1) as real * p, (|ordered| - 1) as real * q;
    assert 0.0 <= a <= b <= (|ordered| - 1) as real by {
      PositionWithin(|ordered| - 1, p);
      PositionWithin(|ordered| - 1, q);
      PositionGrows(|ordered| - 1, p, q);
    }
    PositionsOrdered(ordered, a, b);
  }

  // ----- what the sums are

  /** Deviations differ as the values do, and cancel out. */
  lemma DeviationsCentre(values: seq<real>)
    requires values != []
    ensures Sum(Deviations(values)) == 0.0
    ensures forall i, j :: 0 <= i < |values| && 0 <= j < |values| ==>
              Deviations(values)[i] - Deviations(values)[j] == values[i] - values[j]
  {
    SumOfShifted(values, Mean(values), |values|);
    assert values[..|values|] == values && Deviations(values)[..|values|] == Deviations(values);
    assert |values| as real * Mean(values) == Sum(values);
  }

  lemma {:induction false} SumOfShifted(values: seq<real>, mean: real, n: nat)
    requires n <= |values| && values != [] && mean == Mean(values)
    ensures Sum(Deviations(values)[..n]) == Sum(values[..n]) - n as real * mean
  {
    if n != 0 {
      SumOfShifted(values, mean, n - 1);
      assert values[..n][..n - 1] == values[..n - 1];
      assert Deviations(values)[..n][..n - 1] == Deviations(values)[..n - 1];
      assert n as real * mean == (n - 1) as real * mean + mean;
    }
  }

  /** Products of paired entries, added up. */
  lemma {:induction false} DotIsSum(a: seq<real>, b: seq<real>)
    requires |a| == |b|
    ensures Dot(a, b) == Sum(seq(|a|, i requires 0 <= i < |a| => a[i] * b[i]))
  {
    if a != [] {
      var n := |a| - 1;
      var products := seq(|a|, i requires 0 <= i < |a| => a[i] * b[i]);
      var fewer := seq(n, i requires 0 <= i < n => a[..n][i] * b[..n][i]);
      DotIsSum(a[..n], b[..n]);
      assert |products[..n]| == |fewer| && forall i :: 0 <= i < n ==> products[..n][i] == fewer[i];
      assert products[..n] == fewer && products[n] == a[n] * b[n];
    }
  }

  /** A series that varies correlates perfectly with itself. */
  lemma SelfCorrelation(x: seq<real>, root: real)
    requires 2 <= |x| && IsRoot(x, x, root) && root != 0.0
    ensures Correlated(x, x, root) == 1.0
  {
    var c := Covariance(x, x);
    CauchySchwarz(Deviations(x), Deviations(x));
    EqualRoots(c, root);
  }

  lemma ZeroFactor(x: real, y: real)
    requires y != 0.0 && x * y == 0.0
    ensures x == 0.0
  {
    assert x == x * y / y;
  }

  lemma SelfQuotient(x: real)
    requires x != 0.0
    ensures x / x == 1.0
  {
  }

  lemma EqualRoots(c: real, root: real)
    requires 0.0 <= c && 0.0 < root && root * root == c * c
    ensures c / root == 1.0
  {
    assert (root - c) * (root + c) == 0.0;
    ZeroFactor(root - c, root + c);
    SelfQuotient(root);
  }

  /** The k-th of n values is the quantile of k / (n - 1), and between two of them the quantile moves
      evenly from one to the other. */
  lemma QuantileMeetsData(ordered: seq<real>, k: nat, share: real, probability: real)
    requires k < |ordered| - 1 && 0.0 <= share <= 1.0 && 0.0 <= probability <= 1.0
    requires (|ordered| - 1) as real * probability == k as real + share
    ensures Quantile(ordered, probability) == (1.0 - share) * ordered[k] + share * ordered[k + 1]
  {
    var low, high := ordered[k], ordered[k + 1];
    PositionWithin(|ordered| - 1, probability);
    assert low + (high - low) * share == (1.0 - share) * low + share * high;
    if share == 1.0 {
      assert (k as real + share).Floor == k + 1;
    } else {
      assert (k as real + share).Floor == k;
    }
  }
}
