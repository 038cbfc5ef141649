/** Drawdown in one pass against all pairs of dates, and the portfolio's cost accounting. */
module Portfolio {

  // ----- drawdown

  /** Wealth after the first `k` rates, starting from one. */
  function Wealth(rates: seq<real>, k: nat): real
    requires k <= |rates|
  {
    if k == 0 then 1.0 else Wealth(rates, k - 1) * (1.0 + rates[k - 1])
  }

  predicate AtLeast(rates: seq<real>, floor: real) {
    forall k :: 0 <= k < |rates| ==> floor <= rates[k]
  }

  /** What is lost from date `i` to date `j`. */
  function Drop(rates: seq<real>, i: nat, j: nat): real
    requires i <= j <= |rates| && Wealth(rates, i) != 0.0
  {
    1.0 - Wealth(rates, j) / Wealth(rates, i)
  }

  /** Returns of -100% or more never make wealth negative. */
  lemma {:induction false} WealthIsNonNegative(rates: seq<real>, k: nat)
    requires AtLeast(rates, -1.0) && k <= |rates|
    ensures 0.0 <= Wealth(rates, k)
  {
    if k != 0 {
      WealthIsNonNegative(rates, k - 1);
      NonNegative(Wealth(rates, k - 1), 1.0 + rates[k - 1]);
    }
  }

  /** The larger the earlier wealth, the larger the drop. */
  lemma HigherDropsMore(later: real, low: real, high: real)
    requires 0.0 <= later && 0.0 < low <= high
    ensures 1.0 - later / low <= 1.0 - later / high
  {
    var p, q := later / low, later / high;
    assert p * low == later && q * high == later;
    assert (p - q) * high == p * (high - low);
    Quotient(later, low);
    NonNegative(p, high - low);
    SignOfFactor(p - q, high);
  }

  lemma Quotient(a: real, b: real)
    requires 0.0 <= a && 0.0 < b
    ensures 0.0 <= a / b
  {
  }

  lemma NonNegative(a: real, b: real)
    requires 0.0 <= a && 0.0 <= b
    ensures 0.0 <= a * b
  {
  }

  lemma SignOfFactor(a: real, b: real)
    requires 0.0 < b && 0.0 <= a * b
    ensures 0.0 <= a
  {
    if a < 0.0 { NegativeProduct(a, b, a * b); }
  }

  lemma NegativeProduct(a: real, b: real, product: real)
    requires a < 0.0 && 0.0 < b && product == a * b
    ensures product < 0.0
  {
  }

  /** The largest drop over all pairs of dates up to `n` that start from something. */
  ghost predicate LargestDrop(rates: seq<real>, n: nat, drop: real)
    requires n <= |rates|
  {
    && (forall i, j :: 0 <= i <= j <= n && Wealth(rates, i) > 0.0 ==> Drop(rates, i, j) <= drop)
    && (exists i, j :: 0 <= i <= j <= n && Wealth(rates, i) > 0.0 && Drop(rates, i, j) == drop)
  }

  /** What is lost between a peak and a later wealth. */
  function FromPeak(high: real, wealth: real): real { if high == 0.0 then 0.0 else 1.0 - wealth / high }

  predicate PeakTo(rates: seq<real>, n: nat, high: real)
    requires n <= |rates|
  {
    && (forall i :: 0 <= i <= n ==> Wealth(rates, i) <= high)
    && (exists i :: 0 <= i <= n && Wealth(rates, i) == high)
  }

  lemma NoDropYet(rates: seq<real>)
    ensures LargestDrop(rates, 0, 0.0) && PeakTo(rates, 0, 1.0)
  {
    assert Wealth(rates, 0) == 1.0;
    assert Drop(rates, 0, 0) == 0.0;
  }

  lemma PeakNext(rates: seq<real>, n: nat, high: real)
    requires n < |rates| && PeakTo(rates, n, high)
    ensures PeakTo(rates, n + 1, if high < Wealth(rates, n + 1) then Wealth(rates, n + 1) else high)
  {
    var peak := if high < Wealth(rates, n + 1) then Wealth(rates, n + 1) else high;
    var i :| 0 <= i <= n && Wealth(rates, i) == high;
    assert Wealth(rates, if high < Wealth(rates, n + 1) then n + 1 else i) == peak;
  }

  /** The drop to the newest date is largest from the peak. */
  lemma NewestDrop(rates: seq<real>, n: nat, high: real)
    requires AtLeast(rates, -1.0) && n <= |rates| && PeakTo(rates, n, high)
    ensures forall i :: 0 <= i <= n && Wealth(rates, i) > 0.0 ==> Drop(rates, i, n) <= FromPeak(high, Wealth(rates, n))
    ensures exists i :: 0 <= i <= n && Wealth(rates, i) > 0.0 && Drop(rates, i, n) == FromPeak(high, Wealth(rates, n))
  {
    WealthIsNonNegative(rates, n);
    assert 1.0 == Wealth(rates, 0) <= high;
    forall i | 0 <= i <= n && Wealth(rates, i) > 0.0
      ensures Drop(rates, i, n) <= FromPeak(high, Wealth(rates, n))
    {
      HigherDropsMore(Wealth(rates, n), Wealth(rates, i), high);
    }
    var i :| 0 <= i <= n && Wealth(rates, i) == high;
    assert Drop(rates, i, n) == FromPeak(high, Wealth(rates, n));
  }

  lemma LargestNext(rates: seq<real>, n: nat, drop: real, high: real)
    requires AtLeast(rates, -1.0) && n < |rates| && LargestDrop(rates, n, drop) && PeakTo(rates, n + 1, high)
    ensures var newest := FromPeak(high, Wealth(rates, n + 1));
            LargestDrop(rates, n + 1, if drop < newest then newest else drop)
  {
    var newest := FromPeak(high, Wealth(rates, n + 1));
    var largest := if drop < newest then newest else drop;
    NewestDrop(rates, n + 1, high);
    forall i, j | 0 <= i <= j <= n + 1 && Wealth(rates, i) > 0.0
      ensures Drop(rates, i, j) <= largest
    {
      if j <= n { assert Drop(rates, i, j) <= drop; }
    }
    if drop < newest {
      var i :| 0 <= i <= n + 1 && Wealth(rates, i) > 0.0 && Drop(rates, i, n + 1) == newest;
      assert Drop(rates, i, n + 1) == largest;
    } else {
      var i, j :| 0 <= i <= j <= n && Wealth(rates, i) > 0.0 && Drop(rates, i, j) == drop;
      assert Drop(rates, i, j) == largest;
    }
  }

  function Larger(a: real, b: real): real { if a < b then b else a }

  function Peak(rates: seq<real>, k: nat): real
    requires k <= |rates|
  {
    if k == 0 then 1.0 else Larger(Peak(rates, k - 1), Wealth(rates, k))
  }

  /** The deepest fall below the running peak so far. */
  function Deepest(rates: seq<real>, k: nat): real
    requires k <= |rates|
  {
    if k == 0 then 0.0 else Larger(Deepest(rates, k - 1), FromPeak(Peak(rates, k), Wealth(rates, k)))
  }

  /** Measuring from the running peak alone finds the largest drop over all pairs of dates. */
  lemma {:induction false} DeepestIsLargest(rates: seq<real>, k: nat)
    requires AtLeast(rates, -1.0) && k <= |rates|
    ensures PeakTo(rates, k, Peak(rates, k)) && LargestDrop(rates, k, Deepest(rates, k))
  {
    if k == 0 {
      NoDropYet(rates);
    } else {
      DeepestIsLargest(rates, k - 1);
      PeakNext(rates, k - 1, Peak(rates, k - 1));
      LargestNext(rates, k - 1, Deepest(rates, k - 1), Peak(rates, k));
    }
  }

  method Deeper(worst: real, wealth: real, high: real) returns (deeper: real)
    requires high != 0.0
    ensures -deeper == Larger(-worst, FromPeak(high, wealth))
  {
    var change := wealth / high - 1.0;
    deeper := if change < worst then change else worst;
  }

  /** The one-pass drawdown. */
  method RunningDrawdown(rates: seq<real>) returns (drawdown: real)
    ensures drawdown == Deepest(rates, |rates|)
  {
    var wealth, high, worst := 1.0, 1.0, 0.0;
    for k := 0 to |rates|
      invariant wealth == Wealth(rates, k) && high == Peak(rates, k) && -worst == Deepest(rates, k)
      invariant worst <= 0.0 && 1.0 <= high
    {
      wealth := wealth * (1.0 + rates[k]);
      high := Larger(high, wealth);
      worst := Deeper(worst, wealth, high);
    }
    drawdown := if worst < 0.0 then -worst else worst;
  }

  /** One pass with a running peak finds the largest drop over all pairs of dates. */
  method Drawdown(rates: seq<real>) returns (drawdown: real)
    ensures drawdown == Deepest(rates, |rates|)
    ensures AtLeast(rates, -1.0) ==> LargestDrop(rates, |rates|, drawdown)
  {
    drawdown := RunningDrawdown(rates);
    if AtLeast(rates, -1.0) { DeepestIsLargest(rates, |rates|); }
  }

  // ----- how far returns may fall for that

  ghost predicate PeakFindsLargest(floor: real) {
    forall rates :: AtLeast(rates, floor) ==> LargestDrop(rates, |rates|, Deepest(rates, |rates|))
  }

  /** After a loss of half, a return below -100% drops more from there than from the peak. */
  lemma PeakMissesDrop(rate: real)
    requires rate < -1.0
    ensures !LargestDrop([-0.5, rate], 2, Deepest([-0.5, rate], 2))
  {
    var rates := [-0.5, rate];
    assert Wealth(rates, 1) == Wealth(rates, 0) * (1.0 + rates[0]) == 0.5;
    assert Wealth(rates, 2) == Wealth(rates, 1) * (1.0 + rates[1]) == 0.5 * (1.0 + rate);
    assert Peak(rates, 0) == Peak(rates, 1) == Peak(rates, 2) == 1.0;
    assert Deepest(rates, 1) == 0.5;
    assert Deepest(rates, 2) == 1.0 - 0.5 * (1.0 + rate) < -rate == Drop(rates, 1, 2);
  }

  /** The running peak finds the largest drop of every series with returns of at least `floor` if
      and only if that is no less than -100%. */
  lemma PeakFindsLargestExactly(floor: real)
    ensures PeakFindsLargest(floor) <==> -1.0 <= floor
  {
    if -1.0 <= floor {
      forall rates | AtLeast(rates, floor)
        ensures LargestDrop(rates, |rates|, Deepest(rates, |rates|))
      {
        DeepestIsLargest(rates, |rates|);
      }
    } else {
      PeakMissesDrop(floor);
      assert AtLeast([-0.5, floor], floor);
    }
  }

  // ----- positions by date

  type Asset = string

  type Date = nat

  datatype PositionRow = PositionRow(date: Date, asset: Asset, position: real)

  type Positions = map<Date, map<Asset, real>>

  /** The last row for a date and asset decides; without one the position is zero. */
  function LastPosition(rows: seq<PositionRow>, date: Date, asset: Asset): real {
    if rows == [] then 0.0
    else
      var last := rows[|rows| - 1];
      if last.date == date && last.asset == asset then last.position
      else LastPosition(rows[..|rows| - 1], date, asset)
  }

  ghost predicate Collected(values: Positions, rows: seq<PositionRow>, dates: seq<Date>, assets: seq<Asset>) {
    && (forall date :: date in values <==> date in dates)
    && (forall date, asset :: date in dates && asset in assets ==>
          date in values && asset in values[date] && values[date][asset] == LastPosition(rows, date, asset))
  }

  method Zeros(assets: seq<Asset>) returns (zeros: map<Asset, real>)
    ensures forall asset :: asset in zeros <==> asset in assets
    ensures forall asset :: asset in zeros ==> zeros[asset] == 0.0
  {
    zeros := map[];
    for i := 0 to |assets|
      invariant forall asset :: asset in zeros <==> asset in assets[..i]
      invariant forall asset :: asset in zeros ==> zeros[asset] == 0.0
    {
      zeros := zeros[assets[i] := 0.0];
    }
  }

  /** The rows have been validated: their dates and assets are the challenge's own. */
  method PositionsByDate(rows: seq<PositionRow>, dates: seq<Date>, assets: seq<Asset>) returns (values: Positions)
    requires forall i :: 0 <= i < |rows| ==> rows[i].date in dates && rows[i].asset in assets
    ensures Collected(values, rows, dates, assets)
  {
    var zeros := Zeros(assets);
    values := map[];
    for i := 0 to |dates|
      invariant forall date :: date in values <==> date in dates[..i]
      invariant forall date :: date in values ==> values[date] == zeros
    {
      values := values[dates[i] := zeros];
    }
    for i := 0 to |rows|
      invariant Collected(values, rows[..i], dates, assets)
    {
      var row := rows[i];
      assert rows[..i + 1][..i] == rows[..i];
      values := values[row.date := values[row.date][row.asset := row.position]];
    }
    assert rows[..|rows|] == rows;
  }

  // ----- the portfolio series

  type Book = map<Asset, real>

  /** Everything the series is computed from, apart from the cost rate. */
  datatype Study = Study(positions: Positions, assets: seq<Asset>, dates: seq<Date>, lastPublic: Book,
                         hiddenStart: Date, hidden: bool, delayed: bool, gains: map<(Date, Asset), real>)
  {
    predicate WellFormed() {
      && (forall a :: a in assets ==> a in lastPublic)
      && (forall d, a :: d in positions && a in assets ==> a in positions[d])
      && (forall d, a :: d in dates && a in assets ==> (d, a) in gains)
    }
  }

  function Abs(x: real): real { if x < 0.0 then -x else x }

  function Opening(s: Study): Book {
    if s.delayed && s.hidden then s.lastPublic else map a | a in s.assets :: 0.0
  }

  /** What is held on the k-th date. */
  function HeldAt(s: Study, k: nat): Book
    requires k < |s.dates|
  {
    if s.delayed && s.dates[k] == s.hiddenStart then (if k == 0 then Opening(s) else HeldAt(s, k - 1))
    else if s.dates[k] in s.positions then s.positions[s.dates[k]]
    else s.lastPublic
  }

  lemma {:induction false} HeldIsComplete(s: Study, k: nat)
    requires s.WellFormed() && k < |s.dates|
    ensures forall a :: a in s.assets ==> a in HeldAt(s, k)
  {
    if s.delayed && s.dates[k] == s.hiddenStart && k != 0 {
      HeldIsComplete(s, k - 1);
    }
  }

  function Before(s: Study, k: nat): Book
    requires k < |s.dates|
  {
    if k == 0 then Opening(s) else HeldAt(s, k - 1)
  }

  function Traded(assets: seq<Asset>, from: Book, to: Book): real
    requires forall a :: a in assets ==> a in from && a in to
  {
    if assets == [] then 0.0
    else Traded(assets[..|assets| - 1], from, to) + Abs(to[assets[|assets| - 1]] - from[assets[|assets| - 1]])
  }

  function TurnoverAt(s: Study, k: nat): real
    requires s.WellFormed() && k < |s.dates|
  {
    HeldIsComplete(s, k);
    if k != 0 then (HeldIsComplete(s, k - 1); Traded(s.assets, Before(s, k), HeldAt(s, k)))
    else Traded(s.assets, Before(s, k), HeldAt(s, k))
  }

  function Earned(s: Study, date: Date, book: Book, n: nat): real
    requires s.WellFormed() && date in s.dates && n <= |s.assets| && forall a :: a in s.assets ==> a in book
  {
    if n == 0 then 0.0
    else Earned(s, date, book, n - 1) + book[s.assets[n - 1]] * s.gains[(date, s.assets[n - 1])]
  }

  function GrossAt(s: Study, k: nat): real
    requires s.WellFormed() && k < |s.dates|
  {
    HeldIsComplete(s, k);
    Earned(s, s.dates[k], HeldAt(s, k), |s.assets|)
  }

  function Turnover(s: Study, n: nat): real
    requires s.WellFormed() && n <= |s.dates|
  {
    if n == 0 then 0.0 else Turnover(s, n - 1) + TurnoverAt(s, n - 1)
  }

  function CostAt(s: Study, k: nat, costBps: real): real
    requires s.WellFormed() && k < |s.dates|
  {
    CostOf(TurnoverAt(s, k), costBps)
  }

  function CostOf(traded: real, costBps: real): real { traded * costBps / 10000.0 }

  function NetAt(s: Study, k: nat, costBps: real): real
    requires s.WellFormed() && k < |s.dates|
  {
    GrossAt(s, k) - CostAt(s, k, costBps)
  }

  function TotalCost(s: Study, n: nat, costBps: real): real
    requires s.WellFormed() && n <= |s.dates|
  {
    if n == 0 then 0.0 else TotalCost(s, n - 1, costBps) + CostAt(s, n - 1, costBps)
  }

  method SumTraded(assets: seq<Asset>, from: Book, to: Book) returns (total: real)
    requires forall a :: a in assets ==> a in from && a in to
    ensures total == Traded(assets, from, to)
  {
    total := 0.0;
    for i := 0 to |assets|
      invariant total == Traded(assets[..i], from, to)
    {
      assert assets[..i + 1][..i] == assets[..i];
      total := total + Abs(to[assets[i]] - from[assets[i]]);
    }
    assert assets[..|assets|] == assets;
  }

  method SumEarned(s: Study, date: Date, book: Book) returns (total: real)
    requires s.WellFormed() && date in s.dates && forall a :: a in s.assets ==> a in book
    ensures total == Earned(s, date, book, |s.assets|)
  {
    total := 0.0;
    for i := 0 to |s.assets|
      invariant total == Earned(s, date, book, i)
    {
      total := total + book[s.assets[i]] * s.gains[(date, s.assets[i])];
    }
  }

  /** One date: what is held, what is traded to get there, and what it earns. */
  method RunDate(s: Study, k: nat, previous: Book) returns (current: Book, traded: real, raw: real)
    requires s.WellFormed() && k < |s.dates| && previous == Before(s, k)
    ensures current == HeldAt(s, k) && traded == TurnoverAt(s, k) && raw == GrossAt(s, k)
  {
    HeldIsComplete(s, k);
    if k != 0 { HeldIsComplete(s, k - 1); }
    current := if s.dates[k] in s.positions then s.positions[s.dates[k]] else s.lastPublic;
    if s.delayed && s.dates[k] == s.hiddenStart { current := previous; }
    traded := SumTraded(s.assets, previous, current);
    raw := SumEarned(s, s.dates[k], current);
  }

  /** The net series with its turnover and cost. */
  method PortfolioSeries(s: Study, costBps: real) returns (series: seq<real>, turnover: real, totalCost: real)
    requires s.WellFormed()
    ensures |series| == |s.dates|
    ensures forall k :: 0 <= k < |s.dates| ==> series[k] == NetAt(s, k, costBps)
    ensures turnover == Turnover(s, |s.dates|) && totalCost == TotalCost(s, |s.dates|, costBps)
  {
    var previous := Opening(s);
    series, turnover, totalCost := [], 0.0, 0.0;
    for k := 0 to |s.dates|
      invariant |series| == k && (k < |s.dates| ==> previous == Before(s, k))
      invariant forall j :: 0 <= j < k ==> series[j] == NetAt(s, j, costBps)
      invariant turnover == Turnover(s, k) && totalCost == TotalCost(s, k, costBps)
    {
      var current, traded, raw := RunDate(s, k, previous);
      var cost := CostOf(traded, costBps);
      totalCost, turnover := totalCost + cost, turnover + traded;
      series := series + [raw - cost];
      previous := current;
    }
  }

  // ----- what the cost rate changes, and what it does not

  lemma CostsAdd(x: real, y: real, rate: real)
    ensures CostOf(x, rate) + CostOf(y, rate) == CostOf(x + y, rate)
  {
    assert (x + y) * rate == x * rate + y * rate;
  }

  lemma {:induction false} CostIsRateTimesTurnover(s: Study, n: nat, rate: real)
    requires s.WellFormed() && n <= |s.dates|
    ensures TotalCost(s, n, rate) == CostOf(Turnover(s, n), rate)
  {
    if n != 0 {
      CostIsRateTimesTurnover(s, n - 1, rate);
      CostsAdd(Turnover(s, n - 1), TurnoverAt(s, n - 1), rate);
    }
  }

  lemma CostIsProportional(traded: real, a: real, b: real)
    ensures CostOf(traded, a) * b == CostOf(traded, b) * a
  {
    assert traded * a / 10000.0 * b == traded * b / 10000.0 * a;
  }

  lemma CostOfDifference(traded: real, a: real, b: real)
    ensures CostOf(traded, b) - CostOf(traded, a) == CostOf(traded, b - a)
  {
    assert traded * (b - a) == traded * b - traded * a;
  }

  /** Two runs that differ in the cost rate only: their costs are in the ratio of the rates, and on
      every date their net returns differ by exactly the difference in cost. Turnover does not
      depend on the rate at all. */
  lemma CostRateOnlyScales(s: Study, a: real, b: real)
    requires s.WellFormed()
    ensures TotalCost(s, |s.dates|, a) * b == TotalCost(s, |s.dates|, b) * a
    ensures forall k :: 0 <= k < |s.dates| ==> NetAt(s, k, a) - NetAt(s, k, b) == CostOf(TurnoverAt(s, k), b - a)
  {
    CostIsRateTimesTurnover(s, |s.dates|, a);
    CostIsRateTimesTurnover(s, |s.dates|, b);
    CostIsProportional(Turnover(s, |s.dates|), a, b);
    forall k | 0 <= k < |s.dates|
      ensures NetAt(s, k, a) - NetAt(s, k, b) == CostOf(TurnoverAt(s, k), b - a)
    {
      CostOfDifference(TurnoverAt(s, k), a, b);
    }
  }

  // ----- what limited exposure means for the drawdown

  function Gross(assets: seq<Asset>, book: Book): real
    requires forall a :: a in assets ==> a in book
  {
    if assets == [] then 0.0
    else Gross(assets[..|assets| - 1], book) + Abs(book[assets[|assets| - 1]])
  }

  /** No book held exceeds the gross exposure limit, and no asset moves by more than `move` a date. */
  predicate Limited(s: Study, gross: real, move: real)
    requires s.WellFormed()
  {
    && Gross(s.assets, s.lastPublic) <= gross
    && (forall d :: d in s.positions ==> Gross(s.assets, s.positions[d]) <= gross)
    && (forall d, a :: d in s.dates && a in s.assets ==> Abs(s.gains[(d, a)]) <= move)
  }

  lemma {:induction false} NothingHeld(assets: seq<Asset>, book: Book)
    requires forall a :: a in assets ==> a in book && book[a] == 0.0
    ensures Gross(assets, book) == 0.0
  {
    if assets != [] {
      NothingHeld(assets[..|assets| - 1], book);
    }
  }

  lemma {:induction false} GrossIsNonNegative(assets: seq<Asset>, book: Book)
    requires forall a :: a in assets ==> a in book
    ensures 0.0 <= Gross(assets, book)
  {
    if assets != [] {
      GrossIsNonNegative(assets[..|assets| - 1], book);
    }
  }

  lemma OpeningIsLimited(s: Study, gross: real, move: real)
    requires s.WellFormed() && Limited(s, gross, move)
    ensures forall a :: a in s.assets ==> a in Opening(s)
    ensures Gross(s.assets, Opening(s)) <= gross
  {
    GrossIsNonNegative(s.assets, s.lastPublic);
    if !(s.delayed && s.hidden) { NothingHeld(s.assets, Opening(s)); }
  }

  lemma {:induction false} HeldIsLimited(s: Study, k: nat, gross: real, move: real)
    requires s.WellFormed() && Limited(s, gross, move) && k < |s.dates|
    ensures forall a :: a in s.assets ==> a in HeldAt(s, k)
    ensures Gross(s.assets, HeldAt(s, k)) <= gross
  {
    HeldIsComplete(s, k);
    OpeningIsLimited(s, gross, move);
    if s.delayed && s.dates[k] == s.hiddenStart && k != 0 {
      HeldIsLimited(s, k - 1, gross, move);
    }
  }

  lemma {:induction false} TradedWithinGross(assets: seq<Asset>, from: Book, to: Book)
    requires forall a :: a in assets ==> a in from && a in to
    ensures Traded(assets, from, to) <= Gross(assets, from) + Gross(assets, to)
  {
    if assets != [] {
      TradedWithinGross(assets[..|assets| - 1], from, to);
    }
  }

  lemma {:induction false} EarnedWithinGross(s: Study, date: Date, book: Book, n: nat, move: real)
    requires s.WellFormed() && date in s.dates && n <= |s.assets| && forall a :: a in s.assets ==> a in book
    requires forall a :: a in s.assets ==> Abs(s.gains[(date, a)]) <= move
    ensures -Scaled(Gross(s.assets[..n], book), move) <= Earned(s, date, book, n)
  {
    if n != 0 {
      var asset := s.assets[n - 1];
      EarnedWithinGross(s, date, book, n - 1, move);
      GrossNext(s.assets, book, n - 1);
      OneMoreLoss(Gross(s.assets[..n - 1], book), book[asset], Earned(s, date, book, n - 1), s.gains[(date, asset)],
                  move);
    }
  }

  lemma GrossNext(assets: seq<Asset>, book: Book, n: nat)
    requires n < |assets| && forall a :: a in assets ==> a in book
    ensures Gross(assets[..n + 1], book) == Gross(assets[..n], book) + Abs(book[assets[n]])
  {
    assert assets[..n + 1][..n] == assets[..n];
  }

  lemma OneMoreLoss(gross: real, position: real, earned: real, gain: real, move: real)
    requires -Scaled(gross, move) <= earned && Abs(gain) <= move
    ensures -Scaled(gross + Abs(position), move) <= earned + position * gain
  {
    LossWithin(position, gain, move);
    ScaledAdds(gross, Abs(position), move);
  }

  function Scaled(x: real, factor: real): real { x * factor }

  lemma ScaledAdds(x: real, y: real, factor: real)
    ensures Scaled(x + y, factor) == Scaled(x, factor) + Scaled(y, factor)
  {
  }

  lemma LossWithin(position: real, gain: real, move: real)
    requires Abs(gain) <= move
    ensures -Scaled(Abs(position), move) <= position * gain
  {
    if 0.0 <= position {
      NonNegative(position, move + gain);
    } else {
      NonNegative(-position, move - gain);
    }
  }

  lemma ScaledGrows(x: real, y: real, factor: real)
    requires x <= y && 0.0 <= factor
    ensures Scaled(x, factor) <= Scaled(y, factor)
  {
    NonNegative(y - x, factor);
  }

  /** The worst date of a limited portfolio: everything held moves against it, and the whole book
      is turned over. */
  lemma ExposureLimitsLoss(s: Study, k: nat, gross: real, move: real, costBps: real)
    requires s.WellFormed() && Limited(s, gross, move) && k < |s.dates| && 0.0 <= move && 0.0 <= costBps
    ensures -Scaled(gross, move) - CostOf(2.0 * gross, costBps) <= NetAt(s, k, costBps)
  {
    OpeningIsLimited(s, gross, move);
    HeldIsLimited(s, k, gross, move);
    if k != 0 { HeldIsLimited(s, k - 1, gross, move); }
    TradedWithinGross(s.assets, Before(s, k), HeldAt(s, k));
    ScaledGrows(TurnoverAt(s, k), 2.0 * gross, costBps);
    EarnedWithinGross(s, s.dates[k], HeldAt(s, k), |s.assets|, move);
    assert s.assets[..|s.assets|] == s.assets;
    ScaledGrows(Gross(s.assets, HeldAt(s, k)), gross, move);
  }

  /** Under the program's own limits - gross exposure within 1.5, moves within two percent, costs up
      to fifteen basis points - every drawdown it reports is the largest one. */
  method LimitedDrawdown(s: Study, costBps: real) returns (series: seq<real>, drawdown: real)
    requires s.WellFormed() && Limited(s, 1.5 + 0.000000001, 0.02) && 0.0 <= costBps <= 15.0
    ensures |series| == |s.dates| && forall k :: 0 <= k < |s.dates| ==> series[k] == NetAt(s, k, costBps)
    ensures LargestDrop(series, |series|, drawdown)
  {
    var turnover, cost;
    series, turnover, cost := PortfolioSeries(s, costBps);
    forall k | 0 <= k < |series|
      ensures -1.0 <= series[k]
    {
      ExposureLimitsLoss(s, k, 1.5 + 0.000000001, 0.02, costBps);
      ScaledGrows(costBps, 15.0, 2.0 * (1.5 + 0.000000001));
    }
    drawdown := Drawdown(series);
  }

  lemma {:induction false} StandingStill(assets: seq<Asset>, book: Book)
    requires forall a :: a in assets ==> a in book
    ensures Traded(assets, book, book) == 0.0
  {
    if assets != [] {
      StandingStill(assets[..|assets| - 1], book);
    }
  }

  /** Over hidden dates, where nothing new was submitted, the portfolio trades once at the start -
      and with the one-day delay not at all. */
  lemma {:induction false} HiddenRunTradesOnce(s: Study, n: nat)
    requires s.WellFormed() && s.hidden && n <= |s.dates|
    requires forall k :: 0 <= k < |s.dates| ==> s.dates[k] !in s.positions
    ensures forall k :: 0 <= k < n ==> HeldAt(s, k) == s.lastPublic
    ensures Turnover(s, n) == if n == 0 || s.delayed then 0.0
                              else Traded(s.assets, map a | a in s.assets :: 0.0, s.lastPublic)
  {
    if n != 0 {
      HiddenRunTradesOnce(s, n - 1);
      StandingStill(s.assets, s.lastPublic);
    }
  }

  // ----- what the sums are, asset by asset

  predicate For(row: PositionRow, date: Date, asset: Asset) { row.date == date && row.asset == asset }

  /** Row `k` is the last one for its date and asset. */
  predicate Decides(rows: seq<PositionRow>, k: int, date: Date, asset: Asset) {
    0 <= k < |rows| && For(rows[k], date, asset) && forall j :: k < j < |rows| ==> !For(rows[j], date, asset)
  }

  /** The row that no later one replaces decides the position. */
  lemma {:induction false} LastRowDecides(rows: seq<PositionRow>, date: Date, asset: Asset, k: int)
    requires Decides(rows, k, date, asset)
    ensures LastPosition(rows, date, asset) == rows[k].position
  {
    var n := |rows| - 1;
    if k < n {
      assert !For(rows[n], date, asset);
      assert Decides(rows[..n], k, date, asset);
      LastRowDecides(rows[..n], date, asset, k);
    }
  }

  /** No row means none is held. */
  lemma {:induction false} NoRowNoPosition(rows: seq<PositionRow>, date: Date, asset: Asset)
    requires forall k :: 0 <= k < |rows| ==> !For(rows[k], date, asset)
    ensures LastPosition(rows, date, asset) == 0.0
  {
    if rows != [] {
      NoRowNoPosition(rows[..|rows| - 1], date, asset);
    }
  }

  predicate Distinct(assets: seq<Asset>) {
    forall i, j :: 0 <= i < j < |assets| ==> assets[i] != assets[j]
  }

  /** Holding `x` more of one asset earns `x` times that asset's gain more; holding nothing earns nothing. */
  lemma {:induction false} EarnedByAsset(s: Study, date: Date, book: Book, i: nat, x: real, n: nat)
    requires s.WellFormed() && Distinct(s.assets) && date in s.dates && forall a :: a in s.assets ==> a in book
    requires i < |s.assets| && n <= |s.assets|
    ensures Earned(s, date, book[s.assets[i] := book[s.assets[i]] + x], n)
         == Earned(s, date, book, n) + if i < n then x * s.gains[(date, s.assets[i])] else 0.0
    ensures (forall a :: a in s.assets ==> book[a] == 0.0) ==> Earned(s, date, book, n) == 0.0
  {
    if n != 0 {
      EarnedByAsset(s, date, book, i, x, n - 1);
      if i == n - 1 {
        var held, gain := book[s.assets[i]], s.gains[(date, s.assets[i])];
        assert (held + x) * gain == held * gain + x * gain;
      }
    }
  }

  /** Ending with `x` of one asset instead changes the turnover by that asset's own trade only. */
  lemma {:induction false} TradedByAsset(assets: seq<Asset>, from: Book, to: Book, i: nat, x: real)
    requires Distinct(assets) && i < |assets| && forall a :: a in assets ==> a in from && a in to
    ensures var a := assets[i];
            Traded(assets, from, to[a := x])
              == Traded(assets, from, to) - Larger(to[a] - from[a], from[a] - to[a]) + Larger(x - from[a], from[a] - x)
  {
    var n := |assets| - 1;
    var front := assets[..n];
    if i < n {
      TradedByAsset(front, from, to, i, x);
    } else {
      TradedElsewhere(front, from, to, assets[i], x);
    }
  }

  lemma {:induction false} TradedElsewhere(assets: seq<Asset>, from: Book, to: Book, a: Asset, x: real)
    requires a !in assets && forall b :: b in assets ==> b in from && b in to
    ensures Traded(assets, from, to[a := x]) == Traded(assets, from, to)
  {
    if assets != [] {
      TradedElsewhere(assets[..|assets| - 1], from, to, a, x);
    }
  }

  /** A rate of ten thousand basis points charges all that is traded. */
  lemma CostIsInBasisPoints(traded: real)
    ensures CostOf(traded, 10000.0) == traded && CostOf(traded, 0.0) == 0.0
  {
  }

  /** A run without the delay holds each date's own positions, having started from nothing. */
  lemma PublicRunFollowsPositions(s: Study, k: nat)
    requires s.WellFormed() && !s.delayed && k < |s.dates|
    requires forall j :: 0 <= j < |s.dates| ==> s.dates[j] in s.positions
    ensures HeldAt(s, k) == s.positions[s.dates[k]]
    ensures TurnoverAt(s, k) == Traded(s.assets, if k == 0 then map a | a in s.assets :: 0.0
                                                 else s.positions[s.dates[k - 1]], s.positions[s.dates[k]])
  {
  }

  /** A run over public dates starts from nothing, delayed or not. */
  lemma PublicRunStartsFlat(s: Study)
    requires s.WellFormed() && !s.hidden && s.dates != []
    ensures TurnoverAt(s, 0) == Traded(s.assets, map a | a in s.assets :: 0.0, HeldAt(s, 0))
  {
  }

  /** The delay holds the book of the date before over the first hidden date, trading nothing, and
      changes what is held on no other date. */
  lemma DelayHoldsOneDate(s: Study, k: nat)
    requires s.WellFormed() && s.delayed && k < |s.dates|
    ensures s.dates[k] == s.hiddenStart ==> HeldAt(s, k) == Before(s, k) && TurnoverAt(s, k) == 0.0
    ensures s.dates[k] != s.hiddenStart ==> HeldAt(s, k) == HeldAt(s.(delayed := false), k)
  {
    HeldIsComplete(s, k);
    StandingStill(s.assets, HeldAt(s, k));
  }
}
