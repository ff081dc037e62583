/** Trend analysis of each product's primary metric: choice of the metric
    column, least-squares trend classification, the per-product insight and
    the up / down / stable tally of the executive summary. The rolling mean
    of the same stage is `Rolling.RollingMean`. */
module TimeSeries {
  import opened Common
  import opened Ordering
  import opened Rolling

  // ---------------------------------------------------------------------------
  // Choice of the metric column.
  // ---------------------------------------------------------------------------

  datatype ColumnError = NoNumericColumn

  /** The preferred metrics, in order of preference. */
  const Priority: seq<string> := ["avg_daily_sales", "total_revenue"]

  /** Index of the first candidate that is one of the columns. */
  function FirstListed(candidates: seq<string>, columns: seq<string>): (r: Option<nat>)
    ensures r.None? <==> forall j :: 0 <= j < |candidates| ==> candidates[j] !in columns
    ensures r.Some? ==> r.value < |candidates| && candidates[r.value] in columns
    ensures r.Some? ==> forall j :: 0 <= j < r.value ==> candidates[j] !in columns
  {
    if candidates == [] then None
    else if candidates[0] in columns then Some(0)
    else match FirstListed(candidates[1..], columns)
      case None => None
      case Some(i) => Some(i + 1)
  }

  /** The metric analysed: the first preferred metric among the numeric
      columns, else the first numeric column; none at all is an error. */
  function FindValueColumn(numeric: seq<string>): (r: Result<string, ColumnError>)
    ensures r.Err? <==> numeric == []
    ensures r.Ok? ==> r.value in numeric
    ensures "avg_daily_sales" in numeric ==> r == Ok("avg_daily_sales")
    ensures "avg_daily_sales" !in numeric && "total_revenue" in numeric ==> r == Ok("total_revenue")
    ensures "avg_daily_sales" !in numeric && "total_revenue" !in numeric && numeric != [] ==>
      r == Ok(numeric[0])
  {
    assert Priority[0] == "avg_daily_sales" && Priority[1] == "total_revenue";
    match FirstListed(Priority, numeric)
    case Some(i) => Ok(Priority[i])
    case None => if numeric != [] then Ok(numeric[0]) else Err(NoNumericColumn)
  }

  // ---------------------------------------------------------------------------
  // Least-squares slope of a series against its positions 0, 1, ..., n-1
  // (numpy `polyfit(x, y, 1)[0]`), and its population variance (`np.std`
  // squared), in exact arithmetic.
  // ---------------------------------------------------------------------------

  /** The mean position (n-1)/2. */
  function Center(n: nat): real {
    (n as real - 1.0) / 2.0
  }

  /** Sum over the positions i < n of (i - c)². */
  function SqDev(n: nat, c: real): real {
    if n == 0 then 0.0 else SqDev(n - 1, c) + ((n - 1) as real - c) * ((n - 1) as real - c)
  }

  /** Sum over the positions i of (i - c)·(ys[i] - m). */
  function Cross(ys: seq<real>, c: real, m: real): real {
    if ys == [] then 0.0
    else
      var k := |ys| - 1;
      Cross(ys[..k], c, m) + (k as real - c) * (ys[k] - m)
  }

  /** Sum of the squared deviations (ys[i] - m)². */
  function Dev2(ys: seq<real>, m: real): real {
    if ys == [] then 0.0
    else
      var k := |ys| - 1;
      Dev2(ys[..k], m) + (ys[k] - m) * (ys[k] - m)
  }

  lemma SquareNonNegative(d: real)
    ensures d * d >= 0.0
  {
    if d < 0.0 {
      assert d * d == (-d) * (-d);
    }
  }

  lemma {:induction false} SqDevAtLeastFirst(n: nat, c: real)
    requires n >= 1
    ensures SqDev(n, c) >= c * c
  {
    if n > 1 {
      SqDevAtLeastFirst(n - 1, c);
      SquareNonNegative((n - 1) as real - c);
    } else {
      assert SqDev(1, c) == (0.0 - c) * (0.0 - c);
    }
  }

  /** With two or more points the positions are not all equal. */
  lemma SqDevPositive(n: nat)
    requires n >= 2
    ensures SqDev(n, Center(n)) > 0.0
  {
    SqDevAtLeastFirst(n, Center(n));
  }

  function Slope(ys: seq<real>): real
    requires |ys| >= 2
  {
    var n := |ys|;
    SqDevPositive(n);
    Cross(ys, Center(n), Mean(ys)) / SqDev(n, Center(n))
  }

  /** `ys` is the line a + b·i. */
  predicate Linear(ys: seq<real>, a: real, b: real) {
    forall i :: 0 <= i < |ys| ==> ys[i] == a + b * (i as real)
  }

  lemma {:induction false} SumLinear(ys: seq<real>, a: real, b: real)
    requires Linear(ys, a, b)
    ensures Sum(ys) == (|ys| as real) * a + b * ((|ys| as real) * (|ys| as real - 1.0) / 2.0)
  {
    if ys != [] {
      var k := |ys| - 1;
      var kr := k as real;
      assert Linear(ys[..k], a, b);
      SumLinear(ys[..k], a, b);
      assert Sum(ys) == kr * a + b * (kr * (kr - 1.0) / 2.0) + (a + b * kr);
      assert kr * (kr - 1.0) / 2.0 + kr == (kr + 1.0) * kr / 2.0;
    }
  }

  /** A line's mean is its value at the mean position. */
  lemma {:induction false} MeanLinear(ys: seq<real>, a: real, b: real)
    requires |ys| >= 1 && Linear(ys, a, b)
    ensures Mean(ys) == a + b * Center(|ys|)
  {
    var n := |ys| as real;
    SumLinear(ys, a, b);
    assert Sum(ys) == n * (a + b * Center(|ys|));
  }

  lemma {:induction false} CrossProportional(ys: seq<real>, c: real, m: real, b: real)
    requires forall i :: 0 <= i < |ys| ==> ys[i] - m == b * (i as real - c)
    ensures Cross(ys, c, m) == b * SqDev(|ys|, c)
  {
    if ys != [] {
      var k := |ys| - 1;
      CrossProportional(ys[..k], c, m, b);
      var d := k as real - c;
      assert (k as real - c) * (ys[k] - m) == b * (d * d);
    }
  }

  /** The deviations of a line from its mean are proportional to the
      deviations of the positions from theirs. */
  lemma {:induction false} LinearDeviations(ys: seq<real>, a: real, b: real)
    requires |ys| >= 1 && Linear(ys, a, b)
    ensures forall i :: 0 <= i < |ys| ==> ys[i] - Mean(ys) == b * (i as real - Center(|ys|))
  {
    MeanLinear(ys, a, b);
  }

  lemma {:induction false} Dev2Proportional(ys: seq<real>, c: real, m: real, b: real)
    requires forall i :: 0 <= i < |ys| ==> ys[i] - m == b * (i as real - c)
    ensures Dev2(ys, m) == b * b * SqDev(|ys|, c)
  {
    if ys != [] {
      var k := |ys| - 1;
      Dev2Proportional(ys[..k], c, m, b);
      var d := k as real - c;
      assert (ys[k] - m) * (ys[k] - m) == b * b * (d * d);
    }
  }

  /** The fitted slope of an exact line is the line's slope. */
  lemma {:induction false} LinearSlope(ys: seq<real>, a: real, b: real)
    requires |ys| >= 2 && Linear(ys, a, b)
    ensures Slope(ys) == b
  {
    var n, c, m := |ys|, Center(|ys|), Mean(ys);
    LinearDeviations(ys, a, b);
    CrossProportional(ys, c, m, b);
    SqDevPositive(n);
  }

  // ---------------------------------------------------------------------------
  // Trend classification.
  // ---------------------------------------------------------------------------

  datatype Trend = Up | Down | Stable

  /** The slope a trend must exceed: 5% of the standard deviation, or 0.01
      for a series whose standard deviation is zero. */
  function Threshold(std: real): (t: real)
    ensures t > 0.0
  {
    if std > 0.0 then std * 0.05 else 0.01
  }

  /** `std` is the population standard deviation (`np.std`) of the series:
      non-negative, and n·std² is the total squared deviation from the mean. */
  predicate IsStd(ys: seq<real>, std: real)
    requires |ys| >= 1
  {
    std >= 0.0 && std * std * (|ys| as real) == Dev2(ys, Mean(ys))
  }

  /** `slope > Threshold(std)` for a series of `n` points whose total squared
      deviation is `dev2`, stated without the square root that `std` needs:
      with variance dev2/n, it reads slope > 0 and slope² > 0.05²·dev2/n. */
  predicate RisesPast(slope: real, n: real, dev2: real) {
    if dev2 > 0.0 then slope > 0.0 && n * (slope * slope) > 0.0025 * dev2 else slope > 0.01
  }

  /** `slope < -Threshold(std)`, likewise. */
  predicate FallsPast(slope: real, n: real, dev2: real) {
    RisesPast(-slope, n, dev2)
  }

  /** The root-free comparison is the source's comparison against
      `Threshold(std)` whenever n·std² is the total squared deviation. */
  lemma ThresholdForm(slope: real, n: real, dev2: real, std: real)
    requires n > 0.0 && std >= 0.0 && std * std * n == dev2
    ensures RisesPast(slope, n, dev2) <==> slope > Threshold(std)
    ensures FallsPast(slope, n, dev2) <==> slope < -Threshold(std)
  {
  }

  /** numpy's degree-one fit and standard deviation, then the threshold
      rule; fewer than two points is stable. */
  function DetectTrend(ys: seq<real>): (t: Trend)
    ensures |ys| < 2 ==> t == Stable
    ensures t == Up ==> |ys| >= 2 && Slope(ys) > 0.0
    ensures t == Down ==> |ys| >= 2 && Slope(ys) < 0.0
  {
    if |ys| < 2 then Stable
    else
      var n, dev2 := |ys| as real, Dev2(ys, Mean(ys));
      if RisesPast(Slope(ys), n, dev2) then Up
      else if FallsPast(Slope(ys), n, dev2) then Down
      else Stable
  }

  /** With `std` the standard deviation of the series, the trend is up
      exactly when the slope exceeds the threshold, down exactly when it is
      below its negation, and stable exactly when it lies between. */
  lemma TrendAgainstThreshold(ys: seq<real>, std: real)
    requires |ys| >= 2 && IsStd(ys, std)
    ensures DetectTrend(ys) == Up <==> Slope(ys) > Threshold(std)
    ensures DetectTrend(ys) == Down <==> Slope(ys) < -Threshold(std)
    ensures DetectTrend(ys) == Stable <==> -Threshold(std) <= Slope(ys) <= Threshold(std)
  {
    ThresholdForm(Slope(ys), |ys| as real, Dev2(ys, Mean(ys)), std);
  }

  /** A constant series is stable. */
  lemma ConstantIsStable(ys: seq<real>, v: real)
    requires forall i :: 0 <= i < |ys| ==> ys[i] == v
    ensures DetectTrend(ys) == Stable
  {
    if |ys| >= 2 {
      assert Linear(ys, v, 0.0);
      LinearSlope(ys, v, 0.0);
    }
  }

  /** The squared deviations of an exact line are b² times those of the
      positions. */
  lemma {:induction false} LinearDev2(ys: seq<real>, a: real, b: real)
    requires |ys| >= 2 && Linear(ys, a, b)
    ensures Dev2(ys, Mean(ys)) == (b * b) * SqDev(|ys|, Center(|ys|))
  {
    LinearDeviations(ys, a, b);
    Dev2Proportional(ys, Center(|ys|), Mean(ys), b);
  }

  /** The positions 0..n-1 deviate from a centre c by this much in total. */
  lemma {:induction false} SqDevClosedForm(n: nat, c: real)
    ensures var m := n as real;
      SqDev(n, c) == (m - 1.0) * m * (2.0 * m - 1.0) / 6.0 - c * m * (m - 1.0) + m * c * c
  {
    if n > 0 {
      SqDevClosedForm(n - 1, c);
      SqDevStep((n - 1) as real, c);
    }
  }

  lemma SqDevStep(m: real, c: real)
    ensures (m - 1.0) * m * (2.0 * m - 1.0) / 6.0 - c * m * (m - 1.0) + m * c * c + (m - c) * (m - c)
      == m * (m + 1.0) * (2.0 * m + 1.0) / 6.0 - c * (m + 1.0) * m + (m + 1.0) * c * c
  {
  }

  lemma CenteredIdentity(m: real)
    ensures var c := (m - 1.0) / 2.0;
      (m - 1.0) * m * (2.0 * m - 1.0) / 6.0 - c * m * (m - 1.0) + m * c * c == m * (m * m - 1.0) / 12.0
  {
  }

  /** m(m² - 1)/12: the total squared deviation of m evenly spaced
      positions about their mean. */
  function PositionSpread(m: real): real {
    m * (m * m - 1.0) / 12.0
  }

  /** About their own mean, the positions 0..n-1 deviate by n(n² - 1)/12 in
      total: their variance is (n² - 1)/12. */
  lemma SqDevCentered(n: nat)
    ensures SqDev(n, Center(n)) == PositionSpread(n as real)
  {
    SqDevClosedForm(n, Center(n));
    CenteredIdentity(n as real);
  }

  /** For a line of slope b ≠ 0 whose positions deviate by s > 0 in total,
      the rule fires exactly when s < 400·n, in the line's direction. */
  lemma LineCompare(b: real, n: real, s: real)
    requires n > 0.0 && s > 0.0 && b != 0.0
    ensures RisesPast(b, n, (b * b) * s) <==> b > 0.0 && s < 400.0 * n
    ensures FallsPast(b, n, (b * b) * s) <==> b < 0.0 && s < 400.0 * n
  {
  }

  /** The trend of an exact non-flat line depends only on its direction and
      on the total squared deviation of its positions. */
  lemma {:induction false} LineTrend(ys: seq<real>, a: real, b: real)
    requires |ys| >= 2 && Linear(ys, a, b) && b != 0.0
    ensures var s := SqDev(|ys|, Center(|ys|));
      DetectTrend(ys) == (if s < 400.0 * (|ys| as real) then (if b > 0.0 then Up else Down) else Stable)
  {
    var n, s := |ys| as real, SqDev(|ys|, Center(|ys|));
    LinearSlope(ys, a, b);
    LinearDev2(ys, a, b);
    SqDevPositive(|ys|);
    LineCompare(b, n, s);
    TrendOf(ys, b, n, (b * b) * s);
  }

  /** The trend of two or more points in terms of their slope, count and
      total squared deviation. */
  lemma TrendOf(ys: seq<real>, slope: real, n: real, dev2: real)
    requires |ys| >= 2 && Slope(ys) == slope && n == |ys| as real && Dev2(ys, Mean(ys)) == dev2
    ensures DetectTrend(ys) ==
      if RisesPast(slope, n, dev2) then Up else if FallsPast(slope, n, dev2) then Down else Stable
  {
  }

  lemma SquareLe(m: real, k: real)
    requires 0.0 <= m <= k
    ensures m * m <= k * k
  {
  }

  lemma ScaleLess(m: real, x: real, y: real)
    requires m > 0.0
    ensures m * x < m * y <==> x < y
  {
  }

  lemma {:induction false} SpreadBelow(m: real)
    requires 1.0 <= m <= 69.0
    ensures PositionSpread(m) < 400.0 * m
  {
    SquareLe(m, 69.0);
    ScaleLess(m, (m * m - 1.0) / 12.0, 400.0);
  }

  lemma SpreadAbove(m: real)
    requires m >= 70.0
    ensures PositionSpread(m) >= 400.0 * m
  {
  }

  /** n(n² - 1)/12 < 400·n exactly when n <= 69. */
  lemma {:induction false} NearFlat(n: nat)
    requires n >= 1
    ensures SqDev(n, Center(n)) < 400.0 * (n as real) <==> n <= 69
  {
    SqDevCentered(n);
    if n <= 69 {
      SpreadBelow(n as real);
    } else {
      SpreadAbove(n as real);
    }
  }

  /** An exact rising line of n points is classified up when n <= 69 and
      stable from n = 70 on: its standard deviation grows with n, and so
      does the threshold, while the slope stays the same. */
  lemma RisingLine(ys: seq<real>, a: real, b: real)
    requires |ys| >= 2 && Linear(ys, a, b) && b > 0.0
    ensures DetectTrend(ys) == (if |ys| <= 69 then Up else Stable)
  {
    LineTrend(ys, a, b);
    NearFlat(|ys|);
  }

  /** An exact falling line of n points is classified down when n <= 69
      and stable from n = 70 on. */
  lemma FallingLine(ys: seq<real>, a: real, b: real)
    requires |ys| >= 2 && Linear(ys, a, b) && b < 0.0
    ensures DetectTrend(ys) == (if |ys| <= 69 then Down else Stable)
  {
    LineTrend(ys, a, b);
    NearFlat(|ys|);
  }

  // ---------------------------------------------------------------------------
  // Per-product insight: the trend, the latest demand-pressure level and the
  // latest inventory figures of the product, and the recommendation.
  // ---------------------------------------------------------------------------

  datatype Recommendation = IncreaseStock | ReduceInventory | MaintainPolicy

  datatype DemandRow = DemandRow(productId: int, level: string)

  /** A row of the inventory-status view; a field the view lacks is None. */
  datatype InventoryRow = InventoryRow(
    productId: int, stockOnHand: Option<real>, reorderPoint: Option<real>, status: Option<string>)

  /** The insight for one product; a None field is reported as "N/A". */
  datatype Insight = Insight(
    trend: Trend, demandLevel: Option<string>, currentStock: Option<real>,
    reorderPoint: Option<real>, inventoryStatus: Option<string>,
    recommendation: Recommendation)

  function DemandProduct(d: DemandRow): int {
    d.productId
  }

  function InventoryProduct(v: InventoryRow): int {
    v.productId
  }

  /** Row `i` is the last row whose key is `k` (`iloc[-1]` of the filtered rows). */
  predicate LastRowOf<T>(rows: seq<T>, key: T -> int, k: int, i: int) {
    0 <= i < |rows| && key(rows[i]) == k && forall j :: i < j < |rows| ==> key(rows[j]) != k
  }

  /** The index of the last row whose key is `k`, if any. */
  function LastWith<T>(rows: seq<T>, key: T -> int, k: int): (r: Option<nat>)
    ensures r.None? <==> forall i :: 0 <= i < |rows| ==> key(rows[i]) != k
    ensures r.Some? ==> LastRowOf(rows, key, k, r.value)
  {
    if rows == [] then None
    else if key(rows[|rows| - 1]) == k then Some(|rows| - 1)
    else LastWith(rows[..|rows| - 1], key, k)
  }

  function GenerateInsight(
    pid: int, trend: Trend, demand: seq<DemandRow>, hasLevelColumn: bool,
    inventory: seq<InventoryRow>): (r: Insight)
    ensures r.trend == trend
    ensures r.recommendation == IncreaseStock <==> trend == Up
    ensures r.recommendation == ReduceInventory <==> trend == Down
    ensures r.recommendation == MaintainPolicy <==> trend == Stable
    ensures r.demandLevel.None? <==>
      !hasLevelColumn || forall i :: 0 <= i < |demand| ==> demand[i].productId != pid
    ensures forall i :: hasLevelColumn && LastRowOf(demand, DemandProduct, pid, i) ==>
      r.demandLevel == Some(demand[i].level)
    ensures (forall i :: 0 <= i < |inventory| ==> inventory[i].productId != pid) ==>
      r.currentStock.None? && r.reorderPoint.None? && r.inventoryStatus.None?
    ensures forall i :: LastRowOf(inventory, InventoryProduct, pid, i) ==>
      r.currentStock == inventory[i].stockOnHand && r.reorderPoint == inventory[i].reorderPoint &&
      r.inventoryStatus == inventory[i].status
  {
    var level :=
      if !hasLevelColumn then None
      else match LastWith(demand, DemandProduct, pid)
        case None => None
        case Some(i) => Some(demand[i].level);
    var (stock, reorder, status) :=
      match LastWith(inventory, InventoryProduct, pid)
      case None => (None, None, None)
      case Some(i) => (inventory[i].stockOnHand, inventory[i].reorderPoint, inventory[i].status);
    var recommendation :=
      match trend
      case Up => IncreaseStock
      case Down => ReduceInventory
      case Stable => MaintainPolicy;
    Insight(trend, level, stock, reorder, status, recommendation)
  }

  // ---------------------------------------------------------------------------
  // The sampled products: series per product, the top products by mean and
  // the per-product summary with its up / down / stable tally.
  // ---------------------------------------------------------------------------

  /** The metric values of one product, in row order. */
  datatype ProductSeries = ProductSeries(productId: int, values: seq<real>)

  /** A row of the time-series summary. */
  datatype SummaryRow = SummaryRow(
    productId: int, trend: Trend, avgValue: real, lastValue: real, insight: Insight)

  /** The rows grouped by product, products in ascending order (`groupby`). */
  function GroupSeries(keys: seq<int>, values: seq<real>): (r: seq<ProductSeries>)
    requires |keys| == |values|
    ensures |r| == |SortedSet(keys, IntLt)|
    ensures forall i :: 0 <= i < |r| ==> r[i] == ProductSeries(SortedSet(keys, IntLt)[i],
      GroupValues(keys, values, SortedSet(keys, IntLt)[i]))
  {
    var ids := SortedSet(keys, IntLt);
    seq(|ids|, i requires 0 <= i < |ids| => ProductSeries(ids[i], GroupValues(keys, values, ids[i])))
  }

  lemma {:induction false} GroupValuesNonEmpty(keys: seq<int>, values: seq<real>, k: int)
    requires |keys| == |values| && k in keys
    ensures GroupValues(keys, values, k) != []
    decreases |keys|
  {
    var n := |keys| - 1;
    if keys[n] != k {
      assert k in keys[..n] by {
        var i :| 0 <= i < |keys| && keys[i] == k;
        assert keys[..n][i] == k;
      }
      GroupValuesNonEmpty(keys[..n], values[..n], k);
    }
  }

  /** One series per distinct product, each product once, in ascending
      order, and none of them empty. */
  lemma GroupSeriesProducts(keys: seq<int>, values: seq<real>)
    requires |keys| == |values|
    ensures forall p :: p in keys <==>
      (exists i :: 0 <= i < |GroupSeries(keys, values)| && GroupSeries(keys, values)[i].productId == p)
    ensures forall i, j :: 0 <= i < j < |GroupSeries(keys, values)| ==>
      GroupSeries(keys, values)[i].productId < GroupSeries(keys, values)[j].productId
    ensures forall i :: 0 <= i < |GroupSeries(keys, values)| ==> GroupSeries(keys, values)[i].values != []
  {
    var ids := SortedSet(keys, IntLt);
    var r := GroupSeries(keys, values);
    IntLtStrictTotal();
    SortedSetSorted(keys, IntLt);
    forall p | p in keys ensures exists i :: 0 <= i < |r| && r[i].productId == p {
      var i :| 0 <= i < |ids| && ids[i] == p;
      assert r[i].productId == p;
    }
    forall i | 0 <= i < |r| ensures r[i].values != [] {
      assert ids[i] in ids;
      GroupValuesNonEmpty(keys, values, ids[i]);
    }
  }

  /** The mean of a series, 0 for an empty one. */
  function SeriesMean(s: ProductSeries): real {
    if s.values == [] then 0.0 else Mean(s.values)
  }

  predicate HigherMean(a: ProductSeries, b: ProductSeries) {
    SeriesMean(a) >= SeriesMean(b)
  }

  /** The `k` series with the largest means, largest first, ties in input
      order (`mean().nlargest(k)`). */
  function TopProducts(groups: seq<ProductSeries>, k: nat): seq<ProductSeries> {
    Take(SortBy(groups, HigherMean), k)
  }

  lemma HigherMeanTotal()
    ensures TotalPreorder(HigherMean)
  {
  }

  lemma {:induction false} TopProductsRanked(groups: seq<ProductSeries>, k: nat)
    ensures |TopProducts(groups, k)| == if |groups| < k then |groups| else k
    ensures forall t :: t in TopProducts(groups, k) ==> t in groups
    ensures forall i, j :: 0 <= i < j < |TopProducts(groups, k)| ==>
      SeriesMean(TopProducts(groups, k)[i]) >= SeriesMean(TopProducts(groups, k)[j])
    ensures forall g, t :: g in groups && g !in TopProducts(groups, k) && t in TopProducts(groups, k) ==>
      SeriesMean(t) >= SeriesMean(g)
  {
    var sorted := SortBy(groups, HigherMean);
    var top := Take(sorted, k);
    HigherMeanTotal();
    SortBySorted(groups, HigherMean);
    forall t | t in top ensures t in groups {
      var i :| 0 <= i < |top| && top[i] == t;
      assert sorted[i] in multiset(groups);
    }
    forall i, j | 0 <= i < j < |top| ensures SeriesMean(top[i]) >= SeriesMean(top[j]) {
      assert HigherMean(sorted[i], sorted[j]);
    }
    forall g, t | g in groups && g !in top && t in top ensures SeriesMean(t) >= SeriesMean(g) {
      assert g in multiset(sorted);
      var j :| 0 <= j < |sorted| && sorted[j] == g;
      var i :| 0 <= i < |top| && top[i] == t;
      assert HigherMean(sorted[i], sorted[j]);
    }
  }

  /** The summary row of a non-empty series. */
  function Summarise(s: ProductSeries, demand: seq<DemandRow>, hasLevelColumn: bool,
                     inventory: seq<InventoryRow>): SummaryRow
    requires s.values != []
  {
    var trend := DetectTrend(s.values);
    SummaryRow(s.productId, trend, Mean(s.values), s.values[|s.values| - 1],
      GenerateInsight(s.productId, trend, demand, hasLevelColumn, inventory))
  }

  /** The summary rows of the sampled series, an empty series skipped. */
  function Summaries(sample: seq<ProductSeries>, demand: seq<DemandRow>, hasLevelColumn: bool,
                     inventory: seq<InventoryRow>): seq<SummaryRow>
  {
    if sample == [] then []
    else
      var n := |sample| - 1;
      Summaries(sample[..n], demand, hasLevelColumn, inventory) +
      (if sample[n].values == [] then [] else [Summarise(sample[n], demand, hasLevelColumn, inventory)])
  }

  function TrendsOf(rows: seq<SummaryRow>): (r: seq<Trend>)
    ensures |r| == |rows| && forall i :: 0 <= i < |r| ==> r[i] == rows[i].trend
  {
    seq(|rows|, i requires 0 <= i < |rows| => rows[i].trend)
  }

  lemma {:induction false} TrendCountsPartition(ts: seq<Trend>)
    ensures Count(ts, Up) + Count(ts, Down) + Count(ts, Stable) == |ts|
    decreases |ts|
  {
    if ts != [] {
      var n := |ts| - 1;
      TrendCountsPartition(ts[..n]);
      assert Count(ts, Up) == Count(ts[..n], Up) + (if ts[n] == Up then 1 else 0);
      assert Count(ts, Down) == Count(ts[..n], Down) + (if ts[n] == Down then 1 else 0);
      assert Count(ts, Stable) == Count(ts[..n], Stable) + (if ts[n] == Stable then 1 else 0);
    }
  }

  /** Each sampled product is analysed once, in sample order: its trend, mean
      and latest value, its insight, and the tally of trends. */
  method AnalyseSample(sample: seq<ProductSeries>, demand: seq<DemandRow>, hasLevelColumn: bool,
                       inventory: seq<InventoryRow>)
    returns (summary: seq<SummaryRow>, up: nat, down: nat, stable: nat)
    ensures summary == Summaries(sample, demand, hasLevelColumn, inventory)
    ensures up == Count(TrendsOf(summary), Up)
    ensures down == Count(TrendsOf(summary), Down)
    ensures stable == Count(TrendsOf(summary), Stable)
    ensures up + down + stable == |summary|
  {
    summary, up, down, stable := [], 0, 0, 0;
    var i := 0;
    while i < |sample|
      invariant 0 <= i <= |sample|
      invariant summary == Summaries(sample[..i], demand, hasLevelColumn, inventory)
      invariant up == Count(TrendsOf(summary), Up)
      invariant down == Count(TrendsOf(summary), Down)
      invariant stable == Count(TrendsOf(summary), Stable)
    {
      assert sample[..i + 1][..i] == sample[..i];
      var s := sample[i];
      if s.values != [] {
        var row := Summarise(s, demand, hasLevelColumn, inventory);
        summary, up, down, stable := Tally(summary, row, up, down, stable);
      }
      i := i + 1;
    }
    assert sample[..i] == sample;
    TrendCountsPartition(TrendsOf(summary));
  }

  /** One summary row more: the counter of its trend goes up by one. */
  method Tally(summary: seq<SummaryRow>, row: SummaryRow, up: nat, down: nat, stable: nat)
    returns (summary': seq<SummaryRow>, up': nat, down': nat, stable': nat)
    requires up == Count(TrendsOf(summary), Up)
    requires down == Count(TrendsOf(summary), Down)
    requires stable == Count(TrendsOf(summary), Stable)
    ensures summary' == summary + [row]
    ensures up' == Count(TrendsOf(summary'), Up)
    ensures down' == Count(TrendsOf(summary'), Down)
    ensures stable' == Count(TrendsOf(summary'), Stable)
  {
    assert TrendsOf(summary + [row]) == TrendsOf(summary) + [row.trend];
    CountAppend(TrendsOf(summary), row.trend, Up);
    CountAppend(TrendsOf(summary), row.trend, Down);
    CountAppend(TrendsOf(summary), row.trend, Stable);
    up', down', stable' := up, down, stable;
    match row.trend {
      case Up => up' := up + 1;
      case Down => down' := down + 1;
      case Stable => stable' := stable + 1;
    }
    summary' := summary + [row];
  }

  /** With no empty series in the sample, every sampled product has exactly
      one summary row, at its own position. */
  lemma {:induction false} SummariesComplete(sample: seq<ProductSeries>, demand: seq<DemandRow>,
                                             hasLevelColumn: bool, inventory: seq<InventoryRow>)
    requires forall i :: 0 <= i < |sample| ==> sample[i].values != []
    ensures |Summaries(sample, demand, hasLevelColumn, inventory)| == |sample|
    ensures forall i :: 0 <= i < |sample| ==>
      Summaries(sample, demand, hasLevelColumn, inventory)[i] ==
      Summarise(sample[i], demand, hasLevelColumn, inventory)
    decreases |sample|
  {
    if sample != [] {
      var n := |sample| - 1;
      var prefix := sample[..n];
      assert forall i :: 0 <= i < n ==> prefix[i] == sample[i];
      SummariesComplete(prefix, demand, hasLevelColumn, inventory);
      var rows := Summaries(sample, demand, hasLevelColumn, inventory);
      var before := Summaries(prefix, demand, hasLevelColumn, inventory);
      assert rows == before + [Summarise(sample[n], demand, hasLevelColumn, inventory)];
      forall i | 0 <= i < |sample|
        ensures rows[i] == Summarise(sample[i], demand, hasLevelColumn, inventory)
      {
        if i < n {
          assert rows[i] == before[i];
        }
      }
    }
  }

  /** The analysed sample of the stage: the top `k` products by mean; every
      one of them is summarised, so the tally covers min(k, products)
      products, and the analysed total is the number of distinct products. */
  lemma SampleFullyAnalysed(keys: seq<int>, values: seq<real>, k: nat, demand: seq<DemandRow>,
                            hasLevelColumn: bool, inventory: seq<InventoryRow>)
    requires |keys| == |values|
    ensures var groups := GroupSeries(keys, values);
      var rows := Summaries(TopProducts(groups, k), demand, hasLevelColumn, inventory);
      |rows| == (if |groups| < k then |groups| else k) &&
      forall i :: 0 <= i < |rows| ==> rows[i].trend == DetectTrend(TopProducts(groups, k)[i].values)
  {
    var groups := GroupSeries(keys, values);
    var top := TopProducts(groups, k);
    GroupSeriesProducts(keys, values);
    TopProductsRanked(groups, k);
    forall i | 0 <= i < |top| ensures top[i].values != [] {
      assert top[i] in groups;
    }
    SummariesComplete(top, demand, hasLevelColumn, inventory);
  }
}
