/** The feature stage: daily sales per (product, date), joined onto the
    inventory snapshot, with a stock ratio whose upper outliers are clipped. */
module Features {
  import opened Common
  import opened Ordering

  /** A cleaned sales row; `revenue` is `None` when the cell is null or the
      column is absent. */
  datatype SaleRow = SaleRow(productId: int, date: int, quantity: real, unitPrice: real, revenue: Option<real>)

  /** A cleaned inventory row (only the columns this stage reads). */
  datatype InventoryRow = InventoryRow(productId: int, date: int, stockOnHand: real)

  datatype DailySales = DailySales(productId: int, date: int, dailyQuantitySold: real, dailyRevenue: real)

  datatype InventoryFeature = InventoryFeature(
    productId: int, date: int, stockOnHand: real,
    dailyQuantitySold: real, dailyRevenue: real, stockRatio: real)

  datatype FeatureTables = FeatureTables(daily: seq<DailySales>, inventory: seq<InventoryFeature>)

  datatype FeatureError =
    | MissingInput
    | NegativeSalesFeatures
    | NegativeStockRatio
    | DuplicateDailySales
    | DuplicateInventoryFeatures

  // ---------------------------------------------------------------------
  // Daily sales
  // ---------------------------------------------------------------------

  /** The revenue of a row after filling: the given revenue, else quantity
      times unit price. */
  function RowRevenue(s: SaleRow): real {
    if s.revenue.Some? then s.revenue.value else s.quantity * s.unitPrice
  }

  function Key(s: SaleRow): (int, int) {
    (s.productId, s.date)
  }

  function SaleKeys(sales: seq<SaleRow>): seq<(int, int)> {
    seq(|sales|, i requires 0 <= i < |sales| => Key(sales[i]))
  }

  /** The groups of `groupby(['product_id', 'date'])`, in ascending order. */
  function DailyKeys(sales: seq<SaleRow>): seq<(int, int)> {
    SortedSet(SaleKeys(sales), PairLt)
  }

  /** Summed quantity of the rows with key `k`. */
  function QuantitySum(sales: seq<SaleRow>, k: (int, int)): (r: real)
    ensures (forall i :: 0 <= i < |sales| ==> sales[i].quantity >= 0.0) ==> r >= 0.0
  {
    if sales == [] then 0.0
    else
      var last := sales[|sales| - 1];
      QuantitySum(sales[..|sales| - 1], k) + (if Key(last) == k then last.quantity else 0.0)
  }

  /** Summed filled revenue of the rows with key `k`. */
  function RevenueSum(sales: seq<SaleRow>, k: (int, int)): (r: real)
    ensures (forall i :: 0 <= i < |sales| ==> RowRevenue(sales[i]) >= 0.0) ==> r >= 0.0
  {
    if sales == [] then 0.0
    else
      var last := sales[|sales| - 1];
      RevenueSum(sales[..|sales| - 1], k) + (if Key(last) == k then RowRevenue(last) else 0.0)
  }

  /** `daily_sales`: one row per group with the summed quantity and revenue. */
  function DailySalesOf(sales: seq<SaleRow>): seq<DailySales> {
    var keys := DailyKeys(sales);
    seq(|keys|, i requires 0 <= i < |keys| =>
      DailySales(keys[i].0, keys[i].1, QuantitySum(sales, keys[i]), RevenueSum(sales, keys[i])))
  }

  function DailyKeysOf(daily: seq<DailySales>): seq<(int, int)> {
    seq(|daily|, i requires 0 <= i < |daily| => (daily[i].productId, daily[i].date))
  }

  /** Every sold (product, date) has exactly one daily row, in ascending key
      order, carrying the sums of that group. */
  lemma DailySalesRows(sales: seq<SaleRow>)
    ensures var daily := DailySalesOf(sales);
      && StrictlySorted(DailyKeysOf(daily), PairLt)
      && (forall k :: k in DailyKeysOf(daily) <==> exists i :: 0 <= i < |sales| && Key(sales[i]) == k)
      && (forall q :: 0 <= q < |daily| ==>
            && daily[q].dailyQuantitySold == QuantitySum(sales, (daily[q].productId, daily[q].date))
            && daily[q].dailyRevenue == RevenueSum(sales, (daily[q].productId, daily[q].date)))
  {
    var daily := DailySalesOf(sales);
    var keys := DailyKeys(sales);
    PairLtStrictTotal();
    SortedSetSorted(SaleKeys(sales), PairLt);
    assert DailyKeysOf(daily) == keys;
    forall k ensures k in keys <==> exists i :: 0 <= i < |sales| && Key(sales[i]) == k {
      if exists i :: 0 <= i < |sales| && Key(sales[i]) == k {
        var i :| 0 <= i < |sales| && Key(sales[i]) == k;
        assert SaleKeys(sales)[i] == k;
      }
    }
  }

  /** pandas `duplicated(subset=[...]).any()` on the key columns. */
  predicate HasDuplicate(keys: seq<(int, int)>) {
    exists i, j :: 0 <= j < i < |keys| && keys[i] == keys[j]
  }

  /** The aggregation never repeats a key, so its duplicate check never
      fires. */
  lemma DailySalesUnique(sales: seq<SaleRow>)
    ensures !HasDuplicate(DailyKeysOf(DailySalesOf(sales)))
  {
    var keys := DailyKeysOf(DailySalesOf(sales));
    DailySalesRows(sales);
    PairLtStrictTotal();
    forall i, j | 0 <= j < i < |keys| ensures keys[i] != keys[j] {
      StrictlySortedDistinct(keys, PairLt, i, j);
    }
  }

  // ---------------------------------------------------------------------
  // Join with inventory
  // ---------------------------------------------------------------------

  /** The daily row of a key, if any (the first; there is at most one). */
  function Lookup(daily: seq<DailySales>, k: (int, int)): (r: Option<DailySales>)
    ensures r.None? <==> k !in DailyKeysOf(daily)
    ensures r.Some? ==> r.value in daily && (r.value.productId, r.value.date) == k
  {
    if daily == [] then None
    else if (daily[0].productId, daily[0].date) == k then
      assert DailyKeysOf(daily)[0] == k;
      Some(daily[0])
    else
      assert forall i :: 1 <= i < |daily| ==> DailyKeysOf(daily)[i] == DailyKeysOf(daily[1..])[i - 1];
      assert DailyKeysOf(daily)[0] != k;
      var r := Lookup(daily[1..], k);
      if r.None? then
        assert k !in DailyKeysOf(daily[1..]);
        None
      else
        var t :| 0 <= t < |daily| - 1 && DailyKeysOf(daily[1..])[t] == k;
        assert DailyKeysOf(daily)[t + 1] == k;
        r
  }

  /** One row of the left merge, with missing sales filled as 0 and the
      stock ratio computed against `max(daily_quantity_sold, 1)`. */
  function FeatureRow(r: InventoryRow, m: Option<DailySales>): InventoryFeature {
    var q := if m.Some? then m.value.dailyQuantitySold else 0.0;
    var v := if m.Some? then m.value.dailyRevenue else 0.0;
    InventoryFeature(r.productId, r.date, r.stockOnHand, q, v, r.stockOnHand / Max(q, 1.0))
  }

  /** `inventory_df.merge(daily_sales, on=[product_id, date], how='left')`. */
  function Joined(inv: seq<InventoryRow>, daily: seq<DailySales>): seq<InventoryFeature> {
    seq(|inv|, i requires 0 <= i < |inv| => FeatureRow(inv[i], Lookup(daily, (inv[i].productId, inv[i].date))))
  }

  /** The merged table keeps the inventory rows in order, and each stock
      ratio times its denominator, which is at least 1, is the stock. */
  lemma JoinedShape(inv: seq<InventoryRow>, daily: seq<DailySales>)
    ensures var j := Joined(inv, daily);
      && |j| == |inv|
      && forall i :: 0 <= i < |j| ==>
        && j[i].productId == inv[i].productId && j[i].date == inv[i].date
        && j[i].stockOnHand == inv[i].stockOnHand
        && Max(j[i].dailyQuantitySold, 1.0) >= 1.0
        && j[i].stockRatio * Max(j[i].dailyQuantitySold, 1.0) == j[i].stockOnHand
  {
  }

  /** A merged row with no sales that day gets 0 for both sums, otherwise
      the sums of its group. */
  lemma JoinedSums(sales: seq<SaleRow>, inv: seq<InventoryRow>, i: int)
    requires 0 <= i < |inv|
    ensures var r := Joined(inv, DailySalesOf(sales))[i];
      var k := (inv[i].productId, inv[i].date);
      && ((exists s :: 0 <= s < |sales| && Key(sales[s]) == k) ==>
            r.dailyQuantitySold == QuantitySum(sales, k) && r.dailyRevenue == RevenueSum(sales, k))
      && ((forall s :: 0 <= s < |sales| ==> Key(sales[s]) != k) ==>
            r.dailyQuantitySold == 0.0 && r.dailyRevenue == 0.0)
  {
    var daily := DailySalesOf(sales);
    DailySalesRows(sales);
    var k := (inv[i].productId, inv[i].date);
    var m := Lookup(daily, k);
    if m.Some? {
      var q :| 0 <= q < |daily| && daily[q] == m.value;
      assert DailyKeysOf(daily)[q] == k;
    }
  }

  // ---------------------------------------------------------------------
  // Outlier clipping
  // ---------------------------------------------------------------------

  /** `Q3 + 1.5 * IQR`; the quartiles themselves are inputs. */
  function UpperLimit(q1: real, q3: real): real {
    q3 + 1.5 * (q3 - q1)
  }

  function ClipValue(x: real, upper: real): real {
    if x > upper then upper else x
  }

  predicate HasOutlier(rows: seq<InventoryFeature>, upper: real) {
    exists i :: 0 <= i < |rows| && rows[i].stockRatio > upper
  }

  function WithRatios(rows: seq<InventoryFeature>, ratios: seq<real>): (r: seq<InventoryFeature>)
    requires |ratios| == |rows|
    ensures |r| == |rows|
    ensures forall i :: 0 <= i < |r| ==> r[i] == rows[i].(stockRatio := ratios[i])
  {
    seq(|rows|, i requires 0 <= i < |rows| => rows[i].(stockRatio := ratios[i]))
  }

  function Ratios(rows: seq<InventoryFeature>): (r: seq<real>)
    ensures |r| == |rows|
    ensures forall i :: 0 <= i < |r| ==> r[i] == rows[i].stockRatio
  {
    seq(|rows|, i requires 0 <= i < |rows| => rows[i].stockRatio)
  }

  /** The stock ratio column after the conditional `clip(upper=...)`. */
  function Clipped(rows: seq<InventoryFeature>, upper: real): seq<InventoryFeature> {
    if HasOutlier(rows, upper) then
      WithRatios(rows, seq(|rows|, i requires 0 <= i < |rows| => ClipValue(rows[i].stockRatio, upper)))
    else rows
  }

  /** After clipping no ratio exceeds the limit, a ratio at or below it is
      unchanged, one above it becomes the limit, and nothing else changes. */
  lemma ClippedRows(rows: seq<InventoryFeature>, upper: real)
    ensures var c := Clipped(rows, upper);
      && |c| == |rows|
      && forall i :: 0 <= i < |c| ==>
        && c[i].stockRatio <= upper
        && (rows[i].stockRatio <= upper ==> c[i] == rows[i])
        && (rows[i].stockRatio > upper ==> c[i] == rows[i].(stockRatio := upper))
  {
  }

  // ---------------------------------------------------------------------
  // The stage
  // ---------------------------------------------------------------------

  predicate NegativeDaily(daily: seq<DailySales>) {
    exists i :: 0 <= i < |daily| && (daily[i].dailyQuantitySold < 0.0 || daily[i].dailyRevenue < 0.0)
  }

  predicate NegativeRatio(rows: seq<InventoryFeature>) {
    exists i :: 0 <= i < |rows| && rows[i].stockRatio < 0.0
  }

  function FeatureKeysOf(rows: seq<InventoryFeature>): seq<(int, int)> {
    seq(|rows|, i requires 0 <= i < |rows| => (rows[i].productId, rows[i].date))
  }

  function InventoryKeys(inv: seq<InventoryRow>): seq<(int, int)> {
    seq(|inv|, i requires 0 <= i < |inv| => (inv[i].productId, inv[i].date))
  }

  /** run_features as a value: the missing-input check, the two tables, and
      the four validations in order. */
  function Features(sales: Option<seq<SaleRow>>, inventory: Option<seq<InventoryRow>>, q1: real, q3: real)
    : Result<FeatureTables, FeatureError>
  {
    if sales.None? || inventory.None? then Err(MissingInput)
    else
      var daily := DailySalesOf(sales.value);
      var rows := Clipped(Joined(inventory.value, daily), UpperLimit(q1, q3));
      if NegativeDaily(daily) then Err(NegativeSalesFeatures)
      else if NegativeRatio(rows) then Err(NegativeStockRatio)
      else if HasDuplicate(DailyKeysOf(daily)) then Err(DuplicateDailySales)
      else if HasDuplicate(FeatureKeysOf(rows)) then Err(DuplicateInventoryFeatures)
      else Ok(FeatureTables(daily, rows))
  }

  /** The stage fails on a missing input, never on a duplicate daily row, and
      on a duplicate inventory row exactly when the inventory snapshot repeats
      a (product, date) and no earlier check failed. */
  lemma FeaturesErrors(sales: Option<seq<SaleRow>>, inventory: Option<seq<InventoryRow>>, q1: real, q3: real)
    ensures var r := Features(sales, inventory, q1, q3);
      && (r == Err(MissingInput) <==> sales.None? || inventory.None?)
      && r != Err(DuplicateDailySales)
      && (sales.Some? && inventory.Some? && r.Err? && r.error != NegativeSalesFeatures
          && r.error != NegativeStockRatio ==>
            r.error == DuplicateInventoryFeatures && HasDuplicate(InventoryKeys(inventory.value)))
      && (r.Ok? ==> !HasDuplicate(InventoryKeys(inventory.value)))
  {
    if sales.Some? && inventory.Some? {
      var daily := DailySalesOf(sales.value);
      var j := Joined(inventory.value, daily);
      var rows := Clipped(j, UpperLimit(q1, q3));
      DailySalesUnique(sales.value);
      ClippedRows(j, UpperLimit(q1, q3));
      assert FeatureKeysOf(rows) == InventoryKeys(inventory.value);
    }
  }

  /** Non-negative quantities and filled revenues give non-negative sums. */
  lemma DailyNonNegative(sales: seq<SaleRow>)
    requires forall i :: 0 <= i < |sales| ==> sales[i].quantity >= 0.0 && RowRevenue(sales[i]) >= 0.0
    ensures !NegativeDaily(DailySalesOf(sales))
  {
    var daily := DailySalesOf(sales);
    forall i | 0 <= i < |daily|
      ensures daily[i].dailyQuantitySold >= 0.0 && daily[i].dailyRevenue >= 0.0
    {
    }
  }

  /** Non-negative stock and a non-negative limit give non-negative ratios
      after clipping. */
  lemma RatiosNonNegative(inv: seq<InventoryRow>, daily: seq<DailySales>, upper: real)
    requires forall i :: 0 <= i < |inv| ==> inv[i].stockOnHand >= 0.0
    requires upper >= 0.0
    ensures !NegativeRatio(Clipped(Joined(inv, daily), upper))
  {
    var j := Joined(inv, daily);
    JoinedShape(inv, daily);
    ClippedRows(j, upper);
    forall i | 0 <= i < |j| ensures j[i].stockRatio >= 0.0 {
      RatioNonNegative(j[i].stockOnHand, Max(j[i].dailyQuantitySold, 1.0), j[i].stockRatio);
    }
  }

  /** With non-negative quantities, filled revenues and stock, and ordered
      quartiles of a non-negative column, only a repeated inventory key can
      make the stage fail. */
  lemma NonNegativeInputsPass(sales: seq<SaleRow>, inventory: seq<InventoryRow>, q1: real, q3: real)
    requires forall i :: 0 <= i < |sales| ==> sales[i].quantity >= 0.0 && RowRevenue(sales[i]) >= 0.0
    requires forall i :: 0 <= i < |inventory| ==> inventory[i].stockOnHand >= 0.0
    requires 0.0 <= q1 <= q3
    ensures var r := Features(Some(sales), Some(inventory), q1, q3);
      r.Ok? <==> !HasDuplicate(InventoryKeys(inventory))
  {
    DailyNonNegative(sales);
    RatiosNonNegative(inventory, DailySalesOf(sales), UpperLimit(q1, q3));
    FeaturesErrors(Some(sales), Some(inventory), q1, q3);
  }

  lemma RatioNonNegative(stock: real, d: real, ratio: real)
    requires stock >= 0.0 && d >= 1.0 && ratio * d == stock
    ensures ratio >= 0.0
  {
    assert ratio == stock / d;
  }

  /** Whether some value exceeds the limit, by a scan. */
  method AnyAbove(a: array<real>, upper: real) returns (found: bool)
    ensures found <==> exists i :: 0 <= i < a.Length && a[i] > upper
  {
    found := false;
    var i := 0;
    while i < a.Length
      invariant 0 <= i <= a.Length
      invariant found <==> exists k :: 0 <= k < i && a[k] > upper
    {
      if a[i] > upper {
        found := true;
      }
      i := i + 1;
    }
  }

  /** `Series.clip(upper=...)` in place. */
  method ClipUpper(a: array<real>, upper: real)
    modifies a
    ensures forall i :: 0 <= i < a.Length ==> a[i] == ClipValue(old(a[i]), upper)
  {
    var i := 0;
    while i < a.Length
      invariant 0 <= i <= a.Length
      invariant forall k :: 0 <= k < i ==> a[k] == ClipValue(old(a[k]), upper)
      invariant forall k :: i <= k < a.Length ==> a[k] == old(a[k])
    {
      a[i] := ClipValue(a[i], upper);
      i := i + 1;
    }
  }

  /** run_features: aggregate, merge, compute the stock ratio column, clip it
      in place when some value is above the limit, then validate. */
  method RunFeatures(sales: Option<seq<SaleRow>>, inventory: Option<seq<InventoryRow>>, q1: real, q3: real)
    returns (r: Result<FeatureTables, FeatureError>)
    ensures r == Features(sales, inventory, q1, q3)
  {
    if sales.None? || inventory.None? {
      return Err(MissingInput);
    }
    var daily := DailySalesOf(sales.value);
    var joined := Joined(inventory.value, daily);
    var ratio := new real[|joined|](i requires 0 <= i < |joined| => joined[i].stockRatio);
    var upper := UpperLimit(q1, q3);
    var outliers := AnyAbove(ratio, upper);
    if outliers {
      assert HasOutlier(joined, upper) by {
        var i :| 0 <= i < ratio.Length && ratio[i] > upper;
        assert joined[i].stockRatio > upper;
      }
      ClipUpper(ratio, upper);
    } else {
      forall i | 0 <= i < |joined| ensures joined[i].stockRatio <= upper {
        assert ratio[i] == joined[i].stockRatio;
      }
    }
    var rows := WithRatios(joined, ratio[..]);
    assert rows == Clipped(joined, upper);
    if NegativeDaily(daily) {
      return Err(NegativeSalesFeatures);
    }
    if NegativeRatio(rows) {
      return Err(NegativeStockRatio);
    }
    if HasDuplicate(DailyKeysOf(daily)) {
      return Err(DuplicateDailySales);
    }
    if HasDuplicate(FeatureKeysOf(rows)) {
      return Err(DuplicateInventoryFeatures);
    }
    r := Ok(FeatureTables(daily, rows));
  }
}
