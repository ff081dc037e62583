/** The cleaning stage: reject missing inputs and critical nulls, fill
    missing revenue, drop duplicate rows, reject a product whose dates jump
    by more than 30 days, and reject sold products unknown to inventory. */
module Cleaning {
  import opened Common
  import opened Ordering

  /** A sales row as ingested; a null cell is `None`. */
  datatype RawSale = RawSale(
    saleId: Option<int>, productId: Option<int>, date: Option<int>,
    quantity: Option<real>, unitPrice: Option<real>, revenue: Option<real>)

  /** An inventory row as ingested; a null cell is `None`. */
  datatype RawStock = RawStock(
    productId: Option<int>, date: Option<int>, stockOnHand: Option<real>,
    reorderPoint: Option<real>, leadTimeDays: Option<real>, unitCost: Option<real>)

  datatype Sale = Sale(saleId: int, productId: int, date: int, quantity: real, unitPrice: real, revenue: Option<real>)

  datatype Stock = Stock(
    productId: int, date: int, stockOnHand: real, reorderPoint: real, leadTimeDays: real, unitCost: real)

  datatype Source = SalesData | InventoryData

  datatype CleaningError =
    | MissingInput
    | NullSales
    | NullInventory
    | GapTooLong(productId: int, source: Source)
    | MissingInInventory(products: set<int>)

  datatype Cleaned = Cleaned(sales: seq<Sale>, inventory: seq<Stock>)

  /** The largest allowed distance, in days, between consecutive dates of a
      product. */
  const MaxGapDays := 30

  // ---------------------------------------------------------------------
  // Critical nulls
  // ---------------------------------------------------------------------

  /** No null in sale_id, product_id, date, quantity, unit_price. */
  predicate SaleComplete(r: RawSale) {
    r.saleId.Some? && r.productId.Some? && r.date.Some? && r.quantity.Some? && r.unitPrice.Some?
  }

  /** No null in product_id, date, stock_on_hand, reorder_point,
      lead_time_days, unit_cost. */
  predicate StockComplete(r: RawStock) {
    && r.productId.Some? && r.date.Some? && r.stockOnHand.Some?
    && r.reorderPoint.Some? && r.leadTimeDays.Some? && r.unitCost.Some?
  }

  function ToSale(r: RawSale): Sale
    requires SaleComplete(r)
  {
    Sale(r.saleId.value, r.productId.value, r.date.value, r.quantity.value, r.unitPrice.value, r.revenue)
  }

  function ToStock(r: RawStock): Stock
    requires StockComplete(r)
  {
    Stock(r.productId.value, r.date.value, r.stockOnHand.value, r.reorderPoint.value,
          r.leadTimeDays.value, r.unitCost.value)
  }

  function ToSales(rows: seq<RawSale>): seq<Sale>
    requires forall i :: 0 <= i < |rows| ==> SaleComplete(rows[i])
  {
    seq(|rows|, i requires 0 <= i < |rows| => ToSale(rows[i]))
  }

  function ToStocks(rows: seq<RawStock>): seq<Stock>
    requires forall i :: 0 <= i < |rows| ==> StockComplete(rows[i])
  {
    seq(|rows|, i requires 0 <= i < |rows| => ToStock(rows[i]))
  }

  // ---------------------------------------------------------------------
  // Revenue fill
  // ---------------------------------------------------------------------

  /** quantity * unit_price. */
  function LineRevenue(s: Sale): real {
    s.quantity * s.unitPrice
  }

  /** `revenue.fillna(quantity * unit_price)` on one row, when the revenue
      column exists. */
  function FilledRevenue(s: Sale, revenueColumn: bool): Sale {
    if revenueColumn && s.revenue.None? then s.(revenue := Some(LineRevenue(s))) else s
  }

  function FilledAll(rows: seq<Sale>, revenueColumn: bool): (r: seq<Sale>)
    ensures |r| == |rows|
    ensures forall i :: 0 <= i < |r| ==> r[i] == FilledRevenue(rows[i], revenueColumn)
  {
    seq(|rows|, i requires 0 <= i < |rows| => FilledRevenue(rows[i], revenueColumn))
  }

  /** The fill changes only the revenue of rows that lack one, and only when
      the column exists; afterwards every row of a table with the column has
      a revenue. */
  lemma {:induction false} FilledRows(rows: seq<Sale>, revenueColumn: bool)
    ensures var r := FilledAll(rows, revenueColumn);
      forall i :: 0 <= i < |r| ==>
        && r[i].(revenue := rows[i].revenue) == rows[i]
        && (rows[i].revenue.Some? ==> r[i] == rows[i])
        && (!revenueColumn ==> r[i] == rows[i])
        && (revenueColumn && rows[i].revenue.None? ==>
              r[i].revenue == Some(rows[i].quantity * rows[i].unitPrice))
        && (revenueColumn ==> r[i].revenue.Some?)
  {
    var r := FilledAll(rows, revenueColumn);
    forall i | 0 <= i < |r|
      ensures r[i].(revenue := rows[i].revenue) == rows[i]
      ensures rows[i].revenue.Some? ==> r[i] == rows[i]
      ensures !revenueColumn ==> r[i] == rows[i]
      ensures revenueColumn && rows[i].revenue.None? ==> r[i].revenue == Some(rows[i].quantity * rows[i].unitPrice)
      ensures revenueColumn ==> r[i].revenue.Some?
    {
      assert r[i] == FilledRevenue(rows[i], revenueColumn);
    }
  }

  /** The fill, in place. */
  method FillRevenue(a: array<Sale>, revenueColumn: bool)
    modifies a
    ensures a[..] == FilledAll(old(a[..]), revenueColumn)
  {
    var i := 0;
    while i < a.Length
      invariant 0 <= i <= a.Length
      invariant forall k :: 0 <= k < i ==> a[k] == FilledRevenue(old(a[k]), revenueColumn)
      invariant forall k :: i <= k < a.Length ==> a[k] == old(a[k])
    {
      var row := a[i];
      if revenueColumn && row.revenue.None? {
        a[i] := row.(revenue := Some(LineRevenue(row)));
      }
      i := i + 1;
    }
  }

  // ---------------------------------------------------------------------
  // Duplicates
  // ---------------------------------------------------------------------

  /** Some row of `rows` has key `k`. */
  predicate Seen<T, K(==)>(rows: seq<T>, key: T -> K, k: K) {
    exists j :: 0 <= j < |rows| && key(rows[j]) == k
  }

  /** `drop_duplicates(subset=key)`: of the rows sharing a key, the first
      is kept, and the kept rows stay in their order. */
  function KeepFirst<T, K(==)>(rows: seq<T>, key: T -> K): seq<T> {
    if rows == [] then []
    else
      var pre := rows[..|rows| - 1];
      var last := rows[|rows| - 1];
      KeepFirst(pre, key) + (if Seen(pre, key, key(last)) then [] else [last])
  }

  /** True when `rows[i]` is the first row with its key. */
  predicate FirstOfKey<T, K(==)>(rows: seq<T>, key: T -> K, i: int)
    requires 0 <= i < |rows|
  {
    forall j :: 0 <= j < i ==> key(rows[j]) != key(rows[i])
  }

  /** `x` is the first row of `rows` with its key. */
  ghost predicate IsFirstRow<T, K>(rows: seq<T>, key: T -> K, x: T) {
    exists i :: 0 <= i < |rows| && rows[i] == x && FirstOfKey(rows, key, i)
  }

  /** Dropping duplicates never adds rows. */
  lemma {:induction false} KeepFirstShorter<T, K>(rows: seq<T>, key: T -> K)
    ensures |KeepFirst(rows, key)| <= |rows|
    decreases |rows|
  {
    if rows != [] {
      KeepFirstShorter(rows[..|rows| - 1], key);
    }
  }

  /** Dropping duplicates loses no key and invents none. */
  lemma {:induction false} KeepFirstSameKeys<T, K>(rows: seq<T>, key: T -> K, k: K)
    ensures Seen(KeepFirst(rows, key), key, k) <==> Seen(rows, key, k)
    decreases |rows|
  {
    if rows != [] {
      var pre := rows[..|rows| - 1];
      var last := rows[|rows| - 1];
      KeepFirstSameKeys(pre, key, k);
      var rp := KeepFirst(pre, key);
      var r := KeepFirst(rows, key);
      assert r == rp + (if Seen(pre, key, key(last)) then [] else [last]);
      if Seen(r, key, k) {
        var q :| 0 <= q < |r| && key(r[q]) == k;
        if q < |rp| {
          assert r[q] == rp[q];
          var j :| 0 <= j < |pre| && key(pre[j]) == k;
          assert rows[j] == pre[j];
        } else {
          assert key(rows[|rows| - 1]) == k;
        }
      }
      if Seen(rows, key, k) {
        var i :| 0 <= i < |rows| && key(rows[i]) == k;
        if i < |pre| {
          assert key(pre[i]) == k;
          var q :| 0 <= q < |rp| && key(rp[q]) == k;
          assert r[q] == rp[q];
        } else if Seen(pre, key, k) {
          var q :| 0 <= q < |rp| && key(rp[q]) == k;
          assert r[q] == rp[q];
        } else {
          assert r[|rp|] == last;
        }
      }
    }
  }

  /** After dropping duplicates no key repeats. */
  lemma {:induction false} KeepFirstUnique<T, K>(rows: seq<T>, key: T -> K)
    ensures forall p, q :: 0 <= p < q < |KeepFirst(rows, key)| ==>
      key(KeepFirst(rows, key)[p]) != key(KeepFirst(rows, key)[q])
    decreases |rows|
  {
    if rows != [] {
      var pre := rows[..|rows| - 1];
      var last := rows[|rows| - 1];
      KeepFirstUnique(pre, key);
      var rp := KeepFirst(pre, key);
      var r := KeepFirst(rows, key);
      if !Seen(pre, key, key(last)) {
        assert r == rp + [last];
        KeepFirstSameKeys(pre, key, key(last));
        forall p, q | 0 <= p < q < |r| ensures key(r[p]) != key(r[q]) {
          if q == |rp| {
            assert r[p] == rp[p];
          } else {
            assert r[p] == rp[p] && r[q] == rp[q];
          }
        }
      }
    }
  }

  /** Each kept row is the first input row with its key. */
  lemma {:induction false} KeepFirstKeepsFirst<T, K>(rows: seq<T>, key: T -> K)
    ensures forall q :: 0 <= q < |KeepFirst(rows, key)| ==> IsFirstRow(rows, key, KeepFirst(rows, key)[q])
    decreases |rows|
  {
    if rows != [] {
      var pre := rows[..|rows| - 1];
      var last := rows[|rows| - 1];
      KeepFirstKeepsFirst(pre, key);
      var rp := KeepFirst(pre, key);
      var r := KeepFirst(rows, key);
      assert r == rp + (if Seen(pre, key, key(last)) then [] else [last]);
      forall q | 0 <= q < |r| ensures IsFirstRow(rows, key, r[q]) {
        if q < |rp| {
          var i :| 0 <= i < |pre| && pre[i] == rp[q] && FirstOfKey(pre, key, i);
          assert r[q] == rows[i];
          assert FirstOfKey(rows, key, i) by {
            forall j | 0 <= j < i ensures key(rows[j]) != key(rows[i]) {
              assert rows[j] == pre[j];
            }
          }
        } else {
          assert r[q] == rows[|rows| - 1];
          assert FirstOfKey(rows, key, |rows| - 1) by {
            forall j | 0 <= j < |rows| - 1 ensures key(rows[j]) != key(last) {
              assert rows[j] == pre[j];
            }
          }
        }
      }
    }
  }

  function SaleKey(s: Sale): int {
    s.saleId
  }

  function StockKey(s: Stock): (int, int) {
    (s.productId, s.date)
  }

  // ---------------------------------------------------------------------
  // Time series validation
  // ---------------------------------------------------------------------

  function SalePairs(rows: seq<Sale>): seq<(int, int)> {
    seq(|rows|, i requires 0 <= i < |rows| => (rows[i].productId, rows[i].date))
  }

  function StockPairs(rows: seq<Stock>): seq<(int, int)> {
    seq(|rows|, i requires 0 <= i < |rows| => (rows[i].productId, rows[i].date))
  }

  /** The dates of product `p`, in row order. */
  function DatesOf(pairs: seq<(int, int)>, p: int): seq<int> {
    if pairs == [] then []
    else
      var pre := pairs[..|pairs| - 1];
      var last := pairs[|pairs| - 1];
      DatesOf(pre, p) + (if last.0 == p then [last.1] else [])
  }

  /** The dates of `p` are exactly those paired with `p`. */
  lemma {:induction false} DatesOfMembers(pairs: seq<(int, int)>, p: int, d: int)
    ensures d in DatesOf(pairs, p) <==> (p, d) in pairs
    decreases |pairs|
  {
    if pairs != [] {
      var pre := pairs[..|pairs| - 1];
      DatesOfMembers(pre, p, d);
      assert (p, d) in pairs <==> (p, d) in pre || (p, d) == pairs[|pairs| - 1];
    }
  }

  /** `group.sort_values('date')` on one product's dates. */
  function SortedDates(ds: seq<int>): seq<int> {
    SortBy(ds, IntLe)
  }

  /** Some consecutive pair of dates is more than `MaxGapDays` apart
      (`diff().dt.days[1:] > 30`). */
  predicate GapIn(s: seq<int>) {
    exists i :: 1 <= i < |s| && s[i] - s[i - 1] > MaxGapDays
  }

  /** The product ids of the groups, ascending. */
  function GroupIds(pairs: seq<(int, int)>): seq<int> {
    SortedSet(seq(|pairs|, i requires 0 <= i < |pairs| => pairs[i].0), IntLt)
  }

  predicate ProductHasGap(pairs: seq<(int, int)>, p: int) {
    GapIn(SortedDates(DatesOf(pairs, p)))
  }

  /** The first of `pids` on which `has` holds. */
  function FirstWhere(pids: seq<int>, has: int -> bool): (r: Option<int>)
    ensures r.None? <==> forall i :: 0 <= i < |pids| ==> !has(pids[i])
    ensures r.Some? ==> exists i :: (0 <= i < |pids| && pids[i] == r.value && has(pids[i])
      && forall j :: 0 <= j < i ==> !has(pids[j]))
  {
    if pids == [] then None
    else if has(pids[0]) then Some(pids[0])
    else
      var r := FirstWhere(pids[1..], has);
      assert forall i :: 1 <= i < |pids| ==> pids[i] == pids[1..][i - 1];
      if r.Some? then
        var i :| 0 <= i < |pids[1..]| && pids[1..][i] == r.value && has(pids[1..][i])
          && forall j :: 0 <= j < i ==> !has(pids[1..][j]);
        assert pids[i + 1] == r.value;
        r
      else r
  }

  function GapTest(pairs: seq<(int, int)>): int -> bool {
    p => ProductHasGap(pairs, p)
  }

  /** The first product, in ascending id order, with a gap. */
  function FirstGap(pairs: seq<(int, int)>): Option<int> {
    FirstWhere(GroupIds(pairs), GapTest(pairs))
  }

  /** Every product of `pairs` is a group, and the groups are ascending. */
  lemma {:induction false} GroupIdsFacts(pairs: seq<(int, int)>)
    ensures forall i :: 0 <= i < |pairs| ==> pairs[i].0 in GroupIds(pairs)
    ensures forall x :: x in GroupIds(pairs) ==> exists i :: 0 <= i < |pairs| && pairs[i].0 == x
    ensures forall i, j :: 0 <= i < |GroupIds(pairs)| && 0 <= j < |GroupIds(pairs)| ==>
      (GroupIds(pairs)[i] < GroupIds(pairs)[j] <==> i < j)
  {
    var firsts := seq(|pairs|, i requires 0 <= i < |pairs| => pairs[i].0);
    var pids := GroupIds(pairs);
    IntLtStrictTotal();
    SortedSetSorted(firsts, IntLt);
    forall i | 0 <= i < |pairs| ensures pairs[i].0 in pids {
      assert firsts[i] == pairs[i].0;
      assert firsts[i] in firsts;
    }
    forall x | x in pids ensures exists i :: 0 <= i < |pairs| && pairs[i].0 == x {
      assert x in firsts;
      var i :| 0 <= i < |firsts| && firsts[i] == x;
    }
    assert forall i, j :: 0 <= i < j < |pids| ==> pids[i] < pids[j];
  }

  /** The search over the groups finds nothing exactly when no product of
      `pairs` passes the test. */
  lemma {:induction false} FirstInGroupsNone(pairs: seq<(int, int)>, has: int -> bool)
    ensures FirstWhere(GroupIds(pairs), has).None? <==> forall i :: 0 <= i < |pairs| ==> !has(pairs[i].0)
  {
    GroupIdsFacts(pairs);
    var pids := GroupIds(pairs);
    if FirstWhere(pids, has).Some? {
      var k :| 0 <= k < |pids| && has(pids[k]);
      assert pids[k] in pids;
      var i :| 0 <= i < |pairs| && pairs[i].0 == pids[k];
      assert has(pairs[i].0);
    } else {
      forall i | 0 <= i < |pairs| ensures !has(pairs[i].0) {
        var k :| 0 <= k < |pids| && pids[k] == pairs[i].0;
      }
    }
  }

  /** No product of `pairs` has a gap. */
  predicate GapFree(pairs: seq<(int, int)>) {
    forall i :: 0 <= i < |pairs| ==> !ProductHasGap(pairs, pairs[i].0)
  }

  /** No gap is reported exactly when no product has one. */
  lemma {:induction false} NoGapMeaning(pairs: seq<(int, int)>)
    ensures FirstGap(pairs).None? <==> GapFree(pairs)
  {
    FirstInGroupsNone(pairs, GapTest(pairs));
  }

  /** A reported product occurs in `pairs`, has a gap, and is the smallest
      such id. */
  lemma {:induction false} FirstGapIsSmallest(pairs: seq<(int, int)>)
    requires FirstGap(pairs).Some?
    ensures var p := FirstGap(pairs).value;
      && (exists i :: 0 <= i < |pairs| && pairs[i].0 == p)
      && ProductHasGap(pairs, p)
      && forall i :: 0 <= i < |pairs| && pairs[i].0 < p ==> !ProductHasGap(pairs, pairs[i].0)
  {
    GroupIdsFacts(pairs);
    var pids := GroupIds(pairs);
    var p := FirstGap(pairs).value;
    var k :| 0 <= k < |pids| && pids[k] == p && GapTest(pairs)(pids[k])
      && forall j :: 0 <= j < k ==> !GapTest(pairs)(pids[j]);
    assert p in pids;
    forall i | 0 <= i < |pairs| && pairs[i].0 < p ensures !ProductHasGap(pairs, pairs[i].0) {
      var j :| 0 <= j < |pids| && pids[j] == pairs[i].0;
      assert j < k;
      assert !GapTest(pairs)(pids[j]);
    }
  }

  /** After sorting, a product's dates are non-decreasing, so the
      `is_monotonic_increasing` check never fails. */
  lemma {:induction false} SortedDatesMonotonic(ds: seq<int>)
    ensures var s := SortedDates(ds);
      && multiset(s) == multiset(ds)
      && forall i :: 1 <= i < |s| ==> s[i - 1] <= s[i]
  {
    IntLeTotalPreorder();
    SortBySorted(ds, IntLe);
  }

  /** Two dates with no date strictly between them and more than the limit
      apart make the sorted sequence jump. */
  lemma {:induction false} GapBetween(s: seq<int>, x: int, y: int)
    requires SortedBy(s, IntLe)
    requires 0 <= x < y < |s| && s[y] - s[x] > MaxGapDays
    requires forall c :: c in s ==> !(s[x] < c < s[y])
    ensures GapIn(s)
    decreases y - x
  {
    assert IntLe(s[x], s[x + 1]);
    if s[x + 1] == s[x] {
      GapBetween(s, x + 1, y);
    } else {
      assert s[x + 1] in s;
      assert s[x + 1] - s[x] > MaxGapDays;
    }
  }

  /** Two consecutive sorted dates have no date strictly between them. */
  lemma NoDateBetween(s: seq<int>, i: int)
    requires SortedBy(s, IntLe) && 1 <= i < |s|
    ensures forall c :: c in s ==> !(s[i - 1] < c < s[i])
  {
    forall c | c in s ensures !(s[i - 1] < c < s[i]) {
      var k :| 0 <= k < |s| && s[k] == c;
      if k < i {
        assert IntLe(s[k], s[i - 1]) || k == i - 1;
      } else {
        assert IntLe(s[i], s[k]) || k == i;
      }
    }
  }

  /** Two dates more than the limit apart with no date between them make the
      sorted sequence jump. */
  lemma GapFromDates(s: seq<int>, a: int, b: int)
    requires SortedBy(s, IntLe)
    requires a in s && b in s && b - a > MaxGapDays && forall c :: c in s ==> !(a < c < b)
    ensures GapIn(s)
  {
    var x :| 0 <= x < |s| && s[x] == a;
    var y :| 0 <= y < |s| && s[y] == b;
    assert x < y;
    GapBetween(s, x, y);
  }

  /** On sorted dates, a jump of more than the limit is the same as two
      dates more than the limit apart with no date between them. */
  lemma {:induction false} GapMeaning(s: seq<int>)
    requires SortedBy(s, IntLe)
    ensures GapIn(s) <==> exists a, b :: (a in s && b in s && b - a > MaxGapDays &&
      forall c :: c in s ==> !(a < c < b))
  {
    if GapIn(s) {
      var i :| 1 <= i < |s| && s[i] - s[i - 1] > MaxGapDays;
      NoDateBetween(s, i);
      assert s[i - 1] in s && s[i] in s;
    }
    if exists a, b :: a in s && b in s && b - a > MaxGapDays && forall c :: c in s ==> !(a < c < b) {
      var a, b :| a in s && b in s && b - a > MaxGapDays && forall c :: c in s ==> !(a < c < b);
      GapFromDates(s, a, b);
    }
  }

  /** A product has a gap exactly when two of its dates are more than the
      limit apart with none of its dates in between. */
  lemma {:induction false} ProductGapMeaning(pairs: seq<(int, int)>, p: int)
    ensures ProductHasGap(pairs, p) <==> exists a, b :: ((p, a) in pairs && (p, b) in pairs &&
      b - a > MaxGapDays && forall c :: (p, c) in pairs ==> !(a < c < b))
  {
    var ds := DatesOf(pairs, p);
    var s := SortedDates(ds);
    SortedDatesMonotonic(ds);
    IntLeTotalPreorder();
    SortBySorted(ds, IntLe);
    GapMeaning(s);
    assert forall d :: d in s <==> d in ds by {
      forall d ensures d in s <==> d in ds {
        assert d in s <==> d in multiset(s);
        assert d in ds <==> d in multiset(ds);
      }
    }
    forall d ensures d in s <==> (p, d) in pairs {
      DatesOfMembers(pairs, p, d);
    }
  }

  /** Whether a sorted date sequence jumps, by a scan of its differences. */
  method HasGap(s: seq<int>) returns (b: bool)
    ensures b == GapIn(s)
  {
    b := false;
    var i := 1;
    while i < |s|
      invariant 1 <= i <= |s| || (|s| <= 1 && i == 1)
      invariant b <==> exists k :: 1 <= k < i && k < |s| && s[k] - s[k - 1] > MaxGapDays
    {
      if s[i] - s[i - 1] > MaxGapDays {
        b := true;
      }
      i := i + 1;
    }
  }

  /** The per-product loop of the time series validation. */
  method FindGap(pairs: seq<(int, int)>) returns (g: Option<int>)
    ensures g == FirstGap(pairs)
  {
    var pids := GroupIds(pairs);
    var i := 0;
    while i < |pids|
      invariant 0 <= i <= |pids|
      invariant FirstWhere(pids, GapTest(pairs)) == FirstWhere(pids[i..], GapTest(pairs))
    {
      var sorted := SortedDates(DatesOf(pairs, pids[i]));
      var gap := HasGap(sorted);
      assert pids[i..][1..] == pids[i + 1..];
      if gap {
        return Some(pids[i]);
      }
      i := i + 1;
    }
    g := None;
  }

  // ---------------------------------------------------------------------
  // The stage
  // ---------------------------------------------------------------------

  function SalesProducts(rows: seq<Sale>): set<int> {
    set i | 0 <= i < |rows| :: rows[i].productId
  }

  function StockProducts(rows: seq<Stock>): set<int> {
    set i | 0 <= i < |rows| :: rows[i].productId
  }

  predicate SalesComplete(rows: seq<RawSale>) {
    forall i :: 0 <= i < |rows| ==> SaleComplete(rows[i])
  }

  predicate StocksComplete(rows: seq<RawStock>) {
    forall i :: 0 <= i < |rows| ==> StockComplete(rows[i])
  }

  /** The sales table after the revenue fill and the de-duplication. */
  function CleanSales(rows: seq<RawSale>, revenueColumn: bool): seq<Sale>
    requires SalesComplete(rows)
  {
    KeepFirst(FilledAll(ToSales(rows), revenueColumn), SaleKey)
  }

  /** The inventory table after the de-duplication. */
  function CleanStocks(rows: seq<RawStock>): seq<Stock>
    requires StocksComplete(rows)
  {
    KeepFirst(ToStocks(rows), StockKey)
  }

  /** The time series validation, sales first, then the referential check. */
  function CheckTables(s: seq<Sale>, v: seq<Stock>): (r: Result<Cleaned, CleaningError>)
    ensures r.Ok? ==> r.value == Cleaned(s, v)
    ensures r.Err? ==> r.error.GapTooLong? || r.error.MissingInInventory?
  {
    var gs := FirstGap(SalePairs(s));
    var gv := FirstGap(StockPairs(v));
    var missing := SalesProducts(s) - StockProducts(v);
    if gs.Some? then Err(GapTooLong(gs.value, SalesData))
    else if gv.Some? then Err(GapTooLong(gv.value, InventoryData))
    else if missing != {} then Err(MissingInInventory(missing))
    else Ok(Cleaned(s, v))
  }

  /** run_cleaning as a value. */
  function Clean(sales: Option<seq<RawSale>>, revenueColumn: bool, inventory: Option<seq<RawStock>>)
    : Result<Cleaned, CleaningError>
  {
    if sales.None? || inventory.None? then Err(MissingInput)
    else if !SalesComplete(sales.value) then Err(NullSales)
    else if !StocksComplete(inventory.value) then Err(NullInventory)
    else CheckTables(CleanSales(sales.value, revenueColumn), CleanStocks(inventory.value))
  }

  /** `x` is the first input row with its sale id, its revenue filled. */
  ghost predicate FirstSale(rows: seq<RawSale>, revenueColumn: bool, x: Sale)
    requires SalesComplete(rows)
  {
    exists i :: 0 <= i < |rows| && x == FilledRevenue(ToSale(rows[i]), revenueColumn) &&
      forall j :: 0 <= j < i ==> rows[j].saleId != rows[i].saleId
  }

  /** `x` is the first input row with its (product, date) pair. */
  ghost predicate FirstStock(rows: seq<RawStock>, x: Stock)
    requires StocksComplete(rows)
  {
    exists i :: 0 <= i < |rows| && x == ToStock(rows[i]) &&
      forall j :: 0 <= j < i ==> StockKey(ToStock(rows[j])) != StockKey(ToStock(rows[i]))
  }

  /** The cleaned sales table has no more rows than the input, unique sale
      ids, and every input sale id. */
  lemma {:induction false} CleanedSalesKeys(rows: seq<RawSale>, revenueColumn: bool)
    requires SalesComplete(rows)
    ensures var s := CleanSales(rows, revenueColumn);
      && |s| <= |rows|
      && (forall p, q :: 0 <= p < q < |s| ==> s[p].saleId != s[q].saleId)
      && forall i :: 0 <= i < |rows| ==> Seen(s, SaleKey, rows[i].saleId.value)
  {
    var f := FilledAll(ToSales(rows), revenueColumn);
    KeepFirstShorter(f, SaleKey);
    KeepFirstUnique(f, SaleKey);
    forall i | 0 <= i < |rows| ensures Seen(CleanSales(rows, revenueColumn), SaleKey, rows[i].saleId.value) {
      KeepFirstSameKeys(f, SaleKey, SaleKey(f[i]));
      assert SaleKey(f[i]) == rows[i].saleId.value;
    }
  }

  /** Each cleaned sales row is the first input row with its sale id, its
      revenue filled. */
  lemma {:induction false} CleanedSalesFirst(rows: seq<RawSale>, revenueColumn: bool)
    requires SalesComplete(rows)
    ensures var s := CleanSales(rows, revenueColumn);
      forall q :: 0 <= q < |s| ==> FirstSale(rows, revenueColumn, s[q])
  {
    var f := FilledAll(ToSales(rows), revenueColumn);
    var s := CleanSales(rows, revenueColumn);
    KeepFirstKeepsFirst(f, SaleKey);
    forall q | 0 <= q < |s| ensures FirstSale(rows, revenueColumn, s[q]) {
      var i :| 0 <= i < |f| && f[i] == s[q] && FirstOfKey(f, SaleKey, i);
      forall j | 0 <= j < i ensures rows[j].saleId != rows[i].saleId {
        assert SaleKey(f[j]) != SaleKey(f[i]);
      }
    }
  }

  /** The cleaned inventory table has no more rows than the input, unique
      (product, date) pairs, and every input pair. */
  lemma {:induction false} CleanedStocksKeys(rows: seq<RawStock>)
    requires StocksComplete(rows)
    ensures var v := CleanStocks(rows);
      && |v| <= |rows|
      && (forall p, q :: 0 <= p < q < |v| ==> StockKey(v[p]) != StockKey(v[q]))
      && forall i :: 0 <= i < |rows| ==> Seen(v, StockKey, StockKey(ToStock(rows[i])))
  {
    var t := ToStocks(rows);
    KeepFirstShorter(t, StockKey);
    KeepFirstUnique(t, StockKey);
    forall i | 0 <= i < |rows| ensures Seen(CleanStocks(rows), StockKey, StockKey(ToStock(rows[i]))) {
      KeepFirstSameKeys(t, StockKey, StockKey(t[i]));
    }
  }

  /** Each cleaned inventory row is the first input row with its pair. */
  lemma {:induction false} CleanedStocksFirst(rows: seq<RawStock>)
    requires StocksComplete(rows)
    ensures var v := CleanStocks(rows);
      forall q :: 0 <= q < |v| ==> FirstStock(rows, v[q])
  {
    var t := ToStocks(rows);
    var v := CleanStocks(rows);
    KeepFirstKeepsFirst(t, StockKey);
    forall q | 0 <= q < |v| ensures FirstStock(rows, v[q]) {
      var i :| 0 <= i < |t| && t[i] == v[q] && FirstOfKey(t, StockKey, i);
      forall j | 0 <= j < i ensures StockKey(ToStock(rows[j])) != StockKey(ToStock(rows[i])) {
        assert StockKey(t[j]) != StockKey(t[i]);
      }
    }
  }

  /** Some inventory row is for product `p`. */
  predicate Stocked(v: seq<Stock>, p: int) {
    exists j :: 0 <= j < |v| && v[j].productId == p
  }

  /** The products sold but absent from inventory are exactly those the
      referential check reports. */
  lemma {:induction false} MissingMeaning(s: seq<Sale>, v: seq<Stock>, x: int)
    ensures x in SalesProducts(s) - StockProducts(v) <==>
      (exists i :: 0 <= i < |s| && s[i].productId == x) && !Stocked(v, x)
  {
    if x in StockProducts(v) {
      var j :| 0 <= j < |v| && v[j].productId == x;
    }
    if Stocked(v, x) {
      var j :| 0 <= j < |v| && v[j].productId == x;
      assert x in StockProducts(v);
    }
  }

  /** Every sold product has inventory exactly when nothing is missing. */
  lemma {:induction false} NothingMissing(s: seq<Sale>, v: seq<Stock>)
    ensures SalesProducts(s) - StockProducts(v) == {} <==> forall i :: 0 <= i < |s| ==> Stocked(v, s[i].productId)
  {
    if forall i :: 0 <= i < |s| ==> Stocked(v, s[i].productId) {
      forall x | x in SalesProducts(s) ensures x !in SalesProducts(s) - StockProducts(v) {
        MissingMeaning(s, v, x);
      }
    } else {
      var i :| 0 <= i < |s| && !Stocked(v, s[i].productId);
      MissingMeaning(s, v, s[i].productId);
    }
  }

  /** The checks pass exactly when neither table has a product with a gap
      and every sold product has inventory. */
  lemma {:induction false} CheckTablesPass(s: seq<Sale>, v: seq<Stock>)
    ensures CheckTables(s, v).Ok? <==>
      GapFree(SalePairs(s)) && GapFree(StockPairs(v)) && forall i :: 0 <= i < |s| ==> Stocked(v, s[i].productId)
  {
    NoGapMeaning(SalePairs(s));
    NoGapMeaning(StockPairs(v));
    NothingMissing(s, v);
  }

  /** A sales gap is reported for the smallest sold product with one. */
  lemma {:induction false} SalesGapReported(s: seq<Sale>, v: seq<Stock>)
    requires CheckTables(s, v).Err? && CheckTables(s, v).error.GapTooLong?
    requires CheckTables(s, v).error.source == SalesData
    ensures var p := CheckTables(s, v).error.productId;
      && (exists i :: 0 <= i < |s| && s[i].productId == p)
      && ProductHasGap(SalePairs(s), p)
      && forall i :: 0 <= i < |s| && s[i].productId < p ==> !ProductHasGap(SalePairs(s), s[i].productId)
  {
    var pairs := SalePairs(s);
    FirstGapIsSmallest(pairs);
    var p := FirstGap(pairs).value;
    var i :| 0 <= i < |pairs| && pairs[i].0 == p;
    assert s[i].productId == p;
    forall i | 0 <= i < |s| && s[i].productId < p ensures !ProductHasGap(pairs, s[i].productId) {
      assert pairs[i].0 == s[i].productId;
    }
  }

  /** An inventory gap is reported only when sales have none, and for the
      smallest product of inventory with one. */
  lemma {:induction false} InventoryGapReported(s: seq<Sale>, v: seq<Stock>)
    requires CheckTables(s, v).Err? && CheckTables(s, v).error.GapTooLong?
    requires CheckTables(s, v).error.source == InventoryData
    ensures var p := CheckTables(s, v).error.productId;
      && GapFree(SalePairs(s))
      && (exists i :: 0 <= i < |v| && v[i].productId == p)
      && ProductHasGap(StockPairs(v), p)
      && forall i :: 0 <= i < |v| && v[i].productId < p ==> !ProductHasGap(StockPairs(v), v[i].productId)
  {
    NoGapMeaning(SalePairs(s));
    var pairs := StockPairs(v);
    FirstGapIsSmallest(pairs);
    var p := FirstGap(pairs).value;
    var i :| 0 <= i < |pairs| && pairs[i].0 == p;
    assert v[i].productId == p;
    forall i | 0 <= i < |v| && v[i].productId < p ensures !ProductHasGap(pairs, v[i].productId) {
      assert pairs[i].0 == v[i].productId;
    }
  }

  /** A missing-inventory error comes only after both gap checks passed and
      names exactly the sold products without inventory, at least one. */
  lemma {:induction false} MissingReported(s: seq<Sale>, v: seq<Stock>, x: int)
    requires CheckTables(s, v).Err? && CheckTables(s, v).error.MissingInInventory?
    ensures GapFree(SalePairs(s)) && GapFree(StockPairs(v))
    ensures CheckTables(s, v).error.products != {}
    ensures x in CheckTables(s, v).error.products <==>
      (exists i :: 0 <= i < |s| && s[i].productId == x) && !Stocked(v, x)
  {
    NoGapMeaning(SalePairs(s));
    NoGapMeaning(StockPairs(v));
    MissingMeaning(s, v, x);
  }

  /** The stage fails on a missing input first, then on a null in sales,
      then on a null in inventory, and otherwise gives the verdict of the
      table checks on the cleaned tables. */
  lemma {:induction false} CleanErrors(sales: Option<seq<RawSale>>, revenueColumn: bool, inventory: Option<seq<RawStock>>)
    ensures var r := Clean(sales, revenueColumn, inventory);
      && (r == Err(MissingInput) <==> sales.None? || inventory.None?)
      && (r == Err(NullSales) <==> sales.Some? && inventory.Some? && !SalesComplete(sales.value))
      && (r == Err(NullInventory) <==>
            sales.Some? && inventory.Some? && SalesComplete(sales.value) && !StocksComplete(inventory.value))
      && (r.Ok? ==>
            && sales.Some? && inventory.Some? && SalesComplete(sales.value) && StocksComplete(inventory.value)
            && r.value == Cleaned(CleanSales(sales.value, revenueColumn), CleanStocks(inventory.value)))
  {
  }

  /** run_cleaning: the checks, the in-place revenue fill, the de-duplication,
      the per-product gap loop over sales then inventory, and the
      referential check. */
  method RunCleaning(sales: Option<seq<RawSale>>, revenueColumn: bool, inventory: Option<seq<RawStock>>)
    returns (r: Result<Cleaned, CleaningError>)
    ensures r == Clean(sales, revenueColumn, inventory)
  {
    if sales.None? || inventory.None? {
      return Err(MissingInput);
    }
    if !SalesComplete(sales.value) {
      return Err(NullSales);
    }
    if !StocksComplete(inventory.value) {
      return Err(NullInventory);
    }
    var rows := ToSales(sales.value);
    var a := new Sale[|rows|](i requires 0 <= i < |rows| => rows[i]);
    assert a[..] == rows;
    FillRevenue(a, revenueColumn);
    var s := KeepFirst(a[..], SaleKey);
    var v := KeepFirst(ToStocks(inventory.value), StockKey);
    assert s == CleanSales(sales.value, revenueColumn);
    var gs := FindGap(SalePairs(s));
    if gs.Some? {
      return Err(GapTooLong(gs.value, SalesData));
    }
    var gv := FindGap(StockPairs(v));
    if gv.Some? {
      return Err(GapTooLong(gv.value, InventoryData));
    }
    var missing := SalesProducts(s) - StockProducts(v);
    if missing != {} {
      return Err(MissingInInventory(missing));
    }
    r := Ok(Cleaned(s, v));
  }
}
