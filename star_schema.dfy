/** Star-schema builder: the date and product dimensions with their surrogate
    and business keys, the sales fact table at (product, date, region) grain,
    and the pre-load validation of referential integrity, hygiene and grain.
    Dates are day numbers; `strftime` formatting is injective on them and is
    not modelled. */
module StarSchema {
  import opened Common
  import opened Ordering

  const RegionId: int := 1
  const FirstDateId: int := 1000

  /** dim_region: the single region "ALL". */
  const DimRegionIds: seq<int> := [RegionId]

  /** A daily sales row: daily_quantity_sold and daily_revenue of one product
      on one day. */
  datatype SalesRow = SalesRow(productId: int, date: int, quantity: real, revenue: real)

  /** The (product_id, unit_cost) columns of the inventory table. */
  datatype InventoryRow = InventoryRow(productId: int, unitCost: Option<real>)

  datatype DateRow = DateRow(dateId: int, date: int)
  datatype ProductRow = ProductRow(productId: int, unitPrice: real, unitCost: real)
  datatype FactRow = FactRow(
    salesId: int, productId: int, dateId: int, regionId: int,
    quantity: real, revenue: real, cost: real)

  datatype BuildError = DuplicateProductId | DateLookupFailed | MissingUnitCost

  // ---------------------------------------------------------------------
  // build_dim_date
  // ---------------------------------------------------------------------

  function SalesDates(sales: seq<SalesRow>): seq<int> {
    seq(|sales|, i requires 0 <= i < |sales| => sales[i].date)
  }

  /** Distinct sales dates in ascending order, keyed 1000, 1001, ... */
  function DimDate(sales: seq<SalesRow>): seq<DateRow> {
    var ds := SortedDates(sales);
    seq(|ds|, i requires 0 <= i < |ds| => DateRow(FirstDateId + i, ds[i]))
  }

  function SortedDates(sales: seq<SalesRow>): seq<int> {
    SortedSet(SalesDates(sales), IntLt)
  }

  /** The distinct dates come out strictly ascending. */
  lemma SortedDatesAscending(sales: seq<SalesRow>)
    ensures forall i, j :: 0 <= i < j < |SortedDates(sales)| ==> SortedDates(sales)[i] < SortedDates(sales)[j]
  {
    IntLtStrictTotal();
    SortedSetSorted(SalesDates(sales), IntLt);
  }

  /** Every sales date is a dim_date date and every dim_date date is a
      sales date. */
  lemma SortedDatesCover(sales: seq<SalesRow>)
    ensures forall k :: 0 <= k < |sales| ==> sales[k].date in SortedDates(sales)
    ensures forall i :: 0 <= i < |SortedDates(sales)| ==>
      exists k :: 0 <= k < |sales| && sales[k].date == SortedDates(sales)[i]
  {
    var ds := SortedDates(sales);
    var sd := SalesDates(sales);
    forall k | 0 <= k < |sales| ensures sales[k].date in ds {
      assert sd[k] in sd;
    }
    forall i | 0 <= i < |ds| ensures exists k :: 0 <= k < |sales| && sales[k].date == ds[i] {
      assert ds[i] in sd;
      var k :| 0 <= k < |sd| && sd[k] == ds[i];
    }
  }

  /** dim_date holds every sales date exactly once, in ascending order, with
      consecutive ids from 1000, so date order and id order agree. */
  lemma DimDateProperties(sales: seq<SalesRow>)
    ensures var r := DimDate(sales);
      && (forall i :: 0 <= i < |r| ==> r[i].dateId == FirstDateId + i)
      && (forall i, j :: 0 <= i < j < |r| ==> r[i].date < r[j].date)
      && (forall k :: 0 <= k < |sales| ==> exists i :: 0 <= i < |r| && r[i].date == sales[k].date)
      && (forall i :: 0 <= i < |r| ==> exists k :: 0 <= k < |sales| && sales[k].date == r[i].date)
  {
    var ds := SortedDates(sales);
    var r := DimDate(sales);
    assert |r| == |ds| && forall i :: 0 <= i < |r| ==> r[i] == DateRow(FirstDateId + i, ds[i]);
    SortedDatesAscending(sales);
    SortedDatesCover(sales);
    forall k | 0 <= k < |sales| ensures exists i :: 0 <= i < |r| && r[i].date == sales[k].date {
      var i :| 0 <= i < |ds| && ds[i] == sales[k].date;
      assert r[i].date == sales[k].date;
    }
  }

  /** The date_id of a date: the first dim_date row with that date. */
  function DateIdOf(dim: seq<DateRow>, d: int): (r: Option<int>)
    ensures r.None? <==> forall i :: 0 <= i < |dim| ==> dim[i].date != d
    ensures r.Some? ==> exists i :: 0 <= i < |dim| && dim[i].date == d && dim[i].dateId == r.value
  {
    if dim == [] then None
    else if dim[0].date == d then Some(dim[0].dateId)
    else
      var r := DateIdOf(dim[1..], d);
      assert forall i :: 1 <= i < |dim| ==> dim[i] == dim[1..][i - 1];
      r
  }

  /** On dim_date, distinct dates get distinct ids. */
  lemma DateIdInjective(sales: seq<SalesRow>, d1: int, d2: int)
    requires DateIdOf(DimDate(sales), d1).Some? && DateIdOf(DimDate(sales), d2).Some?
    requires DateIdOf(DimDate(sales), d1) == DateIdOf(DimDate(sales), d2)
    ensures d1 == d2
  {
    var r := DimDate(sales);
    assert forall i :: 0 <= i < |r| ==> r[i].dateId == FirstDateId + i;
    var v := DateIdOf(r, d1).value;
    var i :| 0 <= i < |r| && r[i].date == d1 && r[i].dateId == v;
    var j :| 0 <= j < |r| && r[j].date == d2 && r[j].dateId == v;
  }

  /** Distinct dates get distinct ids. */
  lemma DateIdDistinct(sales: seq<SalesRow>, d1: int, d2: int)
    requires DateIdOf(DimDate(sales), d1).Some? && DateIdOf(DimDate(sales), d2).Some?
    requires d1 != d2
    ensures DateIdOf(DimDate(sales), d1) != DateIdOf(DimDate(sales), d2)
  {
    if DateIdOf(DimDate(sales), d1) == DateIdOf(DimDate(sales), d2) {
      DateIdInjective(sales, d1, d2);
    }
  }

  // ---------------------------------------------------------------------
  // build_dim_product
  // ---------------------------------------------------------------------

  /** Per-row unit price, 0 where nothing was sold. */
  function UnitPriceCalc(r: SalesRow): real {
    if r.quantity > 0.0 then r.revenue / r.quantity else 0.0
  }

  /** The unit prices of one product's sales rows, in row order. */
  function PricesFor(sales: seq<SalesRow>, p: int): (r: seq<real>)
    ensures |r| > 0 <==> exists k :: 0 <= k < |sales| && sales[k].productId == p
  {
    if sales == [] then []
    else
      var last := sales[|sales| - 1];
      var prev := PricesFor(sales[..|sales| - 1], p);
      assert forall k :: 0 <= k < |sales| - 1 ==> sales[..|sales| - 1][k] == sales[k];
      prev + (if last.productId == p then [UnitPriceCalc(last)] else [])
  }

  /** The product's price: the mean of its per-row unit prices. */
  function PriceOf(sales: seq<SalesRow>, p: int): real {
    var ps := PricesFor(sales, p);
    if ps == [] then 0.0 else Mean(ps)
  }

  function SalesProductIds(sales: seq<SalesRow>): seq<int> {
    seq(|sales|, i requires 0 <= i < |sales| => sales[i].productId)
  }

  /** The group keys of `groupby('product_id')`: distinct, ascending. */
  function GroupedProductIds(sales: seq<SalesRow>): seq<int> {
    SortedSet(SalesProductIds(sales), IntLt)
  }

  /** `drop_duplicates()`: first occurrences, in order. */
  function Deduplicated(inv: seq<InventoryRow>): (r: seq<InventoryRow>)
    ensures forall x :: x in r <==> x in inv
    ensures Distinct(r)
  {
    if inv == [] then []
    else
      var prev := Deduplicated(inv[..|inv| - 1]);
      var last := inv[|inv| - 1];
      assert forall x :: x in inv <==> x in inv[..|inv| - 1] || x == last;
      if last in prev then prev else prev + [last]
  }

  /** The unit costs listed for one product, in order. */
  function CostsFor(costs: seq<InventoryRow>, p: int): (r: seq<Option<real>>)
    ensures forall c :: c in r <==> InventoryRow(p, c) in costs
    ensures Distinct(costs) ==> Distinct(r)
  {
    if costs == [] then []
    else
      var prefix := costs[..|costs| - 1];
      var last := costs[|costs| - 1];
      var prev := CostsFor(prefix, p);
      assert forall x :: x in costs <==> x in prefix || x == last;
      assert Distinct(costs) ==> Distinct(prefix) && last !in prefix;
      prev + (if last.productId == p then [last.unitCost] else [])
  }

  /** The inner-merge rows of one price row: one per listed cost, with a
      missing cost filled as 0. */
  function RowsFor(sales: seq<SalesRow>, costs: seq<InventoryRow>, p: int): (r: seq<ProductRow>)
    ensures |r| == |CostsFor(costs, p)|
    ensures forall q :: 0 <= q < |r| ==>
      r[q] == ProductRow(p, PriceOf(sales, p), FillZero(CostsFor(costs, p)[q]))
  {
    var cs := CostsFor(costs, p);
    seq(|cs|, q requires 0 <= q < |cs| => ProductRow(p, PriceOf(sales, p), FillZero(cs[q])))
  }

  /** `pd.merge(prices, costs, on='product_id', how='inner')`, left key order. */
  function Joined(sales: seq<SalesRow>, costs: seq<InventoryRow>, pids: seq<int>): seq<ProductRow> {
    if pids == [] then []
    else Joined(sales, costs, pids[..|pids| - 1]) + RowsFor(sales, costs, pids[|pids| - 1])
  }

  function ProductIdsOf(rows: seq<ProductRow>): seq<int> {
    seq(|rows|, i requires 0 <= i < |rows| => rows[i].productId)
  }

  function BuildDimProduct(sales: seq<SalesRow>, inv: seq<InventoryRow>): Result<seq<ProductRow>, BuildError> {
    var rows := Joined(sales, Deduplicated(inv), GroupedProductIds(sales));
    if !Distinct(ProductIdsOf(rows)) then Err(DuplicateProductId) else Ok(rows)
  }

  /** Every merged row belongs to one of the price keys and carries that
      product's price and one of its listed costs. */
  lemma {:induction false} JoinedRows(sales: seq<SalesRow>, costs: seq<InventoryRow>, pids: seq<int>)
    ensures forall q :: 0 <= q < |Joined(sales, costs, pids)| ==>
      var r := Joined(sales, costs, pids)[q];
      && r.productId in pids
      && r.unitPrice == PriceOf(sales, r.productId)
      && exists c :: c in CostsFor(costs, r.productId) && r.unitCost == FillZero(c)
    decreases |pids|
  {
    if pids != [] {
      var pre := pids[..|pids| - 1];
      var p := pids[|pids| - 1];
      JoinedRows(sales, costs, pre);
      var jp := Joined(sales, costs, pre);
      var rs := RowsFor(sales, costs, p);
      var j := Joined(sales, costs, pids);
      assert j == jp + rs;
      assert forall x :: x in pids <==> x in pre || x == p;
      forall q | 0 <= q < |j|
        ensures && j[q].productId in pids
                && j[q].unitPrice == PriceOf(sales, j[q].productId)
                && exists c :: c in CostsFor(costs, j[q].productId) && j[q].unitCost == FillZero(c)
      {
        if q >= |jp| {
          var cs := CostsFor(costs, p);
          assert j[q] == rs[q - |jp|];
          assert cs[q - |jp|] in cs;
          assert j[q].productId == p;
        } else {
          assert j[q] == jp[q];
          assert jp[q].productId in pre;
          assert jp[q].unitPrice == PriceOf(sales, jp[q].productId);
        }
      }
    }
  }

  /** Every price key with a listed cost has a merged row. */
  lemma {:induction false} JoinedCovers(sales: seq<SalesRow>, costs: seq<InventoryRow>, pids: seq<int>)
    ensures forall p :: p in pids && CostsFor(costs, p) != [] ==> p in ProductIdsOf(Joined(sales, costs, pids))
    decreases |pids|
  {
    if pids != [] {
      var pre := pids[..|pids| - 1];
      var p := pids[|pids| - 1];
      JoinedCovers(sales, costs, pre);
      var jp := Joined(sales, costs, pre);
      var rs := RowsFor(sales, costs, p);
      var j := Joined(sales, costs, pids);
      assert j == jp + rs;
      assert forall x :: x in pids <==> x in pre || x == p;
      forall x | x in pids && CostsFor(costs, x) != [] ensures x in ProductIdsOf(j) {
        if x in pre {
          var q :| 0 <= q < |jp| && ProductIdsOf(jp)[q] == x;
          assert ProductIdsOf(j)[q] == x;
        } else {
          assert ProductIdsOf(j)[|jp|] == x;
        }
      }
    }
  }

  /** Each row of the merge has a product id from `pids`. */
  lemma {:induction false} JoinedIds(sales: seq<SalesRow>, costs: seq<InventoryRow>, pids: seq<int>)
    ensures forall x :: x in ProductIdsOf(Joined(sales, costs, pids)) ==> x in pids
    decreases |pids|
  {
    if pids != [] {
      var pre := pids[..|pids| - 1];
      JoinedIds(sales, costs, pre);
      var jp := Joined(sales, costs, pre);
      var j := Joined(sales, costs, pids);
      var rs := RowsFor(sales, costs, pids[|pids| - 1]);
      assert j == jp + rs;
      assert forall x :: x in pre ==> x in pids;
      forall x | x in ProductIdsOf(j) ensures x in pids {
        var q :| 0 <= q < |j| && ProductIdsOf(j)[q] == x;
        if q < |jp| {
          assert ProductIdsOf(jp)[q] == x;
        } else {
          assert j[q] == rs[q - |jp|];
        }
      }
    }
  }

  /** For distinct price keys, the merged product ids are distinct exactly
      when no key has more than one listed cost. */
  lemma {:induction false} JoinedDistinct(sales: seq<SalesRow>, costs: seq<InventoryRow>, pids: seq<int>)
    requires Distinct(pids)
    ensures Distinct(ProductIdsOf(Joined(sales, costs, pids))) <==>
      forall p :: p in pids ==> |CostsFor(costs, p)| <= 1
    decreases |pids|
  {
    if pids != [] {
      var pre := pids[..|pids| - 1];
      var p := pids[|pids| - 1];
      assert Distinct(pre);
      assert p !in pre;
      JoinedDistinct(sales, costs, pre);
      JoinedIds(sales, costs, pre);
      var jp := Joined(sales, costs, pre);
      var rs := RowsFor(sales, costs, p);
      var ids := ProductIdsOf(Joined(sales, costs, pids));
      var idp := ProductIdsOf(jp);
      assert Joined(sales, costs, pids) == jp + rs;
      assert forall q :: 0 <= q < |idp| ==> ids[q] == idp[q];
      assert forall q :: |idp| <= q < |ids| ==> ids[q] == p;
      assert forall x :: x in pids <==> x in pre || x == p;
      assert (forall x :: x in pids ==> |CostsFor(costs, x)| <= 1) <==>
        (forall x :: x in pre ==> |CostsFor(costs, x)| <= 1) && |rs| <= 1;
      if |rs| > 1 {
        assert ids[|idp|] == ids[|idp| + 1];
      }
      if Distinct(ids) {
        assert Distinct(idp);
        assert forall x :: x in pids ==> |CostsFor(costs, x)| <= 1;
      }
      if forall x :: x in pids ==> |CostsFor(costs, x)| <= 1 {
        assert Distinct(idp);
        assert |rs| <= 1;
        forall a, b | 0 <= a < b < |ids| ensures ids[a] != ids[b] {
          if b >= |idp| && a < |idp| {
            assert idp[a] in idp;
          }
        }
      }
    }
  }

  /** A product with two different listed costs, that also has sales. */
  ghost predicate ConflictingCost(sales: seq<SalesRow>, inv: seq<InventoryRow>, p: int) {
    && (exists k :: 0 <= k < |sales| && sales[k].productId == p)
    && exists i, j :: CostsDisagree(inv, p, i, j)
  }

  /** Two inventory rows of product `p` with different unit costs. */
  predicate CostsDisagree(inv: seq<InventoryRow>, p: int, i: int, j: int) {
    0 <= i < |inv| && 0 <= j < |inv| &&
    inv[i].productId == p && inv[j].productId == p && inv[i].unitCost != inv[j].unitCost
  }

  lemma TwoCostsDisagree(inv: seq<InventoryRow>, p: int)
    requires |CostsFor(Deduplicated(inv), p)| > 1
    ensures exists i, j :: CostsDisagree(inv, p, i, j)
  {
    var d := Deduplicated(inv);
    var cs := CostsFor(d, p);
    assert cs[0] != cs[1];
    assert cs[0] in cs && cs[1] in cs;
    assert InventoryRow(p, cs[0]) in d && InventoryRow(p, cs[1]) in d;
    var i :| 0 <= i < |inv| && inv[i] == InventoryRow(p, cs[0]);
    var j :| 0 <= j < |inv| && inv[j] == InventoryRow(p, cs[1]);
    assert CostsDisagree(inv, p, i, j);
  }

  lemma DisagreeingCostsListed(inv: seq<InventoryRow>, p: int, i: int, j: int)
    requires CostsDisagree(inv, p, i, j)
    ensures |CostsFor(Deduplicated(inv), p)| > 1
  {
    var d := Deduplicated(inv);
    var cs := CostsFor(d, p);
    assert inv[i] in d && inv[j] in d;
    assert inv[i].unitCost in cs && inv[j].unitCost in cs;
    var a :| 0 <= a < |cs| && cs[a] == inv[i].unitCost;
    var b :| 0 <= b < |cs| && cs[b] == inv[j].unitCost;
    assert a != b;
  }

  /** After `drop_duplicates`, a product lists two costs exactly when two of
      its inventory rows disagree on the cost. */
  lemma CostsConflict(inv: seq<InventoryRow>, p: int)
    ensures |CostsFor(Deduplicated(inv), p)| > 1 <==> exists i, j :: CostsDisagree(inv, p, i, j)
  {
    if |CostsFor(Deduplicated(inv), p)| > 1 {
      TwoCostsDisagree(inv, p);
    }
    if exists i, j :: CostsDisagree(inv, p, i, j) {
      var i, j :| CostsDisagree(inv, p, i, j);
      DisagreeingCostsListed(inv, p, i, j);
    }
  }

  /** The price keys are exactly the sold products, each once. */
  lemma GroupedProductIdsProperties(sales: seq<SalesRow>)
    ensures Distinct(GroupedProductIds(sales))
    ensures forall p :: p in GroupedProductIds(sales) <==>
      exists k :: 0 <= k < |sales| && sales[k].productId == p
  {
    var pids := GroupedProductIds(sales);
    IntLtStrictTotal();
    SortedSetSorted(SalesProductIds(sales), IntLt);
    forall a, b | 0 <= a < b < |pids| ensures pids[a] != pids[b] {
      StrictlySortedDistinct(pids, IntLt, a, b);
    }
    forall p ensures p in pids <==> exists k :: 0 <= k < |sales| && sales[k].productId == p {
      if exists k :: 0 <= k < |sales| && sales[k].productId == p {
        var k :| 0 <= k < |sales| && sales[k].productId == p;
        assert SalesProductIds(sales)[k] == p;
      }
      if p in pids {
        var k :| 0 <= k < |sales| && SalesProductIds(sales)[k] == p;
      }
    }
  }

  /** build_dim_product fails exactly when a product with sales has two
      inventory rows with different unit costs. */
  lemma DimProductFails(sales: seq<SalesRow>, inv: seq<InventoryRow>)
    ensures BuildDimProduct(sales, inv).Err? <==> exists p :: ConflictingCost(sales, inv, p)
  {
    var pids := GroupedProductIds(sales);
    var d := Deduplicated(inv);
    GroupedProductIdsProperties(sales);
    JoinedDistinct(sales, d, pids);
    forall p ensures (p in pids && |CostsFor(d, p)| > 1) <==> ConflictingCost(sales, inv, p) {
      CostsConflict(inv, p);
    }
  }

  /** A successful build_dim_product has distinct product ids, each a sold
      product priced at the mean of its per-row unit prices with one of its
      inventory costs (a missing one as 0), and every sold product that has an
      inventory row is present. */
  lemma DimProductRows(sales: seq<SalesRow>, inv: seq<InventoryRow>)
    requires BuildDimProduct(sales, inv).Ok?
    ensures var rows := BuildDimProduct(sales, inv).value;
      && Distinct(ProductIdsOf(rows))
      && (forall q :: 0 <= q < |rows| ==>
            && (exists k :: 0 <= k < |sales| && sales[k].productId == rows[q].productId)
            && PricesFor(sales, rows[q].productId) != []
            && rows[q].unitPrice == Mean(PricesFor(sales, rows[q].productId))
            && exists c :: InventoryRow(rows[q].productId, c) in inv && rows[q].unitCost == FillZero(c))
      && (forall k, i :: 0 <= k < |sales| && 0 <= i < |inv| && inv[i].productId == sales[k].productId ==>
            sales[k].productId in ProductIdsOf(rows))
  {
    var pids := GroupedProductIds(sales);
    var d := Deduplicated(inv);
    var rows := Joined(sales, d, pids);
    GroupedProductIdsProperties(sales);
    JoinedRows(sales, d, pids);
    JoinedCovers(sales, d, pids);
    forall q | 0 <= q < |rows|
      ensures exists k :: 0 <= k < |sales| && sales[k].productId == rows[q].productId
      ensures PricesFor(sales, rows[q].productId) != []
      ensures rows[q].unitPrice == Mean(PricesFor(sales, rows[q].productId))
      ensures exists c :: InventoryRow(rows[q].productId, c) in inv && rows[q].unitCost == FillZero(c)
    {
      assert rows[q].productId in pids;
      var c :| c in CostsFor(d, rows[q].productId) && rows[q].unitCost == FillZero(c);
      assert InventoryRow(rows[q].productId, c) in d;
    }
    forall k, i | 0 <= k < |sales| && 0 <= i < |inv| && inv[i].productId == sales[k].productId
      ensures sales[k].productId in pids && CostsFor(d, sales[k].productId) != []
    {
      assert inv[i] in d;
      assert inv[i].unitCost in CostsFor(d, sales[k].productId);
    }
  }

  // ---------------------------------------------------------------------
  // build_fact_sales
  // ---------------------------------------------------------------------

  function Key(r: SalesRow): (int, int) {
    (r.productId, r.date)
  }

  function Keys(sales: seq<SalesRow>): seq<(int, int)> {
    seq(|sales|, i requires 0 <= i < |sales| => Key(sales[i]))
  }

  /** The group keys of `groupby(['product_id', 'date'])`: distinct,
      ascending. */
  function GrainKeys(sales: seq<SalesRow>): seq<(int, int)> {
    SortedSet(Keys(sales), PairLt)
  }

  /** Summed daily quantity of one grain key. */
  function QuantityAt(sales: seq<SalesRow>, k: (int, int)): (r: real)
    ensures (forall i :: 0 <= i < |sales| ==> sales[i].quantity >= 0.0) ==> r >= 0.0
  {
    if sales == [] then 0.0
    else
      var last := sales[|sales| - 1];
      QuantityAt(sales[..|sales| - 1], k) + (if Key(last) == k then last.quantity else 0.0)
  }

  /** Summed daily revenue of one grain key. */
  function RevenueAt(sales: seq<SalesRow>, k: (int, int)): (r: real)
    ensures (forall i :: 0 <= i < |sales| ==> sales[i].revenue >= 0.0) ==> r >= 0.0
  {
    if sales == [] then 0.0
    else
      var last := sales[|sales| - 1];
      RevenueAt(sales[..|sales| - 1], k) + (if Key(last) == k then last.revenue else 0.0)
  }

  /** The unit cost of a product: the first dim_product row for it. */
  function UnitCostOf(dim: seq<ProductRow>, p: int): (r: Option<real>)
    ensures r.None? <==> forall i :: 0 <= i < |dim| ==> dim[i].productId != p
    ensures r.Some? ==> exists i :: 0 <= i < |dim| && dim[i].productId == p && dim[i].unitCost == r.value
  {
    if dim == [] then None
    else if dim[0].productId == p then Some(dim[0].unitCost)
    else
      var r := UnitCostOf(dim[1..], p);
      assert forall i :: 1 <= i < |dim| ==> dim[i] == dim[1..][i - 1];
      r
  }

  predicate DatesResolve(keys: seq<(int, int)>, dimDate: seq<DateRow>) {
    forall i :: 0 <= i < |keys| ==> DateIdOf(dimDate, keys[i].1).Some?
  }

  predicate CostsResolve(keys: seq<(int, int)>, dimProduct: seq<ProductRow>) {
    forall i :: 0 <= i < |keys| ==> UnitCostOf(dimProduct, keys[i].0).Some?
  }

  function FactAt(sales: seq<SalesRow>, keys: seq<(int, int)>, dimDate: seq<DateRow>,
                  dimProduct: seq<ProductRow>, i: int): FactRow
    requires 0 <= i < |keys|
    requires DatesResolve(keys, dimDate) && CostsResolve(keys, dimProduct)
  {
    var q := QuantityAt(sales, keys[i]);
    FactRow(i + 1, keys[i].0, DateIdOf(dimDate, keys[i].1).value, RegionId,
            q, RevenueAt(sales, keys[i]), q * UnitCostOf(dimProduct, keys[i].0).value)
  }

  /** build_fact_sales: aggregate to the grain, look up date_id (all rows
      first), then unit_cost, then number the rows. */
  function BuildFactSales(sales: seq<SalesRow>, dimDate: seq<DateRow>, dimProduct: seq<ProductRow>)
    : Result<seq<FactRow>, BuildError>
  {
    var keys := GrainKeys(sales);
    if !DatesResolve(keys, dimDate) then Err(DateLookupFailed)
    else if !CostsResolve(keys, dimProduct) then Err(MissingUnitCost)
    else Ok(seq(|keys|, i requires 0 <= i < |keys| => FactAt(sales, keys, dimDate, dimProduct, i)))
  }

  /** A grain key occurs exactly when some sales row has it. */
  lemma GrainKeysMembership(sales: seq<SalesRow>)
    ensures forall k :: k in GrainKeys(sales) <==> exists i :: 0 <= i < |sales| && Key(sales[i]) == k
    ensures StrictlySorted(GrainKeys(sales), PairLt)
  {
    PairLtStrictTotal();
    SortedSetSorted(Keys(sales), PairLt);
    forall k ensures k in GrainKeys(sales) <==> exists i :: 0 <= i < |sales| && Key(sales[i]) == k {
      if exists i :: 0 <= i < |sales| && Key(sales[i]) == k {
        var i :| 0 <= i < |sales| && Key(sales[i]) == k;
        assert Keys(sales)[i] == k;
      }
    }
  }

  /** The date lookup fails exactly when some sales row's date is not in
      dim_date; the cost lookup fails next exactly when some sold product is
      not in dim_product. */
  lemma FactSalesErrors(sales: seq<SalesRow>, dimDate: seq<DateRow>, dimProduct: seq<ProductRow>)
    ensures BuildFactSales(sales, dimDate, dimProduct) == Err(DateLookupFailed) <==>
      exists i :: 0 <= i < |sales| && DateIdOf(dimDate, sales[i].date).None?
    ensures BuildFactSales(sales, dimDate, dimProduct) == Err(MissingUnitCost) <==>
      (forall i :: 0 <= i < |sales| ==> DateIdOf(dimDate, sales[i].date).Some?) &&
      exists i :: 0 <= i < |sales| && UnitCostOf(dimProduct, sales[i].productId).None?
  {
    var keys := GrainKeys(sales);
    GrainKeysMembership(sales);
    forall i | 0 <= i < |sales| ensures Key(sales[i]) in keys {
    }
    assert DatesResolve(keys, dimDate) <==>
      forall i :: 0 <= i < |sales| ==> DateIdOf(dimDate, sales[i].date).Some? by {
      if !DatesResolve(keys, dimDate) {
        var j :| 0 <= j < |keys| && DateIdOf(dimDate, keys[j].1).None?;
        assert keys[j] in keys;
      }
      if DatesResolve(keys, dimDate) {
        forall i | 0 <= i < |sales| ensures DateIdOf(dimDate, sales[i].date).Some? {
          var j :| 0 <= j < |keys| && keys[j] == Key(sales[i]);
        }
      }
    }
    assert CostsResolve(keys, dimProduct) <==>
      forall i :: 0 <= i < |sales| ==> UnitCostOf(dimProduct, sales[i].productId).Some? by {
      if !CostsResolve(keys, dimProduct) {
        var j :| 0 <= j < |keys| && UnitCostOf(dimProduct, keys[j].0).None?;
        assert keys[j] in keys;
      }
      if CostsResolve(keys, dimProduct) {
        forall i | 0 <= i < |sales| ensures UnitCostOf(dimProduct, sales[i].productId).Some? {
          var j :| 0 <= j < |keys| && keys[j] == Key(sales[i]);
        }
      }
    }
  }

  /** The date lookup never fails against the dim_date built from the same
      sales. */
  lemma BuiltDatesResolve(sales: seq<SalesRow>, dimProduct: seq<ProductRow>)
    ensures BuildFactSales(sales, DimDate(sales), dimProduct) != Err(DateLookupFailed)
  {
    DimDateProperties(sales);
    FactSalesErrors(sales, DimDate(sales), dimProduct);
    forall i | 0 <= i < |sales| ensures DateIdOf(DimDate(sales), sales[i].date).Some? {
    }
  }

  /** A built fact table has one row per distinct (product, date) of the
      sales, ascending, with sales_id 1..n, region 1, the key's summed quantity
      and revenue, and cost = quantity x the product's unit cost. */
  lemma FactSalesRows(sales: seq<SalesRow>, dimDate: seq<DateRow>, dimProduct: seq<ProductRow>)
    requires BuildFactSales(sales, dimDate, dimProduct).Ok?
    ensures var f, keys := BuildFactSales(sales, dimDate, dimProduct).value, GrainKeys(sales);
      && |f| == |keys|
      && StrictlySorted(keys, PairLt)
      && (forall k :: k in keys <==> exists i :: 0 <= i < |sales| && Key(sales[i]) == k)
      && forall i :: 0 <= i < |f| ==>
        && f[i].salesId == i + 1
        && f[i].productId == keys[i].0
        && Some(f[i].dateId) == DateIdOf(dimDate, keys[i].1)
        && f[i].regionId == RegionId
        && f[i].quantity == QuantityAt(sales, keys[i])
        && f[i].revenue == RevenueAt(sales, keys[i])
        && UnitCostOf(dimProduct, keys[i].0).Some?
        && f[i].cost == f[i].quantity * UnitCostOf(dimProduct, keys[i].0).value
  {
    GrainKeysMembership(sales);
    var f, keys := BuildFactSales(sales, dimDate, dimProduct).value, GrainKeys(sales);
    forall i | 0 <= i < |f| ensures f[i] == FactAt(sales, keys, dimDate, dimProduct, i) {
    }
  }

  // ---------------------------------------------------------------------
  // validate_schema
  // ---------------------------------------------------------------------

  /** A fact-table row as the validator sees it: measures may be null. */
  datatype FactRecord = FactRecord(
    productId: int, dateId: int, regionId: int,
    quantity: Option<real>, revenue: Option<real>, cost: Option<real>)

  function Record(f: FactRow): FactRecord {
    FactRecord(f.productId, f.dateId, f.regionId, Some(f.quantity), Some(f.revenue), Some(f.cost))
  }

  function Records(fs: seq<FactRow>): seq<FactRecord> {
    seq(|fs|, i requires 0 <= i < |fs| => Record(fs[i]))
  }

  datatype ValidationError =
    | GrainViolation
    | InvalidProductIds(productRows: nat)
    | InvalidDateIds(dateRows: nat)
    | InvalidRegionIds(regionRows: nat)
    | NegativeQuantity
    | NegativeRevenue
    | NegativeCost
    | NullValues

  function GrainOf(r: FactRecord): (int, int, int) {
    (r.productId, r.dateId, r.regionId)
  }

  /** Some row repeats the grain of an earlier row. */
  predicate HasGrainDuplicate(fact: seq<FactRecord>) {
    exists i, j :: 0 <= j < i < |fact| && GrainOf(fact[i]) == GrainOf(fact[j])
  }

  datatype ForeignKey = ProductKey | DateKey | RegionKey

  function KeyOf(r: FactRecord, k: ForeignKey): int {
    match k
    case ProductKey => r.productId
    case DateKey => r.dateId
    case RegionKey => r.regionId
  }

  /** Number of rows whose foreign key `k` is not among `ids`. */
  function UnknownCount(fact: seq<FactRecord>, ids: seq<int>, k: ForeignKey): (n: nat)
    ensures n <= |fact|
    ensures n > 0 <==> exists i :: 0 <= i < |fact| && KeyOf(fact[i], k) !in ids
  {
    if fact == [] then 0
    else
      var pre := fact[..|fact| - 1];
      assert forall i :: 0 <= i < |pre| ==> pre[i] == fact[i];
      UnknownCount(pre, ids, k) + (if KeyOf(fact[|fact| - 1], k) !in ids then 1 else 0)
  }

  predicate Negative(x: Option<real>) {
    x.Some? && x.value < 0.0
  }

  predicate HasNull(r: FactRecord) {
    r.quantity.None? || r.revenue.None? || r.cost.None?
  }

  predicate AnyNegativeQuantity(fact: seq<FactRecord>) {
    exists i :: 0 <= i < |fact| && Negative(fact[i].quantity)
  }

  predicate AnyNegativeRevenue(fact: seq<FactRecord>) {
    exists i :: 0 <= i < |fact| && Negative(fact[i].revenue)
  }

  predicate AnyNegativeCost(fact: seq<FactRecord>) {
    exists i :: 0 <= i < |fact| && Negative(fact[i].cost)
  }

  predicate AnyNull(fact: seq<FactRecord>) {
    exists i :: 0 <= i < |fact| && HasNull(fact[i])
  }

  /** One check of the validator: its error is appended when it fires. */
  function Add(errors: seq<ValidationError>, fires: bool, e: ValidationError): seq<ValidationError> {
    if fires then errors + [e] else errors
  }

  /** The grain check: some row repeats the analytical key of another. */
  function GrainErrors(fact: seq<FactRecord>): seq<ValidationError> {
    Add([], HasGrainDuplicate(fact), GrainViolation)
  }

  /** The referential-integrity checks, products then dates then regions. */
  function ReferentialErrors(fact: seq<FactRecord>, products: seq<int>, dates: seq<int>, regions: seq<int>)
    : seq<ValidationError>
  {
    var bp := UnknownCount(fact, products, ProductKey);
    var bd := UnknownCount(fact, dates, DateKey);
    var br := UnknownCount(fact, regions, RegionKey);
    Add(Add(Add([], bp > 0, InvalidProductIds(bp)), bd > 0, InvalidDateIds(bd)), br > 0, InvalidRegionIds(br))
  }

  /** The hygiene checks: negative quantity, revenue, cost, then any null. */
  function HygieneErrors(fact: seq<FactRecord>): seq<ValidationError> {
    var e1 := Add([], AnyNegativeQuantity(fact), NegativeQuantity);
    var e2 := Add(e1, AnyNegativeRevenue(fact), NegativeRevenue);
    var e3 := Add(e2, AnyNegativeCost(fact), NegativeCost);
    Add(e3, AnyNull(fact), NullValues)
  }

  /** The errors collected, in the order the checks run. */
  function Violations(fact: seq<FactRecord>, products: seq<int>, dates: seq<int>, regions: seq<int>)
    : seq<ValidationError>
  {
    GrainErrors(fact) + ReferentialErrors(fact, products, dates, regions) + HygieneErrors(fact)
  }

  /** Grain unique, every foreign key in its dimension, no negative measure
      and no null. */
  predicate SchemaSound(fact: seq<FactRecord>, products: seq<int>, dates: seq<int>, regions: seq<int>) {
    && !HasGrainDuplicate(fact)
    && (forall i :: 0 <= i < |fact| ==> fact[i].productId in products)
    && (forall i :: 0 <= i < |fact| ==> fact[i].dateId in dates)
    && (forall i :: 0 <= i < |fact| ==> fact[i].regionId in regions)
    && (forall i :: 0 <= i < |fact| ==>
          !Negative(fact[i].quantity) && !Negative(fact[i].revenue) && !Negative(fact[i].cost))
    && (forall i :: 0 <= i < |fact| ==> !HasNull(fact[i]))
  }

  /** No error is collected exactly when the schema is sound. */
  lemma ViolationsEmpty(fact: seq<FactRecord>, products: seq<int>, dates: seq<int>, regions: seq<int>)
    ensures Violations(fact, products, dates, regions) == [] <==> SchemaSound(fact, products, dates, regions)
  {
  }

  lemma AddMembership(errors: seq<ValidationError>, fires: bool, e: ValidationError, x: ValidationError)
    ensures x in Add(errors, fires, e) <==> x in errors || (fires && x == e)
  {
  }

  /** An error is collected exactly when one of the checks fires with it. */
  lemma ViolationsMembership(fact: seq<FactRecord>, products: seq<int>, dates: seq<int>, regions: seq<int>,
                             x: ValidationError)
    ensures var bp := UnknownCount(fact, products, ProductKey);
      var bd := UnknownCount(fact, dates, DateKey);
      var br := UnknownCount(fact, regions, RegionKey);
      x in Violations(fact, products, dates, regions) <==>
        || (HasGrainDuplicate(fact) && x == GrainViolation)
        || (bp > 0 && x == InvalidProductIds(bp))
        || (bd > 0 && x == InvalidDateIds(bd))
        || (br > 0 && x == InvalidRegionIds(br))
        || (AnyNegativeQuantity(fact) && x == NegativeQuantity)
        || (AnyNegativeRevenue(fact) && x == NegativeRevenue)
        || (AnyNegativeCost(fact) && x == NegativeCost)
        || (AnyNull(fact) && x == NullValues)
  {
    var bp := UnknownCount(fact, products, ProductKey);
    var bd := UnknownCount(fact, dates, DateKey);
    var br := UnknownCount(fact, regions, RegionKey);
    AddMembership([], HasGrainDuplicate(fact), GrainViolation, x);
    var r1 := Add([], bp > 0, InvalidProductIds(bp));
    var r2 := Add(r1, bd > 0, InvalidDateIds(bd));
    AddMembership([], bp > 0, InvalidProductIds(bp), x);
    AddMembership(r1, bd > 0, InvalidDateIds(bd), x);
    AddMembership(r2, br > 0, InvalidRegionIds(br), x);
    var h1 := Add([], AnyNegativeQuantity(fact), NegativeQuantity);
    var h2 := Add(h1, AnyNegativeRevenue(fact), NegativeRevenue);
    var h3 := Add(h2, AnyNegativeCost(fact), NegativeCost);
    AddMembership([], AnyNegativeQuantity(fact), NegativeQuantity, x);
    AddMembership(h1, AnyNegativeRevenue(fact), NegativeRevenue, x);
    AddMembership(h2, AnyNegativeCost(fact), NegativeCost, x);
    AddMembership(h3, AnyNull(fact), NullValues, x);
  }

  /** Each flag error is collected exactly when its condition holds. */
  lemma ViolationsListed(fact: seq<FactRecord>, products: seq<int>, dates: seq<int>, regions: seq<int>)
    ensures var v := Violations(fact, products, dates, regions);
      && (GrainViolation in v <==> HasGrainDuplicate(fact))
      && (NegativeQuantity in v <==> AnyNegativeQuantity(fact))
      && (NegativeRevenue in v <==> AnyNegativeRevenue(fact))
      && (NegativeCost in v <==> AnyNegativeCost(fact))
      && (NullValues in v <==> AnyNull(fact))
  {
    ViolationsMembership(fact, products, dates, regions, GrainViolation);
    ViolationsMembership(fact, products, dates, regions, NegativeQuantity);
    ViolationsMembership(fact, products, dates, regions, NegativeRevenue);
    ViolationsMembership(fact, products, dates, regions, NegativeCost);
    ViolationsMembership(fact, products, dates, regions, NullValues);
  }

  /** A foreign-key error is collected exactly when some row's key is unknown,
      and it carries the number of such rows. */
  lemma ReferentialViolationsListed(fact: seq<FactRecord>, products: seq<int>, dates: seq<int>, regions: seq<int>)
    ensures var v := Violations(fact, products, dates, regions);
      && (forall n :: InvalidProductIds(n) in v <==>
            n > 0 && n == UnknownCount(fact, products, ProductKey))
      && (forall n :: InvalidDateIds(n) in v <==>
            n > 0 && n == UnknownCount(fact, dates, DateKey))
      && (forall n :: InvalidRegionIds(n) in v <==>
            n > 0 && n == UnknownCount(fact, regions, RegionKey))
  {
    forall n: nat { ViolationsMembership(fact, products, dates, regions, InvalidProductIds(n)); }
    forall n: nat { ViolationsMembership(fact, products, dates, regions, InvalidDateIds(n)); }
    forall n: nat { ViolationsMembership(fact, products, dates, regions, InvalidRegionIds(n)); }
  }

  /** The number of rows whose foreign key is unknown, by a scan. */
  method CountUnknown(fact: seq<FactRecord>, ids: seq<int>, k: ForeignKey) returns (n: nat)
    ensures n == UnknownCount(fact, ids, k)
  {
    n := 0;
    var i := 0;
    while i < |fact|
      invariant 0 <= i <= |fact|
      invariant n == UnknownCount(fact[..i], ids, k)
    {
      assert fact[..i + 1][..i] == fact[..i];
      if KeyOf(fact[i], k) !in ids {
        n := n + 1;
      }
      i := i + 1;
    }
    assert fact[..i] == fact;
  }

  /** The referential-integrity part of validate_schema. */
  method CheckReferential(fact: seq<FactRecord>, products: seq<int>, dates: seq<int>, regions: seq<int>)
    returns (errors: seq<ValidationError>)
    ensures errors == ReferentialErrors(fact, products, dates, regions)
  {
    errors := [];
    var bp := CountUnknown(fact, products, ProductKey);
    if bp > 0 {
      errors := errors + [InvalidProductIds(bp)];
    }
    var bd := CountUnknown(fact, dates, DateKey);
    if bd > 0 {
      errors := errors + [InvalidDateIds(bd)];
    }
    var br := CountUnknown(fact, regions, RegionKey);
    if br > 0 {
      errors := errors + [InvalidRegionIds(br)];
    }
  }

  /** The data-hygiene part of validate_schema. */
  method CheckHygiene(fact: seq<FactRecord>) returns (errors: seq<ValidationError>)
    ensures errors == HygieneErrors(fact)
  {
    errors := [];
    if AnyNegativeQuantity(fact) {
      errors := errors + [NegativeQuantity];
    }
    if AnyNegativeRevenue(fact) {
      errors := errors + [NegativeRevenue];
    }
    if AnyNegativeCost(fact) {
      errors := errors + [NegativeCost];
    }
    if AnyNull(fact) {
      errors := errors + [NullValues];
    }
  }

  /** validate_schema: run every check, collect the errors, and fail with all
      of them if there is any. */
  method ValidateSchema(fact: seq<FactRecord>, products: seq<int>, dates: seq<int>, regions: seq<int>)
    returns (r: Result<(), seq<ValidationError>>)
    ensures r.Ok? <==> SchemaSound(fact, products, dates, regions)
    ensures r.Err? ==> r.error == Violations(fact, products, dates, regions)
  {
    var errors: seq<ValidationError> := [];
    if HasGrainDuplicate(fact) {
      errors := errors + [GrainViolation];
    }
    var referential := CheckReferential(fact, products, dates, regions);
    errors := errors + referential;
    var hygiene := CheckHygiene(fact);
    errors := errors + hygiene;
    ViolationsEmpty(fact, products, dates, regions);
    if errors == [] {
      r := Ok(());
    } else {
      r := Err(errors);
    }
  }

  function DateIdsOf(dim: seq<DateRow>): seq<int> {
    seq(|dim|, i requires 0 <= i < |dim| => dim[i].dateId)
  }

  /** The fact table the builders produce repeats no grain. */
  lemma BuiltGrainUnique(sales: seq<SalesRow>, inv: seq<InventoryRow>)
    requires BuildDimProduct(sales, inv).Ok?
    requires BuildFactSales(sales, DimDate(sales), BuildDimProduct(sales, inv).value).Ok?
    ensures !HasGrainDuplicate(Records(BuildFactSales(sales, DimDate(sales), BuildDimProduct(sales, inv).value).value))
  {
    var dd := DimDate(sales);
    var dp := BuildDimProduct(sales, inv).value;
    var f := BuildFactSales(sales, dd, dp).value;
    var rs := Records(f);
    var keys := GrainKeys(sales);
    FactSalesRows(sales, dd, dp);
    forall i, j | 0 <= j < i < |rs| ensures GrainOf(rs[i]) != GrainOf(rs[j]) {
      assert PairLt(keys[j], keys[i]);
      if keys[i].0 == keys[j].0 {
        DateIdDistinct(sales, keys[i].1, keys[j].1);
      }
    }
  }

  /** Every row the builders produce has its keys in the dimensions. */
  lemma BuiltRowKeys(sales: seq<SalesRow>, inv: seq<InventoryRow>, i: int)
    requires BuildDimProduct(sales, inv).Ok?
    requires BuildFactSales(sales, DimDate(sales), BuildDimProduct(sales, inv).value).Ok?
    requires 0 <= i < |BuildFactSales(sales, DimDate(sales), BuildDimProduct(sales, inv).value).value|
    ensures var dp := BuildDimProduct(sales, inv).value;
      var r := BuildFactSales(sales, DimDate(sales), dp).value[i];
      && r.productId in ProductIdsOf(dp)
      && r.dateId in DateIdsOf(DimDate(sales))
      && r.regionId in DimRegionIds
  {
    var dd := DimDate(sales);
    var dp := BuildDimProduct(sales, inv).value;
    var f := BuildFactSales(sales, dd, dp).value;
    var keys := GrainKeys(sales);
    FactSalesRows(sales, dd, dp);
    var q :| 0 <= q < |dp| && dp[q].productId == keys[i].0 && dp[q].unitCost == UnitCostOf(dp, keys[i].0).value;
    assert ProductIdsOf(dp)[q] == f[i].productId;
    var t :| 0 <= t < |dd| && dd[t].date == keys[i].1 && dd[t].dateId == f[i].dateId;
    assert DateIdsOf(dd)[t] == f[i].dateId;
  }

  /** The product dimension carries no negative unit cost when the listed
      unit costs are non-negative. */
  lemma DimProductCostsNonNegative(sales: seq<SalesRow>, inv: seq<InventoryRow>)
    requires forall i :: 0 <= i < |inv| ==> inv[i].unitCost.Some? ==> inv[i].unitCost.value >= 0.0
    requires BuildDimProduct(sales, inv).Ok?
    ensures forall q :: 0 <= q < |BuildDimProduct(sales, inv).value| ==>
      BuildDimProduct(sales, inv).value[q].unitCost >= 0.0
  {
    var dp := BuildDimProduct(sales, inv).value;
    DimProductRows(sales, inv);
    forall q | 0 <= q < |dp| ensures dp[q].unitCost >= 0.0 {
      var c :| InventoryRow(dp[q].productId, c) in inv && dp[q].unitCost == FillZero(c);
    }
  }

  /** Every row the builders produce has non-negative measures when sales
      quantities and revenues and the listed unit costs are non-negative. */
  lemma BuiltRowMeasures(sales: seq<SalesRow>, inv: seq<InventoryRow>, i: int)
    requires forall i :: 0 <= i < |sales| ==> sales[i].quantity >= 0.0 && sales[i].revenue >= 0.0
    requires forall i :: 0 <= i < |inv| ==> inv[i].unitCost.Some? ==> inv[i].unitCost.value >= 0.0
    requires BuildDimProduct(sales, inv).Ok?
    requires BuildFactSales(sales, DimDate(sales), BuildDimProduct(sales, inv).value).Ok?
    requires 0 <= i < |BuildFactSales(sales, DimDate(sales), BuildDimProduct(sales, inv).value).value|
    ensures var r := BuildFactSales(sales, DimDate(sales), BuildDimProduct(sales, inv).value).value[i];
      r.quantity >= 0.0 && r.revenue >= 0.0 && r.cost >= 0.0
  {
    var dd := DimDate(sales);
    var dp := BuildDimProduct(sales, inv).value;
    var f := BuildFactSales(sales, dd, dp).value;
    var keys := GrainKeys(sales);
    DimProductCostsNonNegative(sales, inv);
    FactSalesRows(sales, dd, dp);
    var u := UnitCostOf(dp, keys[i].0).value;
    assert u >= 0.0;
    assert f[i].quantity >= 0.0;
    assert f[i].cost == f[i].quantity * u;
  }

  /** The builders' output always passes validation when sales quantities and
      revenues and the listed unit costs are non-negative. */
  lemma BuiltSchemaIsSound(sales: seq<SalesRow>, inv: seq<InventoryRow>)
    requires forall i :: 0 <= i < |sales| ==> sales[i].quantity >= 0.0 && sales[i].revenue >= 0.0
    requires forall i :: 0 <= i < |inv| ==> inv[i].unitCost.Some? ==> inv[i].unitCost.value >= 0.0
    requires BuildDimProduct(sales, inv).Ok?
    requires BuildFactSales(sales, DimDate(sales), BuildDimProduct(sales, inv).value).Ok?
    ensures var dp := BuildDimProduct(sales, inv).value;
      var f := BuildFactSales(sales, DimDate(sales), dp).value;
      Violations(Records(f), ProductIdsOf(dp), DateIdsOf(DimDate(sales)), DimRegionIds) == []
  {
    var dd := DimDate(sales);
    var dp := BuildDimProduct(sales, inv).value;
    var f := BuildFactSales(sales, dd, dp).value;
    var rs := Records(f);
    ViolationsEmpty(rs, ProductIdsOf(dp), DateIdsOf(dd), DimRegionIds);
    BuiltGrainUnique(sales, inv);
    forall i | 0 <= i < |rs|
      ensures rs[i].productId in ProductIdsOf(dp)
      ensures rs[i].dateId in DateIdsOf(dd)
      ensures rs[i].regionId in DimRegionIds
      ensures !Negative(rs[i].quantity) && !Negative(rs[i].revenue) && !Negative(rs[i].cost)
      ensures !HasNull(rs[i])
    {
      BuiltRowKeys(sales, inv, i);
      BuiltRowMeasures(sales, inv, i);
    }
  }
}
