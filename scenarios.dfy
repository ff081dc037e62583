/** Scenario what-if layer: one scenario applied to one product's four-week
    forecast, the ordering of all results, and the per-product expansion over
    the fixed scenario list. */
module Scenarios {
  import opened Common
  import opened Ordering

  const LowStockShare: real := 0.2
  const BasePrice: real := 100.0
  const CostPerUnit: real := 60.0
  /** Stock assumed when the inventory has no row (or no stock column) for a product. */
  const FallbackStock: real := 1000.0
  const Weeks: nat := 4

  // ---------------------------------------------------------------------------
  // One scenario
  // ---------------------------------------------------------------------------

  /** A scenario's variables; an absent key is `None`. */
  datatype Variables = Variables(demandMult: Option<real>, priceMult: Option<real>, supplyAdd: Option<real>)

  datatype ProductData = ProductData(weeklyQuantities: seq<real>, currentStock: real,
                                     basePrice: real, costPerUnit: real)

  datatype StockStatus = OutOfStock | LowStock | SafeStock

  datatype RiskLevel = High | Medium | Low

  datatype Outcome = Outcome(expectedProfit: real, totalSales: real, remainingStock: real,
                             stockStatus: StockStatus, riskLevel: RiskLevel)

  function Scaled(s: seq<real>, c: real): (r: seq<real>)
    ensures |r| == |s|
    ensures forall i :: 0 <= i < |r| ==> r[i] == s[i] * c
  {
    seq(|s|, i requires 0 <= i < |s| => s[i] * c)
  }

  lemma {:induction false} SumScaled(s: seq<real>, c: real)
    ensures Sum(Scaled(s, c)) == Sum(s) * c
    decreases |s|
  {
    if s != [] {
      var init := s[..|s| - 1];
      forall i | 0 <= i < |init| ensures Scaled(s, c)[..|s| - 1][i] == Scaled(init, c)[i] {
      }
      assert Scaled(s, c)[..|s| - 1] == Scaled(init, c);
      SumScaled(init, c);
    }
  }

  /** The stock rule on the stock left after the scenario's sales. */
  function StatusOf(remaining: real, totalSales: real): StockStatus {
    if remaining < 0.0 then OutOfStock
    else if remaining < totalSales * LowStockShare then LowStock
    else SafeStock
  }

  function RiskOf(status: StockStatus): RiskLevel {
    match status
    case OutOfStock => High
    case LowStock => Medium
    case SafeStock => Low
  }

  /** Scaled price minus unit cost. */
  function UnitMargin(p: ProductData, priceMult: real): real {
    p.basePrice * priceMult - p.costPerUnit
  }

  /** `simulate_scenario` (values are not rounded to cents here). */
  function SimulateScenario(p: ProductData, v: Variables): (o: Outcome)
    ensures o.remainingStock >= 0.0
  {
    var demandMult := v.demandMult.GetOr(1.0);
    var priceMult := v.priceMult.GetOr(1.0);
    var supplyAdd := v.supplyAdd.GetOr(0.0);
    var forecastQty := Scaled(p.weeklyQuantities, demandMult);
    var totalSales := Sum(forecastQty);
    var expectedProfit := Sum(Scaled(forecastQty, UnitMargin(p, priceMult)));
    var remaining := p.currentStock + supplyAdd - totalSales;
    var status := StatusOf(remaining, totalSales);
    Outcome(expectedProfit, totalSales, Max(0.0, remaining), status, RiskOf(status))
  }

  /** Sales are the demand multiplier times the forecast total, profit is
      sales times the unit margin at the scaled price, and the remaining stock
      is what is left after the sales, floored at zero. */
  lemma SimulateScenarioTotals(p: ProductData, v: Variables)
    ensures SimulateScenario(p, v).totalSales == v.demandMult.GetOr(1.0) * Sum(p.weeklyQuantities)
    ensures SimulateScenario(p, v).expectedProfit ==
              SimulateScenario(p, v).totalSales * (p.basePrice * v.priceMult.GetOr(1.0) - p.costPerUnit)
    ensures SimulateScenario(p, v).remainingStock ==
              Max(0.0, p.currentStock + v.supplyAdd.GetOr(0.0) - SimulateScenario(p, v).totalSales)
  {
    var dm := v.demandMult.GetOr(1.0);
    var margin := UnitMargin(p, v.priceMult.GetOr(1.0));
    var fq := Scaled(p.weeklyQuantities, dm);
    SumScaled(p.weeklyQuantities, dm);
    SumScaled(fq, margin);
    assert SimulateScenario(p, v).totalSales == Sum(fq);
    assert SimulateScenario(p, v).expectedProfit == Sum(Scaled(fq, margin));
  }

  /** The stock rule in terms of what is available and what is sold:
      Out of Stock / High when sales exceed stock plus supply, Low Stock /
      Medium when less than 20% of sales would be left, else Safe / Low. */
  lemma SimulateScenarioStatus(p: ProductData, v: Variables)
    ensures SimulateScenario(p, v).riskLevel == High <==>
              p.currentStock + v.supplyAdd.GetOr(0.0) < SimulateScenario(p, v).totalSales
    ensures SimulateScenario(p, v).riskLevel == Medium <==>
              SimulateScenario(p, v).totalSales <= p.currentStock + v.supplyAdd.GetOr(0.0) <
              SimulateScenario(p, v).totalSales * (1.0 + LowStockShare)
    ensures SimulateScenario(p, v).riskLevel == Low <==>
              p.currentStock + v.supplyAdd.GetOr(0.0) >= SimulateScenario(p, v).totalSales &&
              p.currentStock + v.supplyAdd.GetOr(0.0) >= SimulateScenario(p, v).totalSales * (1.0 + LowStockShare)
    ensures var o := SimulateScenario(p, v);
      (o.stockStatus == OutOfStock <==> o.riskLevel == High) &&
      (o.stockStatus == LowStock <==> o.riskLevel == Medium) &&
      (o.stockStatus == SafeStock <==> o.riskLevel == Low)
  {
    var o := SimulateScenario(p, v);
    var available := p.currentStock + v.supplyAdd.GetOr(0.0);
    var remaining := available - o.totalSales;
    assert o.stockStatus == OutOfStock <==> remaining < 0.0;
    assert o.stockStatus == LowStock <==> 0.0 <= remaining < o.totalSales * LowStockShare;
    assert o.totalSales * (1.0 + LowStockShare) == o.totalSales + o.totalSales * LowStockShare;
  }

  /** Missing variables are those of the base case. */
  lemma DefaultsAreBaseCase(p: ProductData)
    ensures SimulateScenario(p, Variables(None, None, None)) == SimulateScenario(p, ScenarioList[0].variables)
  {
  }

  // ---------------------------------------------------------------------------
  // Comparison
  // ---------------------------------------------------------------------------

  datatype ScenarioRow = ScenarioRow(productId: int, scenarioName: string, outcome: Outcome)

  function RiskLabel(l: RiskLevel): string {
    match l
    case High => "High"
    case Medium => "Medium"
    case Low => "Low"
  }

  /** Position of a level in ascending string order: "High" < "Low" < "Medium". */
  function LabelRank(l: RiskLevel): nat {
    match l
    case High => 0
    case Low => 1
    case Medium => 2
  }

  lemma LabelRankIsStringOrder(a: RiskLevel, b: RiskLevel)
    ensures LabelRank(a) < LabelRank(b) <==> StrLt(RiskLabel(a), RiskLabel(b))
  {
    var x, y := RiskLabel(a), RiskLabel(b);
    if a == b {
      StrLtIrreflexive(x);
    } else {
      assert x[0] != y[0];
    }
  }

  /** Profit descending, then risk level ascending as strings. */
  predicate ScenarioBefore(a: ScenarioRow, b: ScenarioRow) {
    a.outcome.expectedProfit > b.outcome.expectedProfit ||
    (a.outcome.expectedProfit == b.outcome.expectedProfit &&
     LabelRank(a.outcome.riskLevel) <= LabelRank(b.outcome.riskLevel))
  }

  lemma ScenarioBeforeTotal()
    ensures TotalPreorder(ScenarioBefore)
  {
  }

  function CompareScenarios(rows: seq<ScenarioRow>): (r: seq<ScenarioRow>)
    ensures multiset(r) == multiset(rows)
  {
    if rows == [] then rows else SortBy(rows, ScenarioBefore)
  }

  lemma CompareScenariosSorted(rows: seq<ScenarioRow>)
    ensures SortedBy(CompareScenarios(rows), ScenarioBefore)
  {
    ScenarioBeforeTotal();
    SortBySorted(rows, ScenarioBefore);
  }

  // ---------------------------------------------------------------------------
  // Expansion over products and scenarios
  // ---------------------------------------------------------------------------

  datatype Scenario = Scenario(name: string, variables: Variables)

  const ScenarioList: seq<Scenario> := [
    Scenario("Base Case", Variables(Some(1.0), Some(1.0), Some(0.0))),
    Scenario("Optimistic Demand", Variables(Some(1.2), Some(1.1), Some(0.0))),
    Scenario("Pessimistic Demand", Variables(Some(0.8), Some(0.9), Some(0.0))),
    Scenario("Price Promotion", Variables(Some(1.3), Some(0.85), Some(100.0))),
    Scenario("Supply Boost", Variables(Some(1.0), Some(1.0), Some(200.0)))
  ]

  /** A row of the forecast output. */
  datatype ForecastRow = ForecastRow(productId: int, week: int, quantity: real)

  /** A row of the inventory view; a missing `stock_on_hand` column is handled
      by the caller's flag. */
  datatype InventoryRow = InventoryRow(productId: int, stockOnHand: real)

  datatype ScenarioError = MissingRequiredColumns(missing: seq<string>) | MissingWeekColumn(week: int)

  /** The columns the forecast file must have. */
  const ForecastRequired: seq<string> := ["product_id", "forecast_week", "forecast_quantity"]

  /** The `(product_id, forecast_week)` group sum. */
  function WeekTotal(rows: seq<ForecastRow>, pid: int, week: int): real {
    if rows == [] then 0.0
    else
      var last := rows[|rows| - 1];
      WeekTotal(rows[..|rows| - 1], pid, week) + (if last.productId == pid && last.week == week then last.quantity else 0.0)
  }

  function WeeklyQuantities(rows: seq<ForecastRow>, pid: int): (q: seq<real>)
    ensures |q| == Weeks
  {
    seq(Weeks, w => WeekTotal(rows, pid, w + 1))
  }

  function ProductIds(rows: seq<ForecastRow>): seq<int> {
    Ids(rows, |rows|)
  }

  function Ids(rows: seq<ForecastRow>, n: nat): (ids: seq<int>)
    requires n <= |rows|
    ensures |ids| == n
    ensures forall i :: 0 <= i < n ==> ids[i] == rows[i].productId
  {
    if n == 0 then [] else Ids(rows, n - 1) + [rows[n - 1].productId]
  }

  /** The first inventory stock of a product, or the fallback. */
  function StockOf(inventory: seq<InventoryRow>, hasStockColumn: bool, pid: int): real {
    if !hasStockColumn || inventory == [] then FallbackStock
    else if inventory[0].productId == pid then inventory[0].stockOnHand
    else StockOf(inventory[1..], hasStockColumn, pid)
  }

  function ScenarioRowOf(pid: int, data: ProductData, s: Scenario): ScenarioRow {
    ScenarioRow(pid, s.name, SimulateScenario(data, s.variables))
  }

  function DataOf(rows: seq<ForecastRow>, inventory: seq<InventoryRow>, hasStockColumn: bool, pid: int): ProductData {
    ProductData(WeeklyQuantities(rows, pid), StockOf(inventory, hasStockColumn, pid), BasePrice, CostPerUnit)
  }

  /** All results, product by product and scenario by scenario. */
  function Expand(pids: seq<int>, rows: seq<ForecastRow>, inventory: seq<InventoryRow>, hasStockColumn: bool): (r: seq<ScenarioRow>)
    ensures |r| == |ScenarioList| * |pids|
  {
    if pids == [] then []
    else
      var pid := pids[|pids| - 1];
      var data := DataOf(rows, inventory, hasStockColumn, pid);
      Expand(pids[..|pids| - 1], rows, inventory, hasStockColumn) +
        seq(|ScenarioList|, s requires 0 <= s < |ScenarioList| => ScenarioRowOf(pid, data, ScenarioList[s]))
  }

  /** Row 5p + s of the results is scenario s applied to product p. */
  lemma {:induction false} ExpandIndex(pids: seq<int>, rows: seq<ForecastRow>, inventory: seq<InventoryRow>,
                                       hasStockColumn: bool, p: int, s: int)
    requires 0 <= p < |pids| && 0 <= s < |ScenarioList|
    ensures Expand(pids, rows, inventory, hasStockColumn)[|ScenarioList| * p + s] ==
              ScenarioRowOf(pids[p], DataOf(rows, inventory, hasStockColumn, pids[p]), ScenarioList[s])
  {
    if p < |pids| - 1 {
      ExpandIndex(pids[..|pids| - 1], rows, inventory, hasStockColumn, p, s);
    }
  }

  /** Some forecast row falls in week k. */
  predicate HasWeek(rows: seq<ForecastRow>, k: int) {
    exists i :: 0 <= i < |rows| && rows[i].week == k
  }

  /** The first of weeks w..4 that no forecast row falls in. */
  function FirstMissingWeek(rows: seq<ForecastRow>, w: nat): (r: Option<int>)
    requires 1 <= w <= Weeks + 1
    ensures r.None? <==> forall k :: w <= k <= Weeks ==> HasWeek(rows, k)
    ensures r.Some? ==> w <= r.value <= Weeks && !HasWeek(rows, r.value)
    decreases Weeks + 1 - w
  {
    if w > Weeks then None
    else if !HasWeek(rows, w) then Some(w)
    else FirstMissingWeek(rows, w + 1)
  }

  /** What `run_scenario_analysis` produces once its inputs are loaded: the
      three required columns must be present; a table without rows runs the
      product loop zero times and gives the empty report; otherwise the
      `forecast_week_1..4` columns must exist after unstacking. */
  function ScenarioSpec(columns: seq<string>, rows: seq<ForecastRow>, inventory: seq<InventoryRow>, hasStockColumn: bool)
    : Result<seq<ScenarioRow>, ScenarioError>
  {
    var missingColumns := MissingFrom(ForecastRequired, columns);
    var missing := FirstMissingWeek(rows, 1);
    if missingColumns != [] then Err(MissingRequiredColumns(missingColumns))
    else if rows == [] then Ok([])
    else if missing.Some? then Err(MissingWeekColumn(missing.value))
    else
      var pids := SortedSet(ProductIds(rows), IntLt);
      Ok(CompareScenarios(Expand(pids, rows, inventory, hasStockColumn)))
  }

  method RunScenarioAnalysis(columns: seq<string>, rows: seq<ForecastRow>, inventory: seq<InventoryRow>, hasStockColumn: bool)
    returns (r: Result<seq<ScenarioRow>, ScenarioError>)
    ensures r == ScenarioSpec(columns, rows, inventory, hasStockColumn)
  {
    var missingColumns := MissingFrom(ForecastRequired, columns);
    if missingColumns != [] {
      return Err(MissingRequiredColumns(missingColumns));
    }
    if rows == [] {
      return Ok([]);
    }
    var missing := FirstMissingWeek(rows, 1);
    if missing.Some? {
      return Err(MissingWeekColumn(missing.value));
    }
    var pids := SortedSet(ProductIds(rows), IntLt);
    var allResults: seq<ScenarioRow> := [];
    var k := 0;
    while k < |pids|
      invariant 0 <= k <= |pids|
      invariant allResults == Expand(pids[..k], rows, inventory, hasStockColumn)
    {
      var pid := pids[k];
      var data := DataOf(rows, inventory, hasStockColumn, pid);
      var block := ProductScenarios(pid, data);
      allResults := allResults + block;
      assert pids[..k + 1][..k] == pids[..k];
      k := k + 1;
    }
    assert pids[..|pids|] == pids;
    r := Ok(CompareScenarios(allResults));
  }

  /** The inner loop: the five scenarios, in list order, for one product. */
  method ProductScenarios(pid: int, data: ProductData) returns (out: seq<ScenarioRow>)
    ensures out == seq(|ScenarioList|, j requires 0 <= j < |ScenarioList| => ScenarioRowOf(pid, data, ScenarioList[j]))
  {
    out := [];
    var s := 0;
    while s < |ScenarioList|
      invariant 0 <= s <= |ScenarioList|
      invariant out == seq(s, j requires 0 <= j < s => ScenarioRowOf(pid, data, ScenarioList[j]))
    {
      var scen := ScenarioList[s];
      var result := SimulateScenario(data, scen.variables);
      out := out + [ScenarioRow(pid, scen.name, result)];
      s := s + 1;
    }
  }

  /** The run reports the absent required columns, in order, exactly when one
      is absent; with all three present an empty table gives the empty
      report and a week column is only demanded of a non-empty table. */
  lemma ScenarioSpecErrors(columns: seq<string>, rows: seq<ForecastRow>, inventory: seq<InventoryRow>, hasStockColumn: bool)
    ensures var r := ScenarioSpec(columns, rows, inventory, hasStockColumn);
      && (r.Err? && r.error.MissingRequiredColumns? <==> exists c :: c in ForecastRequired && c !in columns)
      && (r.Err? && r.error.MissingRequiredColumns? ==>
            forall c :: c in r.error.missing <==> c in ForecastRequired && c !in columns)
      && ((forall c :: c in ForecastRequired ==> c in columns) && rows == [] ==> r == Ok([]))
      && (r.Err? && r.error.MissingWeekColumn? <==>
            (forall c :: c in ForecastRequired ==> c in columns) && rows != [] &&
            exists k :: 1 <= k <= Weeks && !HasWeek(rows, k))
  {
    MissingFromMeaning(ForecastRequired, columns);
  }

  /** Every product of the forecast gets exactly one row per scenario. */
  lemma {:induction false} ScenarioCoverage(columns: seq<string>, rows: seq<ForecastRow>, inventory: seq<InventoryRow>, hasStockColumn: bool)
    requires ScenarioSpec(columns, rows, inventory, hasStockColumn).Ok?
    ensures var out := ScenarioSpec(columns, rows, inventory, hasStockColumn).value;
      var pids := SortedSet(ProductIds(rows), IntLt);
      |out| == |ScenarioList| * |pids| &&
      multiset(out) == multiset(Expand(pids, rows, inventory, hasStockColumn)) &&
      SortedBy(out, ScenarioBefore) &&
      (forall i :: 0 <= i < |rows| ==> rows[i].productId in pids) &&
      StrictlySorted(pids, IntLt)
  {
    IntLtStrictTotal();
    SortedSetSorted(ProductIds(rows), IntLt);
    var pids := SortedSet(ProductIds(rows), IntLt);
    CompareScenariosSorted(Expand(pids, rows, inventory, hasStockColumn));
    forall i | 0 <= i < |rows| ensures rows[i].productId in pids {
      assert ProductIds(rows)[i] == rows[i].productId;
    }
  }
}
