/** KPI layer: 0-100 normalisation, first-match column resolution, the
    inventory-risk, demand-pressure and profitability formulas, the
    intervention flag and the final ordering of `run_kpi_layer`. */
module Kpis {
  import opened Common
  import opened Ordering

  const RiskThreshold: real := 70.0
  const PressureThreshold: real := 75.0
  const ProfitThreshold: real := 40.0
  const RiskWeight: real := 0.6
  const OperationalWeight: real := 0.4

  const ForecastCandidates: seq<string> := ["forecast_quantity", "predicted_demand", "mean_forecast"]
  const StockCandidates: seq<string> := ["stock_on_hand", "on_hand_quantity", "quantity", "current_stock", "stock"]
  const ProfitCandidates: seq<string> := ["profit", "expected_profit", "expected_profit_mean", "profit_mean"]
  const PriceCandidates: seq<string> := ["unit_price", "price", "selling_price"]
  const CostCandidates: seq<string> := ["unit_cost", "cost", "buying_price"]
  /** The column name used when no forecast column resolves. */
  const DefaultForecastColumn: string := "forecast_quantity"
  const StockRatioColumn: string := "stock_ratio"
  const RiskScoreColumn: string := "risk_score"

  // ---------------------------------------------------------------------------
  // Helpers
  // ---------------------------------------------------------------------------

  /** `_resolve_column`: the first candidate that is a column, if any. */
  function ResolveColumn(columns: seq<string>, candidates: seq<string>): (r: Option<string>)
    ensures r.None? <==> forall c :: c in candidates ==> c !in columns
    ensures r.Some? ==> (r.value in columns &&
              exists i :: 0 <= i < |candidates| && candidates[i] == r.value &&
                forall j :: 0 <= j < i ==> candidates[j] !in columns)
  {
    if candidates == [] then None
    else if candidates[0] in columns then Some(candidates[0])
    else
      var r := ResolveColumn(columns, candidates[1..]);
      if r.Some? then
        var i :| 0 <= i < |candidates[1..]| && candidates[1..][i] == r.value &&
                 forall j :: 0 <= j < i ==> candidates[1..][j] !in columns;
        assert candidates[i + 1] == r.value;
        r
      else r
  }

  function Scale(x: real, lo: real, hi: real): real
    requires lo < hi
  {
    (x - lo) / (hi - lo) * 100.0
  }

  /** `_normalize_0_100` of a column without missing values (every caller fills
      its column first). */
  function Normalize(xs: seq<real>): (r: seq<real>)
    ensures |r| == |xs|
  {
    if xs == [] then []
    else
      var lo, hi := MinOf(xs), MaxOf(xs);
      if hi == lo then seq(|xs|, i => 0.0)
      else seq(|xs|, i requires 0 <= i < |xs| => Scale(xs[i], lo, hi))
  }

  lemma ScaleRange(x: real, lo: real, hi: real)
    requires lo <= x <= hi && lo < hi
    ensures 0.0 <= Scale(x, lo, hi) <= 100.0
    ensures x == lo ==> Scale(x, lo, hi) == 0.0
    ensures x == hi ==> Scale(x, lo, hi) == 100.0
  {
    assert (x - lo) / (hi - lo) <= (hi - lo) / (hi - lo);
  }

  lemma ScaleMonotone(x: real, y: real, lo: real, hi: real)
    requires lo < hi && x <= y
    ensures Scale(x, lo, hi) <= Scale(y, lo, hi)
  {
    var d := hi - lo;
    assert (x - lo) / d <= (y - lo) / d;
  }

  /** All values equal gives zeros; otherwise every value lies in [0, 100], the
      minimum maps to 0 and the maximum to 100. */
  lemma NormalizeRange(xs: seq<real>)
    requires |xs| > 0
    ensures MinOf(xs) == MaxOf(xs) ==> forall i :: 0 <= i < |xs| ==> Normalize(xs)[i] == 0.0
    ensures forall i :: 0 <= i < |xs| ==> 0.0 <= Normalize(xs)[i] <= 100.0
    ensures MinOf(xs) != MaxOf(xs) ==> forall i :: 0 <= i < |xs| ==>
              (xs[i] == MinOf(xs) ==> Normalize(xs)[i] == 0.0) &&
              (xs[i] == MaxOf(xs) ==> Normalize(xs)[i] == 100.0)
  {
    var lo, hi := MinOf(xs), MaxOf(xs);
    if lo != hi {
      forall i | 0 <= i < |xs|
        ensures 0.0 <= Normalize(xs)[i] <= 100.0
        ensures xs[i] == lo ==> Normalize(xs)[i] == 0.0
        ensures xs[i] == hi ==> Normalize(xs)[i] == 100.0
      {
        ScaleRange(xs[i], lo, hi);
      }
    }
  }

  /** Normalisation keeps the order of the values. */
  lemma NormalizeMonotone(xs: seq<real>, i: int, j: int)
    requires 0 <= i < |xs| && 0 <= j < |xs| && xs[i] <= xs[j]
    ensures Normalize(xs)[i] <= Normalize(xs)[j]
  {
    var lo, hi := MinOf(xs), MaxOf(xs);
    if lo != hi {
      assert lo <= xs[0] <= hi;
      ScaleMonotone(xs[i], xs[j], lo, hi);
    }
  }

  // ---------------------------------------------------------------------------
  // KPI formulas on one row
  // ---------------------------------------------------------------------------

  /** Raw inventory risk: weighted model risk plus operational risk
      1 / (1 + stock_ratio). */
  function RawInventoryRisk(riskScore: real, stockRatio: real): real
    requires stockRatio >= 0.0
  {
    RiskWeight * riskScore + OperationalWeight * (1.0 / (1.0 + stockRatio))
  }

  /** The operational part lies in (0, 0.4] and shrinks as coverage grows. */
  lemma RawInventoryRiskBounds(riskScore: real, r1: real, r2: real)
    requires 0.0 <= r1 <= r2
    ensures RiskWeight * riskScore < RawInventoryRisk(riskScore, r1) <= RiskWeight * riskScore + OperationalWeight
    ensures RawInventoryRisk(riskScore, r2) <= RawInventoryRisk(riskScore, r1)
  {
    assert 1.0 / (1.0 + r2) <= 1.0 / (1.0 + r1);
    assert 1.0 / (1.0 + r1) <= 1.0;
  }

  /** Raw demand pressure: forecast / stock, where a zero stock has already been
      replaced by NaN and the resulting NaN is filled with 0. */
  function RawPressure(forecast: real, stock: Option<real>): real {
    if stock.None? || stock.value == 0.0 then 0.0 else forecast / stock.value
  }

  lemma RawPressureCases(forecast: real, stock: Option<real>)
    ensures stock.None? || stock == Some(0.0) ==> RawPressure(forecast, stock) == 0.0
    ensures stock.Some? && stock.value != 0.0 ==> RawPressure(forecast, stock) * stock.value == forecast
  {
  }

  /** "Requires Intervention": risky or pressured, and profitable. */
  predicate RequiresIntervention(inventoryRisk: real, pressure: real, margin: real) {
    (inventoryRisk >= RiskThreshold || pressure >= PressureThreshold) && margin >= ProfitThreshold
  }

  /** Raising any of the three KPIs never clears the flag; a margin below 40,
      or risk below 70 together with pressure below 75, always means Safe. */
  lemma InterventionMonotone(r1: real, p1: real, m1: real, r2: real, p2: real, m2: real)
    requires r1 <= r2 && p1 <= p2 && m1 <= m2
    ensures RequiresIntervention(r1, p1, m1) ==> RequiresIntervention(r2, p2, m2)
    ensures m1 < ProfitThreshold ==> !RequiresIntervention(r1, p1, m1)
    ensures r1 < RiskThreshold && p1 < PressureThreshold ==> !RequiresIntervention(r1, p1, m1)
  {
  }

  // ---------------------------------------------------------------------------
  // The frame of `run_kpi_layer`
  // ---------------------------------------------------------------------------

  /** One merged row: the inventory-view cells (from which the stock column is
      resolved) and the cells merged in from features, forecast and risk (an
      absent cell, a NaN and a failed numeric conversion are all `None`). */
  datatype MergedRow = MergedRow(productId: int, inventory: map<string, Option<real>>,
                                 merged: map<string, Option<real>>)

  function Cell(cells: map<string, Option<real>>, column: string): Option<real> {
    if column in cells then cells[column] else None
  }

  /** Where the profit values come from. */
  datatype ProfitSource = Direct(column: string) | Computed(price: Option<string>, cost: Option<string>)

  /** The columns the layer resolved. */
  datatype Columns = Columns(stock: string, forecast: string, profit: ProfitSource)

  /** The stock column does not resolve (step 4), or `fillna` in step 7
      reads a column that no merged table brought in. */
  datatype KpiError = StockColumnNotResolved | MissingMergedColumn(column: string)

  function ResolveColumns(forecastColumns: seq<string>, inventoryColumns: seq<string>,
                          riskColumns: seq<string>, mergedColumns: seq<string>): (r: Result<Columns, KpiError>)
    ensures r.Err? <==> forall c :: c in StockCandidates ==> c !in inventoryColumns
    ensures r.Ok? ==> (r.value.profit.Computed? <==> forall c :: c in ProfitCandidates ==> c !in riskColumns)
  {
    var stock := ResolveColumn(inventoryColumns, StockCandidates);
    if stock.None? then Err(StockColumnNotResolved)
    else
      var forecast := ResolveColumn(forecastColumns, ForecastCandidates).GetOr(DefaultForecastColumn);
      var profit := ResolveColumn(riskColumns, ProfitCandidates);
      Ok(Columns(stock.value, forecast,
                 if profit.Some? then Direct(profit.value)
                 else Computed(ResolveColumn(mergedColumns, PriceCandidates),
                               ResolveColumn(mergedColumns, CostCandidates))))
  }

  /** A row's profit before `fillna(0)`: the resolved risk column, or price -
      cost when both resolve (NaN if either cell is), or 0. */
  function ProfitCell(row: MergedRow, source: ProfitSource): Option<real> {
    match source
    case Direct(c) => Cell(row.merged, c)
    case Computed(p, c) =>
      if p.Some? && c.Some? then
        var price, cost := Cell(row.merged, p.value), Cell(row.merged, c.value);
        if price.Some? && cost.Some? then Some(price.value - cost.value) else None
      else Some(0.0)
  }

  /** The numeric columns after step 7 of the layer. */
  datatype Prepared = Prepared(productId: int, stock: Option<real>, stockRatio: real,
                               riskScore: real, forecast: real, profit: real)

  /** The upstream guarantee on the merged stock ratios: features rejects a
      negative ratio. */
  predicate RatiosNonNegative(rows: seq<MergedRow>) {
    forall i :: 0 <= i < |rows| ==> FillZero(Cell(rows[i].merged, StockRatioColumn)) >= 0.0
  }

  function Prepare(row: MergedRow, cols: Columns): (p: Prepared)
    ensures p.stock.Some? ==> p.stock.value != 0.0
  {
    var stock := Cell(row.inventory, cols.stock);
    Prepared(row.productId,
             if stock == Some(0.0) then None else stock,
             FillZero(Cell(row.merged, StockRatioColumn)),
             FillZero(Cell(row.merged, RiskScoreColumn)),
             FillZero(Cell(row.merged, cols.forecast)),
             FillZero(ProfitCell(row, cols.profit)))
  }

  datatype Decision = RequiresInterventionFlag | Safe

  datatype KpiRow = KpiRow(productId: int, inventoryRiskScore: real, demandPressureIndex: real,
                           profitabilityMargin: real, decisionFlag: Decision)

  function InventoryRiskColumn(ps: seq<Prepared>): (r: seq<real>)
    requires forall i :: 0 <= i < |ps| ==> ps[i].stockRatio >= 0.0
    ensures |r| == |ps|
  {
    Normalize(seq(|ps|, i requires 0 <= i < |ps| => RawInventoryRisk(ps[i].riskScore, ps[i].stockRatio)))
  }

  function PressureColumn(ps: seq<Prepared>): (r: seq<real>)
    ensures |r| == |ps|
  {
    Normalize(seq(|ps|, i requires 0 <= i < |ps| => RawPressure(ps[i].forecast, ps[i].stock)))
  }

  function MarginColumn(ps: seq<Prepared>): (r: seq<real>)
    ensures |r| == |ps|
  {
    Normalize(seq(|ps|, i requires 0 <= i < |ps| => ps[i].profit))
  }

  function Decide(irs: real, dpi: real, pm: real): (d: Decision)
    ensures d == RequiresInterventionFlag <==> RequiresIntervention(irs, dpi, pm)
  {
    if (irs >= RiskThreshold || dpi >= PressureThreshold) && pm >= ProfitThreshold then RequiresInterventionFlag else Safe
  }

  /** Descending by inventory risk, then descending by demand pressure. */
  predicate KpiBefore(a: KpiRow, b: KpiRow) {
    a.inventoryRiskScore > b.inventoryRiskScore ||
    (a.inventoryRiskScore == b.inventoryRiskScore && a.demandPressureIndex >= b.demandPressureIndex)
  }

  lemma KpiBeforeTotal()
    ensures TotalPreorder(KpiBefore)
  {
  }

  function KpiRows(ps: seq<Prepared>): (r: seq<KpiRow>)
    requires forall i :: 0 <= i < |ps| ==> ps[i].stockRatio >= 0.0
    ensures |r| == |ps|
  {
    var irs, dpi, pm := InventoryRiskColumn(ps), PressureColumn(ps), MarginColumn(ps);
    seq(|ps|, i requires 0 <= i < |ps| => KpiRow(ps[i].productId, irs[i], dpi[i], pm[i], Decide(irs[i], dpi[i], pm[i])))
  }

  function PrepareAll(rows: seq<MergedRow>, cols: Columns): (ps: seq<Prepared>)
    requires RatiosNonNegative(rows)
    ensures |ps| == |rows|
    ensures forall i :: 0 <= i < |ps| ==> ps[i] == Prepare(rows[i], cols) && ps[i].stockRatio >= 0.0
  {
    seq(|rows|, i requires 0 <= i < |rows| => Prepare(rows[i], cols))
  }

  /** What `run_kpi_layer` produces from the loaded tables. */
  function KpiSpec(forecastColumns: seq<string>, inventoryColumns: seq<string>, riskColumns: seq<string>,
                   mergedColumns: seq<string>, rows: seq<MergedRow>): Result<seq<KpiRow>, KpiError>
    requires RatiosNonNegative(rows)
  {
    match ResolveColumns(forecastColumns, inventoryColumns, riskColumns, mergedColumns)
    case Err(e) => Err(e)
    case Ok(cols) =>
      if StockRatioColumn !in mergedColumns then Err(MissingMergedColumn(StockRatioColumn))
      else if RiskScoreColumn !in mergedColumns then Err(MissingMergedColumn(RiskScoreColumn))
      else Ok(SortBy(KpiRows(PrepareAll(rows, cols)), KpiBefore))
  }

  /** `run_kpi_layer` after loading, deduplicating and merging. */
  method RunKpiLayer(forecastColumns: seq<string>, inventoryColumns: seq<string>, riskColumns: seq<string>,
                     mergedColumns: seq<string>, rows: seq<MergedRow>) returns (r: Result<seq<KpiRow>, KpiError>)
    requires RatiosNonNegative(rows)
    ensures r == KpiSpec(forecastColumns, inventoryColumns, riskColumns, mergedColumns, rows)
  {
    var resolved := ResolveColumns(forecastColumns, inventoryColumns, riskColumns, mergedColumns);
    if resolved.Err? {
      return Err(resolved.error);
    }
    var cols := resolved.value;
    if StockRatioColumn !in mergedColumns {
      return Err(MissingMergedColumn(StockRatioColumn));
    }
    if RiskScoreColumn !in mergedColumns {
      return Err(MissingMergedColumn(RiskScoreColumn));
    }
    var prepared := PrepareRows(rows, cols);
    var out := BuildKpiRows(prepared);
    // Step 10: final ordering.
    r := Ok(SortBy(out, KpiBefore));
  }

  /** Steps 6 and 7: profit fallback, stock 0 -> NaN, fills. */
  method PrepareRows(rows: seq<MergedRow>, cols: Columns) returns (prepared: seq<Prepared>)
    requires RatiosNonNegative(rows)
    ensures prepared == PrepareAll(rows, cols)
  {
    prepared := [];
    var i := 0;
    while i < |rows|
      invariant 0 <= i <= |rows|
      invariant |prepared| == i
      invariant forall j :: 0 <= j < i ==> prepared[j] == Prepare(rows[j], cols)
    {
      prepared := prepared + [Prepare(rows[i], cols)];
      i := i + 1;
    }
  }

  /** Steps 8 and 9: KPI columns and the decision flag. */
  method BuildKpiRows(prepared: seq<Prepared>) returns (out: seq<KpiRow>)
    requires forall i :: 0 <= i < |prepared| ==> prepared[i].stockRatio >= 0.0
    ensures out == KpiRows(prepared)
  {
    var irs, dpi, pm := InventoryRiskColumn(prepared), PressureColumn(prepared), MarginColumn(prepared);
    ghost var spec := KpiRows(prepared);
    out := [];
    var i := 0;
    while i < |prepared|
      invariant 0 <= i <= |prepared|
      invariant |out| == i
      invariant forall j :: 0 <= j < i ==> out[j] == spec[j]
    {
      out := out + [KpiRow(prepared[i].productId, irs[i], dpi[i], pm[i], Decide(irs[i], dpi[i], pm[i]))];
      i := i + 1;
    }
  }

  /** Every KPI of every row lies in [0, 100] and the flag follows the
      intervention rule. */
  lemma KpiRowsRange(ps: seq<Prepared>)
    requires forall i :: 0 <= i < |ps| ==> ps[i].stockRatio >= 0.0
    ensures forall k :: k in KpiRows(ps) ==>
      0.0 <= k.inventoryRiskScore <= 100.0 && 0.0 <= k.demandPressureIndex <= 100.0 &&
      0.0 <= k.profitabilityMargin <= 100.0 &&
      (k.decisionFlag == RequiresInterventionFlag <==>
         RequiresIntervention(k.inventoryRiskScore, k.demandPressureIndex, k.profitabilityMargin))
  {
    if |ps| > 0 {
      NormalizeRange(seq(|ps|, i requires 0 <= i < |ps| => RawInventoryRisk(ps[i].riskScore, ps[i].stockRatio)));
      NormalizeRange(seq(|ps|, i requires 0 <= i < |ps| => RawPressure(ps[i].forecast, ps[i].stock)));
      NormalizeRange(seq(|ps|, i requires 0 <= i < |ps| => ps[i].profit));
    }
  }

  /** The layer fails exactly when no stock column resolves; otherwise there is
      one output row per merged row, the output is ordered by (inventory risk,
      pressure) descending, every KPI lies in [0, 100] and the flag follows
      the intervention rule. */
  lemma KpiReport(forecastColumns: seq<string>, inventoryColumns: seq<string>, riskColumns: seq<string>,
                  mergedColumns: seq<string>, rows: seq<MergedRow>)
    requires RatiosNonNegative(rows)
    ensures KpiSpec(forecastColumns, inventoryColumns, riskColumns, mergedColumns, rows) == Err(StockColumnNotResolved) <==>
              forall c :: c in StockCandidates ==> c !in inventoryColumns
    ensures KpiSpec(forecastColumns, inventoryColumns, riskColumns, mergedColumns, rows).Err? <==>
              (forall c :: c in StockCandidates ==> c !in inventoryColumns) ||
              StockRatioColumn !in mergedColumns || RiskScoreColumn !in mergedColumns
    ensures KpiSpec(forecastColumns, inventoryColumns, riskColumns, mergedColumns, rows).Ok? ==>
      var out := KpiSpec(forecastColumns, inventoryColumns, riskColumns, mergedColumns, rows).value;
      |out| == |rows| && SortedBy(out, KpiBefore) &&
      forall k :: k in out ==>
        0.0 <= k.inventoryRiskScore <= 100.0 && 0.0 <= k.demandPressureIndex <= 100.0 &&
        0.0 <= k.profitabilityMargin <= 100.0 &&
        (k.decisionFlag == RequiresInterventionFlag <==>
           RequiresIntervention(k.inventoryRiskScore, k.demandPressureIndex, k.profitabilityMargin))
  {
    var res := ResolveColumns(forecastColumns, inventoryColumns, riskColumns, mergedColumns);
    if res.Ok? && StockRatioColumn in mergedColumns && RiskScoreColumn in mergedColumns {
      var ks := KpiRows(PrepareAll(rows, res.value));
      KpiBeforeTotal();
      SortBySorted(ks, KpiBefore);
      KpiRowsRange(PrepareAll(rows, res.value));
      var out := SortBy(ks, KpiBefore);
      assert forall k :: k in out ==> k in ks by {
        forall k | k in out ensures k in ks {
          assert k in multiset(ks);
        }
      }
    }
  }

  /** The profit fallback: without a profit column in the risk results, the
      profit is price - cost when both columns resolve and both cells are
      present, 0 when a column does not resolve. */
  lemma ProfitFallback(row: MergedRow, forecastColumns: seq<string>, inventoryColumns: seq<string>,
                       riskColumns: seq<string>, mergedColumns: seq<string>)
    requires ResolveColumns(forecastColumns, inventoryColumns, riskColumns, mergedColumns).Ok?
    requires forall c :: c in ProfitCandidates ==> c !in riskColumns
    ensures var cols := ResolveColumns(forecastColumns, inventoryColumns, riskColumns, mergedColumns).value;
      var price := ResolveColumn(mergedColumns, PriceCandidates);
      var cost := ResolveColumn(mergedColumns, CostCandidates);
      (price.None? || cost.None? ==> Prepare(row, cols).profit == 0.0) &&
      (price.Some? && cost.Some? && Cell(row.merged, price.value).Some? && Cell(row.merged, cost.value).Some? ==>
         Prepare(row, cols).profit == Cell(row.merged, price.value).value - Cell(row.merged, cost.value).value)
  {
  }
}
