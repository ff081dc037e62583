/** Monte Carlo risk layer: per-product distribution parameters with their
    fallback chains, the per-sample profit rule for given draws, the raw
    risk score, portfolio min-max normalisation, classification and the
    per-product run loop. */
module Risk {
  import opened Common
  import opened Ordering

  const DemandCv: real := 0.15
  const CostCv: real := 0.05
  const MinStd: real := 0.000001
  const DefaultUnitCost: real := 1.0
  const DefaultLeadTime: real := 7.0
  const LeadSpread: real := 2.0
  const PriceMarkup: real := 1.3
  const StockDays: real := 7.0
  const HoldingRate: real := 0.01
  const Eps: real := 0.000001
  const FlatRange: real := 0.000000001
  const LowCut: real := 0.33
  const MediumCut: real := 0.66

  // ---------------------------------------------------------------------------
  // Distribution parameters
  // ---------------------------------------------------------------------------

  /** The first features row of a product; an absent column and a NaN cell are
      both `None`, since `get(col, nan)` followed by `isna` cannot tell them
      apart. */
  datatype Features = Features(
    unitCost: Option<real>, cost: Option<real>, leadTimeDays: Option<real>,
    price: Option<real>, unitPrice: Option<real>, sellingPrice: Option<real>,
    currentStock: Option<real>, stock: Option<real>, holdingCostPerDay: Option<real>)

  datatype Distributions = Distributions(
    demandMean: real, demandStd: real, costMean: real, costStd: real,
    leadLow: int, leadHigh: int, price: real, availableStock: real, holdingCost: real)

  /** Python's `round(x)`: the nearest integer, ties to the even one. */
  function RoundHalfEven(x: real): (r: int)
    ensures Abs(r as real - x) <= 0.5
    ensures Abs(r as real - x) == 0.5 ==> r % 2 == 0
  {
    var f := x.Floor;
    var d := x - f as real;
    if d < 0.5 then f
    else if d > 0.5 then f + 1
    else if f % 2 == 0 then f else f + 1
  }

  function IntMax(a: int, b: int): int {
    if a < b then b else a
  }

  /** Lower and upper bound of the uniform lead-time draw around `leadTime`. */
  function LeadBounds(leadTime: real): (b: (int, int)) {
    var low := IntMax(RoundHalfEven(leadTime - LeadSpread), 1);
    (low, IntMax(RoundHalfEven(leadTime + LeadSpread), low + 1))
  }

  /** `define_distributions` for a product's forecast rows and its features. */
  function DefineDistributions(forecast: seq<real>, f: Features): (d: Distributions)
    requires |forecast| > 0
    ensures d.demandMean == Mean(forecast)
    ensures d.costMean == (if f.unitCost.Some? then f.unitCost.value
                           else if f.cost.Some? then f.cost.value else DefaultUnitCost)
    ensures d.price == (if f.price.Some? then f.price.value
                        else if f.unitPrice.Some? then f.unitPrice.value
                        else if f.sellingPrice.Some? then f.sellingPrice.value
                        else PriceMarkup * d.costMean)
    ensures d.availableStock == (if f.currentStock.Some? then f.currentStock.value
                                 else if f.stock.Some? then f.stock.value
                                 else StockDays * d.demandMean)
    ensures d.holdingCost == (if f.holdingCostPerDay.Some? then f.holdingCostPerDay.value
                              else HoldingRate * d.costMean)
    ensures d.demandStd > 0.0 && d.costStd > 0.0
    ensures d.demandStd >= DemandCv * d.demandMean && d.costStd >= CostCv * d.costMean
    ensures 1 <= d.leadLow < d.leadHigh
    ensures (d.leadLow, d.leadHigh) == LeadBounds(f.leadTimeDays.GetOr(DefaultLeadTime))
  {
    var demandMean := Mean(forecast);
    var unitCost := f.unitCost.GetOr(f.cost.GetOr(DefaultUnitCost));
    var leadTime := f.leadTimeDays.GetOr(DefaultLeadTime);
    var bounds := LeadBounds(leadTime);
    Distributions(
      demandMean, Max(demandMean * DemandCv, MinStd),
      unitCost, Max(unitCost * CostCv, MinStd),
      bounds.0, bounds.1,
      f.price.GetOr(f.unitPrice.GetOr(f.sellingPrice.GetOr(unitCost * PriceMarkup))),
      f.currentStock.GetOr(f.stock.GetOr(demandMean * StockDays)),
      f.holdingCostPerDay.GetOr(HoldingRate * unitCost))
  }

  /** An integral lead time L >= 3 gives the window [L - 2, L + 2]; the
      engineering default 7 gives [5, 9]. */
  lemma LeadBoundsIntegral(l: int)
    requires l >= 3
    ensures LeadBounds(l as real) == (l - 2, l + 2)
  {
    assert (l as real - LeadSpread).Floor == l - 2;
    assert (l as real + LeadSpread).Floor == l + 2;
  }

  lemma DefaultLeadWindow(forecast: seq<real>, f: Features)
    requires |forecast| > 0 && f.leadTimeDays.None?
    ensures DefineDistributions(forecast, f).leadLow == 5
    ensures DefineDistributions(forecast, f).leadHigh == 9
  {
    LeadBoundsIntegral(7);
  }

  // ---------------------------------------------------------------------------
  // One Monte Carlo sample
  // ---------------------------------------------------------------------------

  /** One draw of the generator: normal demand and cost, integer lead time. */
  datatype Draw = Draw(demand: real, cost: real, leadTime: int)

  /** The generator's promise for the lead time: uniform on [low, high]. */
  predicate InLeadWindow(d: Distributions, x: Draw) {
    d.leadLow <= x.leadTime <= d.leadHigh
  }

  /** Sales realised in one sample: the clipped demand, capped by the stock. */
  function RealizedSales(d: Distributions, x: Draw): (rs: real)
    ensures rs <= d.availableStock && rs <= Max(0.0, x.demand)
    ensures rs == Max(0.0, x.demand) || rs == d.availableStock
    ensures d.availableStock >= 0.0 ==> rs >= 0.0
  {
    Min(Max(0.0, x.demand), d.availableStock)
  }

  /** Profit of one sample: revenue minus variable cost (clipped cost) minus
      holding cost over the lead time. */
  function SampleProfit(d: Distributions, x: Draw): real {
    var rs := RealizedSales(d, x);
    rs * d.price - rs * Max(0.0, x.cost) - (x.leadTime as real) * d.holdingCost
  }

  /** With a non-negative stock, a price at least the drawn (clipped) cost and
      a draw inside the lead-time window, a sample loses at most the holding
      cost of the longest lead time; it never earns more than selling the
      whole stock at the margin. */
  lemma SampleProfitBounds(d: Distributions, x: Draw)
    requires d.availableStock >= 0.0 && d.holdingCost >= 0.0
    requires d.price >= Max(0.0, x.cost)
    requires d.leadLow >= 1 && InLeadWindow(d, x)
    ensures SampleProfit(d, x) >= -(d.leadHigh as real) * d.holdingCost
    ensures SampleProfit(d, x) <= d.availableStock * (d.price - Max(0.0, x.cost))
  {
    var rs := RealizedSales(d, x);
    var m := d.price - Max(0.0, x.cost);
    assert rs * d.price - rs * Max(0.0, x.cost) == rs * m;
    assert rs * m >= 0.0;
    assert rs * m <= d.availableStock * m;
    assert (x.leadTime as real) * d.holdingCost <= (d.leadHigh as real) * d.holdingCost;
    assert (x.leadTime as real) >= 1.0;
    assert (x.leadTime as real) * d.holdingCost >= 0.0;
  }

  /** A higher price never lowers a sample's profit. */
  lemma SampleProfitMonotoneInPrice(d: Distributions, x: Draw, p: real)
    requires d.availableStock >= 0.0 && p >= d.price
    ensures SampleProfit(d, x) <= SampleProfit(d.(price := p), x)
  {
    var rs := RealizedSales(d, x);
    assert RealizedSales(d.(price := p), x) == rs;
    assert rs * d.price <= rs * p;
  }

  /** `run_monte_carlo` for given draws: one profit per draw. */
  function MonteCarlo(d: Distributions, draws: seq<Draw>): (p: seq<real>)
    ensures |p| == |draws|
    ensures forall i :: 0 <= i < |p| ==> p[i] == SampleProfit(d, draws[i])
  {
    seq(|draws|, i requires 0 <= i < |draws| => SampleProfit(d, draws[i]))
  }

  // ---------------------------------------------------------------------------
  // Risk metrics
  // ---------------------------------------------------------------------------

  /** `abs(var_95) / (abs(mean) + eps)`. */
  function RawRiskScore(var95: real, meanProfit: real): (r: real)
    ensures r >= 0.0
    ensures r == 0.0 <==> var95 == 0.0
    ensures r * (Abs(meanProfit) + Eps) == Abs(var95)
  {
    Abs(var95) / (Abs(meanProfit) + Eps)
  }

  /** A larger loss at the 5th percentile, for the same mean, scores higher. */
  lemma RawRiskScoreMonotone(v1: real, v2: real, m: real)
    requires Abs(v1) <= Abs(v2)
    ensures RawRiskScore(v1, m) <= RawRiskScore(v2, m)
  {
    var den := Abs(m) + Eps;
    DivMonotone(Abs(v1), Abs(v2), den);
  }

  /** The statistics numpy computes by interpolation and square root, given. */
  datatype Spread = Spread(std: real, var95: real, ciLower: real, ciUpper: real)

  datatype RiskRow = RiskRow(productId: int, expectedProfitMean: real, profitStd: real,
                             var95: real, ciLower: real, ciUpper: real, rawRiskScore: real)

  /** `compute_risk_metrics` for one product. */
  function RiskMetrics(productId: int, profits: seq<real>, s: Spread): (r: RiskRow)
    requires |profits| > 0
    ensures r.expectedProfitMean == Mean(profits)
    ensures r.rawRiskScore >= 0.0
    ensures r.rawRiskScore * (Abs(r.expectedProfitMean) + Eps) == Abs(s.var95)
    ensures r.productId == productId && r.var95 == s.var95
  {
    var m := Mean(profits);
    RiskRow(productId, m, s.std, s.var95, s.ciLower, s.ciUpper, RawRiskScore(s.var95, m))
  }

  // ---------------------------------------------------------------------------
  // Portfolio normalisation and classification
  // ---------------------------------------------------------------------------

  function Raws(rows: seq<RiskRow>): (r: seq<real>)
    ensures |r| == |rows|
    ensures forall i :: 0 <= i < |r| ==> r[i] == rows[i].rawRiskScore
  {
    seq(|rows|, i requires 0 <= i < |rows| => rows[i].rawRiskScore)
  }

  /** Min-max normalisation of one raw score against the portfolio. */
  function NormalizedScore(x: real, lo: real, hi: real): real {
    if hi - lo < FlatRange then 0.0 else (x - lo) / (hi - lo)
  }

  function Normalize(raws: seq<real>): (r: seq<real>)
    requires |raws| > 0
    ensures |r| == |raws|
  {
    var lo, hi := MinOf(raws), MaxOf(raws);
    seq(|raws|, i requires 0 <= i < |raws| => NormalizedScore(raws[i], lo, hi))
  }

  lemma NormalizedScoreRange(x: real, lo: real, hi: real)
    requires lo <= x <= hi
    ensures 0.0 <= NormalizedScore(x, lo, hi) <= 1.0
    ensures hi - lo >= FlatRange && x == lo ==> NormalizedScore(x, lo, hi) == 0.0
    ensures hi - lo >= FlatRange && x == hi ==> NormalizedScore(x, lo, hi) == 1.0
  {
    if hi - lo >= FlatRange {
      DivMonotone(0.0, x - lo, hi - lo);
      DivMonotone(x - lo, hi - lo, hi - lo);
    }
  }

  /** A flat portfolio scores 0 everywhere; otherwise every score lies in
      [0, 1], the smallest raw score maps to 0 and the largest to 1. */
  lemma NormalizeRange(raws: seq<real>)
    requires |raws| > 0
    ensures MaxOf(raws) - MinOf(raws) < FlatRange ==> forall i :: 0 <= i < |raws| ==> Normalize(raws)[i] == 0.0
    ensures forall i :: 0 <= i < |raws| ==> 0.0 <= Normalize(raws)[i] <= 1.0
    ensures MaxOf(raws) - MinOf(raws) >= FlatRange ==>
      forall i :: 0 <= i < |raws| ==>
        (raws[i] == MinOf(raws) ==> Normalize(raws)[i] == 0.0) &&
        (raws[i] == MaxOf(raws) ==> Normalize(raws)[i] == 1.0)
  {
    var lo, hi := MinOf(raws), MaxOf(raws);
    forall i | 0 <= i < |raws|
      ensures 0.0 <= Normalize(raws)[i] <= 1.0
      ensures hi - lo >= FlatRange && raws[i] == lo ==> Normalize(raws)[i] == 0.0
      ensures hi - lo >= FlatRange && raws[i] == hi ==> Normalize(raws)[i] == 1.0
    {
      NormalizedScoreRange(raws[i], lo, hi);
    }
  }

  /** Normalisation keeps the order of the raw scores. */
  lemma NormalizeMonotone(raws: seq<real>, i: int, j: int)
    requires 0 <= i < |raws| && 0 <= j < |raws| && raws[i] <= raws[j]
    ensures Normalize(raws)[i] <= Normalize(raws)[j]
  {
    var lo, hi := MinOf(raws), MaxOf(raws);
    if hi - lo >= FlatRange {
      DivMonotone(raws[i] - lo, raws[j] - lo, hi - lo);
    }
  }

  datatype RiskLevel = Low | Medium | High

  function Classify(score: real): RiskLevel {
    if score < LowCut then Low else if score < MediumCut then Medium else High
  }

  function LevelRank(l: RiskLevel): nat {
    match l
    case Low => 0
    case Medium => 1
    case High => 2
  }

  /** The bands cover the line in order: a higher score never gets a lower
      level; Low is exactly below 0.33 and High exactly from 0.66. */
  lemma ClassifyMonotone(s1: real, s2: real)
    requires s1 <= s2
    ensures LevelRank(Classify(s1)) <= LevelRank(Classify(s2))
    ensures Classify(s1) == Low <==> s1 < LowCut
    ensures Classify(s2) == High <==> s2 >= MediumCut
  {
  }

  datatype ScoredRow = ScoredRow(row: RiskRow, riskScore: real, riskLevel: RiskLevel)

  predicate ScoreBefore(a: ScoredRow, b: ScoredRow) {
    a.riskScore >= b.riskScore
  }

  lemma ScoreBeforeTotal()
    ensures TotalPreorder(ScoreBefore)
  {
  }

  // ---------------------------------------------------------------------------
  // The run loop of `run_risk_simulation`
  // ---------------------------------------------------------------------------

  /** A product's rows of the forecast output (`groupby` groups are never empty)
      with the generator's draws and the statistics numpy reports on the
      resulting profits. */
  datatype ForecastGroup = ForecastGroup(productId: int, quantities: seq<real>, draws: seq<Draw>, spread: Spread)

  datatype FeatureRow = FeatureRow(productId: int, features: Features)

  datatype RiskError = MissingForecastColumns | NoProductsProcessed

  /** The columns the forecast output must have. */
  const ForecastRequired: seq<string> := ["product_id", "forecast_quantity"]

  predicate ValidGroup(g: ForecastGroup) {
    |g.quantities| > 0 && |g.draws| > 0
  }

  /** `features_df[features_df["product_id"] == pid].iloc[0]`, if any. */
  function FeaturesOf(table: seq<FeatureRow>, pid: int): (r: Option<Features>)
    ensures r.None? <==> forall i :: 0 <= i < |table| ==> table[i].productId != pid
    ensures r.Some? ==> exists i :: 0 <= i < |table| && table[i].productId == pid && table[i].features == r.value &&
                          forall j :: 0 <= j < i ==> table[j].productId != pid
  {
    if table == [] then None
    else if table[0].productId == pid then Some(table[0].features)
    else
      var r := FeaturesOf(table[1..], pid);
      if r.Some? then
        var i :| 0 < i + 1 <= |table| - 1 + 1 && 0 <= i < |table[1..]| && table[1..][i].productId == pid &&
                 table[1..][i].features == r.value && forall j :: 0 <= j < i ==> table[1..][j].productId != pid;
        assert table[i + 1] == table[1..][i];
        r
      else r
  }

  /** Risk row of one product with features. */
  function ProductRisk(g: ForecastGroup, f: Features): RiskRow
    requires ValidGroup(g)
  {
    RiskMetrics(g.productId, MonteCarlo(DefineDistributions(g.quantities, f), g.draws), g.spread)
  }

  /** The rows collected by the loop: processed products in group order. */
  function CollectRows(groups: seq<ForecastGroup>, table: seq<FeatureRow>): (rows: seq<RiskRow>)
    requires forall g :: g in groups ==> ValidGroup(g)
    ensures |rows| <= |groups|
  {
    if groups == [] then []
    else
      var g := groups[|groups| - 1];
      var init := CollectRows(groups[..|groups| - 1], table);
      match FeaturesOf(table, g.productId)
      case None => init
      case Some(f) => init + [ProductRisk(g, f)]
  }

  function ScoreRows(rows: seq<RiskRow>): (r: seq<ScoredRow>)
    requires |rows| > 0
    ensures |r| == |rows|
  {
    var scores := Normalize(Raws(rows));
    seq(|rows|, i requires 0 <= i < |rows| => ScoredRow(rows[i], scores[i], Classify(scores[i])))
  }

  /** What `run_risk_simulation` returns, given the columns of the forecast
      output and its rows grouped by product. */
  function RiskSpec(columns: seq<string>, groups: seq<ForecastGroup>, table: seq<FeatureRow>): Result<seq<ScoredRow>, RiskError>
    requires forall g :: g in groups ==> ValidGroup(g)
  {
    if MissingFrom(ForecastRequired, columns) != [] then Err(MissingForecastColumns)
    else
      var rows := CollectRows(groups, table);
      if rows == [] then Err(NoProductsProcessed)
      else Ok(SortBy(ScoreRows(rows), ScoreBefore))
  }

  /** The run fails on the column check exactly when product_id or
      forecast_quantity is not a column, and otherwise fails exactly when no
      product of the forecast has a features row. */
  lemma RiskSpecErrors(columns: seq<string>, groups: seq<ForecastGroup>, table: seq<FeatureRow>)
    requires forall g :: g in groups ==> ValidGroup(g)
    ensures RiskSpec(columns, groups, table) == Err(MissingForecastColumns) <==>
              "product_id" !in columns || "forecast_quantity" !in columns
    ensures RiskSpec(columns, groups, table) == Err(NoProductsProcessed) <==>
              "product_id" in columns && "forecast_quantity" in columns &&
              forall g :: g in groups ==> FeaturesOf(table, g.productId).None?
  {
    MissingFromMeaning(ForecastRequired, columns);
    assert forall c :: c in ForecastRequired <==> c == "product_id" || c == "forecast_quantity";
    CollectRowsEmpty(groups, table);
  }

  /** The product loop: products without a features row are skipped. */
  method CollectResults(groups: seq<ForecastGroup>, table: seq<FeatureRow>)
    returns (results: seq<RiskRow>)
    requires forall g :: g in groups ==> ValidGroup(g)
    ensures results == CollectRows(groups, table)
  {
    results := [];
    var k := 0;
    while k < |groups|
      invariant 0 <= k <= |groups|
      invariant results == CollectRows(groups[..k], table)
    {
      var g := groups[k];
      assert g in groups;
      assert groups[..k + 1][..k] == groups[..k];
      assert forall h :: h in groups[..k + 1] ==> h in groups;
      var features := FeaturesOf(table, g.productId);
      if features.Some? {
        var dist := DefineDistributions(g.quantities, features.value);
        var profits := MonteCarlo(dist, g.draws);
        results := results + [RiskMetrics(g.productId, profits, g.spread)];
      }
      k := k + 1;
    }
    assert groups[..|groups|] == groups;
  }

  /** The `risk_score` and `risk_level` columns. */
  method AssignScores(results: seq<RiskRow>) returns (scored: seq<ScoredRow>)
    requires |results| > 0
    ensures scored == ScoreRows(results)
  {
    var raws := Raws(results);
    var lo, hi := MinOf(raws), MaxOf(raws);
    scored := [];
    var i := 0;
    while i < |results|
      invariant 0 <= i <= |results|
      invariant scored == ScoreRows(results)[..i]
    {
      var score := if hi - lo < FlatRange then 0.0 else (raws[i] - lo) / (hi - lo);
      scored := scored + [ScoredRow(results[i], score, Classify(score))];
      i := i + 1;
    }
    assert ScoreRows(results)[..|results|] == ScoreRows(results);
  }

  /** `run_risk_simulation` after the two tables are loaded. */
  method RunRiskSimulation(columns: seq<string>, groups: seq<ForecastGroup>, table: seq<FeatureRow>)
    returns (r: Result<seq<ScoredRow>, RiskError>)
    requires forall g :: g in groups ==> ValidGroup(g)
    ensures r == RiskSpec(columns, groups, table)
  {
    if MissingFrom(ForecastRequired, columns) != [] {
      return Err(MissingForecastColumns);
    }
    var results := CollectResults(groups, table);
    if results == [] {
      return Err(NoProductsProcessed);
    }
    var scored := AssignScores(results);
    r := Ok(SortBy(scored, ScoreBefore));
  }

  /** The run fails exactly when no product has features. */
  lemma {:induction false} CollectRowsEmpty(groups: seq<ForecastGroup>, table: seq<FeatureRow>)
    requires forall g :: g in groups ==> ValidGroup(g)
    ensures CollectRows(groups, table) == [] <==> forall g :: g in groups ==> FeaturesOf(table, g.productId).None?
  {
    if groups != [] {
      var init := groups[..|groups| - 1];
      assert forall g :: g in init ==> g in groups;
      CollectRowsEmpty(init, table);
      assert forall g :: g in groups ==> g in init || g == groups[|groups| - 1];
    }
  }

  /** Each collected row belongs to a group with features, and every group with
      features is collected. */
  lemma {:induction false} CollectRowsProducts(groups: seq<ForecastGroup>, table: seq<FeatureRow>, pid: int)
    requires forall g :: g in groups ==> ValidGroup(g)
    ensures (exists row :: row in CollectRows(groups, table) && row.productId == pid) <==>
              (FeaturesOf(table, pid).Some? && exists g :: g in groups && g.productId == pid)
  {
    if groups != [] {
      var init := groups[..|groups| - 1];
      var g := groups[|groups| - 1];
      assert forall h :: h in init ==> h in groups;
      assert forall h :: h in groups ==> h in init || h == g;
      CollectRowsProducts(init, table, pid);
      if FeaturesOf(table, g.productId).Some? {
        var f := FeaturesOf(table, g.productId).value;
        assert ProductRisk(g, f).productId == g.productId;
        assert forall row :: row in CollectRows(groups, table) <==> row in CollectRows(init, table) || row == ProductRisk(g, f);
      }
    }
  }

  /** The report: sorted by risk score descending, a permutation of the scored
      rows, each score in [0, 1] and classified by its band. */
  lemma RiskReport(columns: seq<string>, groups: seq<ForecastGroup>, table: seq<FeatureRow>)
    requires forall g :: g in groups ==> ValidGroup(g)
    requires RiskSpec(columns, groups, table).Ok?
    ensures var out := RiskSpec(columns, groups, table).value;
      var rows := CollectRows(groups, table);
      SortedBy(out, ScoreBefore) &&
      multiset(out) == multiset(ScoreRows(rows)) &&
      forall s :: s in out ==> 0.0 <= s.riskScore <= 1.0 && s.riskLevel == Classify(s.riskScore)
  {
    var rows := CollectRows(groups, table);
    var scored := ScoreRows(rows);
    ScoreBeforeTotal();
    SortBySorted(scored, ScoreBefore);
    NormalizeRange(Raws(rows));
    var out := SortBy(scored, ScoreBefore);
    forall s | s in out ensures 0.0 <= s.riskScore <= 1.0 && s.riskLevel == Classify(s.riskScore) {
      assert s in multiset(scored);
      var i :| 0 <= i < |scored| && scored[i] == s;
    }
  }
}
