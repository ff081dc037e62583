/** The executive decision brief: portfolio figures over the KPI table, the
    risk exposure lists over the risk table, the intervention list of the
    left merge of both with one rule-based recommendation per intervention,
    and the parts of the Markdown export that print no floating-point
    number. The two tables are the KPI and risk stages' outputs as read back;
    the SQLite financials, the date range and the trend file are inputs the
    brief only copies through and are not modelled. A missing merge partner
    (pandas NaN) is `None`. */
module DecisionBrief {
  import opened Common
  import opened Ordering
  import K = Kpis
  import R = Risk
  import D = Dashboard

  // ---------------------------------------------------------------------------
  // Portfolio KPIs.
  // ---------------------------------------------------------------------------

  /** pandas `mean` of a column: NaN for an empty column. */
  function MeanOrNaN(xs: seq<real>): (r: Option<real>)
    ensures r.None? <==> xs == []
    ensures r.Some? ==> MinOf(xs) <= r.value <= MaxOf(xs)
  {
    if xs == [] then None
    else
      MeanBetween(xs);
      Some(Mean(xs))
  }

  function RiskScores(kpi: seq<K.KpiRow>): (r: seq<real>)
    ensures |r| == |kpi| && forall i :: 0 <= i < |kpi| ==> r[i] == kpi[i].inventoryRiskScore
  {
    var r := seq(|kpi|, i requires 0 <= i < |kpi| => kpi[i].inventoryRiskScore);
    assert forall i :: 0 <= i < |kpi| ==> r[i] == kpi[i].inventoryRiskScore;
    r
  }

  function Margins(kpi: seq<K.KpiRow>): (r: seq<real>)
    ensures |r| == |kpi| && forall i :: 0 <= i < |kpi| ==> r[i] == kpi[i].profitabilityMargin
  {
    var r := seq(|kpi|, i requires 0 <= i < |kpi| => kpi[i].profitabilityMargin);
    assert forall i :: 0 <= i < |kpi| ==> r[i] == kpi[i].profitabilityMargin;
    r
  }

  function ProductIds(kpi: seq<K.KpiRow>): (r: seq<int>)
    ensures |r| == |kpi| && forall i :: 0 <= i < |kpi| ==> r[i] == kpi[i].productId
  {
    var r := seq(|kpi|, i requires 0 <= i < |kpi| => kpi[i].productId);
    assert forall i :: 0 <= i < |kpi| ==> r[i] == kpi[i].productId;
    r
  }

  /** The number of rows flagged "Requires Intervention". */
  function FlagCount(kpi: seq<K.KpiRow>): (n: nat)
    ensures n <= |kpi|
  {
    if kpi == [] then 0
    else
      var k := |kpi| - 1;
      FlagCount(kpi[..k]) + (if kpi[k].decisionFlag == K.RequiresInterventionFlag then 1 else 0)
  }

  /** `nunique` of the product ids: the ascending distinct ids, counted. */
  function DistinctIds(kpi: seq<K.KpiRow>): (r: seq<int>)
    ensures forall p :: p in r <==> exists i :: 0 <= i < |kpi| && kpi[i].productId == p
  {
    var ids := ProductIds(kpi);
    assert forall p :: p in ids <==> exists i :: 0 <= i < |kpi| && ids[i] == p;
    SortedSet(ids, IntLt)
  }

  datatype Portfolio = Portfolio(
    avgInventoryRiskScore: Option<real>, avgProfitabilityMargin: Option<real>,
    requiresInterventionCount: nat, totalProducts: nat)

  function PortfolioKpis(kpi: seq<K.KpiRow>): Portfolio {
    Portfolio(MeanOrNaN(RiskScores(kpi)), MeanOrNaN(Margins(kpi)), FlagCount(kpi), |DistinctIds(kpi)|)
  }

  /** Every product is counted once: the counted ids are distinct and are
      exactly the ids of the table, so there are at most as many products as
      rows; the averages are missing exactly for an empty table and otherwise
      lie between the smallest and the largest value of their column. */
  lemma PortfolioKpisMeaning(kpi: seq<K.KpiRow>)
    ensures var p := PortfolioKpis(kpi);
      && p.totalProducts <= |kpi|
      && Distinct(DistinctIds(kpi))
      && (p.avgProfitabilityMargin.None? <==> kpi == [])
      && (p.avgProfitabilityMargin.Some? ==>
            MinOf(Margins(kpi)) <= p.avgProfitabilityMargin.value <= MaxOf(Margins(kpi)))
      && (p.avgInventoryRiskScore.Some? ==>
            MinOf(RiskScores(kpi)) <= p.avgInventoryRiskScore.value <= MaxOf(RiskScores(kpi)))
      && p.requiresInterventionCount <= |kpi|
  {
    var ids := ProductIds(kpi);
    IntLtStrictTotal();
    SortedSetSorted(ids, IntLt);
    forall i, j | 0 <= i < j < |DistinctIds(kpi)| ensures DistinctIds(kpi)[i] != DistinctIds(kpi)[j] {
      StrictlySortedDistinct(DistinctIds(kpi), IntLt, i, j);
    }
  }

  // ---------------------------------------------------------------------------
  // Risk exposure.
  // ---------------------------------------------------------------------------

  /** The number of risk rows at level High. */
  function HighRiskCount(risk: seq<R.ScoredRow>): (n: nat)
    ensures n <= |risk|
    ensures n == 0 <==> forall i :: 0 <= i < |risk| ==> risk[i].riskLevel != R.High
  {
    if risk == [] then 0
    else
      var k := |risk| - 1;
      var n := HighRiskCount(risk[..k]);
      assert forall i :: 0 <= i < k ==> risk[..k][i] == risk[i];
      n + (if risk[k].riskLevel == R.High then 1 else 0)
  }

  /** A `head(n)` of a sorted copy holds the `n` first elements in the sort
      order: it is sorted, every kept element comes from the input, and any
      element left out may be placed after the last one kept. */
  lemma TopOfSorted<T(!new)>(s: seq<T>, before: (T, T) -> bool, n: nat)
    requires TotalPreorder(before) && n > 0
    ensures |Take(SortBy(s, before), n)| == (if |s| < n then |s| else n)
    ensures SortedBy(Take(SortBy(s, before), n), before)
    ensures forall i :: 0 <= i < |Take(SortBy(s, before), n)| ==> Take(SortBy(s, before), n)[i] in s
    ensures forall x :: x in s ==>
      x in Take(SortBy(s, before), n) || before(Take(SortBy(s, before), n)[|Take(SortBy(s, before), n)| - 1], x)
  {
    var sorted := SortBy(s, before);
    SortBySorted(s, before);
    TakeKeepsOrder(sorted, before, n);
    TakeFromInput(s, sorted, n);
    forall x | x in s ensures x in Take(sorted, n) || before(Take(sorted, n)[|Take(sorted, n)| - 1], x) {
      LeftOut(s, before, n, x);
    }
  }

  /** A prefix of a sorted sequence is sorted. */
  lemma TakeKeepsOrder<T>(sorted: seq<T>, before: (T, T) -> bool, n: nat)
    requires SortedBy(sorted, before)
    ensures SortedBy(Take(sorted, n), before)
  {
    var t := Take(sorted, n);
    forall i, j | 0 <= i < j < |t| ensures before(t[i], t[j]) {
      assert t[i] == sorted[i] && t[j] == sorted[j];
    }
  }

  /** A prefix of a rearrangement of `s` holds elements of `s` only. */
  lemma TakeFromInput<T>(s: seq<T>, sorted: seq<T>, n: nat)
    requires multiset(sorted) == multiset(s)
    ensures forall i :: 0 <= i < |Take(sorted, n)| ==> Take(sorted, n)[i] in s
  {
    var t := Take(sorted, n);
    forall i | 0 <= i < |t| ensures t[i] in s {
      assert t[i] == sorted[i];
      assert sorted[i] in multiset(sorted);
    }
  }

  lemma LeftOut<T(!new)>(s: seq<T>, before: (T, T) -> bool, n: nat, x: T)
    requires TotalPreorder(before) && n > 0 && x in s
    ensures var t := Take(SortBy(s, before), n);
      x in t || before(t[|t| - 1], x)
  {
    var sorted := SortBy(s, before);
    SortBySorted(s, before);
    assert x in multiset(sorted);
    var j := IndexOf(sorted, x);
    var t := Take(sorted, n);
    if j < |t| {
      assert t[j] == x;
    } else {
      assert t[|t| - 1] == sorted[|t| - 1];
    }
  }

  datatype TopRisk = TopRisk(productId: int, riskScore: real, riskLevel: R.RiskLevel)

  function TopRiskOf(r: R.ScoredRow): TopRisk {
    TopRisk(r.row.productId, r.riskScore, r.riskLevel)
  }

  function TopRiskRows(s: seq<R.ScoredRow>): (r: seq<TopRisk>)
    ensures |r| == |s| && forall i :: 0 <= i < |s| ==> r[i] == TopRiskOf(s[i])
  {
    var r := seq(|s|, i requires 0 <= i < |s| => TopRiskOf(s[i]));
    assert forall i :: 0 <= i < |s| ==> r[i] == TopRiskOf(s[i]);
    r
  }

  /** The five rows with the highest risk score. */
  function TopRiskProducts(risk: seq<R.ScoredRow>): seq<TopRisk> {
    TopRiskRows(Take(SortBy(risk, R.ScoreBefore), 5))
  }

  /** `top_risk_products` holds min(5, n) rows in descending risk score. */
  lemma TopRiskProductsOrder(risk: seq<R.ScoredRow>)
    ensures var t := TopRiskProducts(risk);
      && |t| == (if |risk| < 5 then |risk| else 5)
      && (forall i, j :: 0 <= i < j < |t| ==> t[i].riskScore >= t[j].riskScore)
  {
    R.ScoreBeforeTotal();
    TopOfSorted(risk, R.ScoreBefore, 5);
    var top := Take(SortBy(risk, R.ScoreBefore), 5);
    var t := TopRiskProducts(risk);
    forall i, j | 0 <= i < j < |t| ensures t[i].riskScore >= t[j].riskScore {
      assert R.ScoreBefore(top[i], top[j]);
    }
  }

  /** Each row of `top_risk_products` is the projection of a risk row, and
      every risk row it leaves out scores no higher than the last one listed. */
  lemma TopRiskProductsCover(risk: seq<R.ScoredRow>)
    ensures var t := TopRiskProducts(risk);
      && (forall i :: 0 <= i < |t| ==> exists x :: x in risk && t[i] == TopRiskOf(x))
      && (forall x :: x in risk ==> TopRiskOf(x) in t || x.riskScore <= t[|t| - 1].riskScore)
  {
    R.ScoreBeforeTotal();
    TopOfSorted(risk, R.ScoreBefore, 5);
    var top := Take(SortBy(risk, R.ScoreBefore), 5);
    var t := TopRiskProducts(risk);
    forall i | 0 <= i < |t| ensures exists x :: x in risk && t[i] == TopRiskOf(x) {
      assert top[i] in risk;
    }
    forall x | x in risk ensures TopRiskOf(x) in t || x.riskScore <= t[|t| - 1].riskScore {
      if x in top {
        var j := IndexOf(top, x);
        assert t[j] == TopRiskOf(x);
      } else {
        assert R.ScoreBefore(top[|top| - 1], x);
      }
    }
  }

  datatype WorstProfit = WorstProfit(productId: int, expectedProfitMean: real)

  function WorstProfitOf(r: R.ScoredRow): WorstProfit {
    WorstProfit(r.row.productId, r.row.expectedProfitMean)
  }

  function WorstProfitRows(s: seq<R.ScoredRow>): (r: seq<WorstProfit>)
    ensures |r| == |s| && forall i :: 0 <= i < |s| ==> r[i] == WorstProfitOf(s[i])
  {
    var r := seq(|s|, i requires 0 <= i < |s| => WorstProfitOf(s[i]));
    assert forall i :: 0 <= i < |s| ==> r[i] == WorstProfitOf(s[i]);
    r
  }

  /** Ascending by expected profit mean. */
  predicate ProfitBefore(a: R.ScoredRow, b: R.ScoredRow) {
    a.row.expectedProfitMean <= b.row.expectedProfitMean
  }

  lemma ProfitBeforeTotal()
    ensures TotalPreorder(ProfitBefore)
  {
  }

  /** The five rows with the lowest expected profit mean. */
  function WorstExpectedProfit(risk: seq<R.ScoredRow>): seq<WorstProfit> {
    WorstProfitRows(Take(SortBy(risk, ProfitBefore), 5))
  }

  /** `worst_expected_profit_products` holds min(5, n) rows in ascending
      expected profit. */
  lemma WorstExpectedProfitOrder(risk: seq<R.ScoredRow>)
    ensures var w := WorstExpectedProfit(risk);
      && |w| == (if |risk| < 5 then |risk| else 5)
      && (forall i, j :: 0 <= i < j < |w| ==> w[i].expectedProfitMean <= w[j].expectedProfitMean)
  {
    ProfitBeforeTotal();
    TopOfSorted(risk, ProfitBefore, 5);
    var top := Take(SortBy(risk, ProfitBefore), 5);
    var w := WorstExpectedProfit(risk);
    forall i, j | 0 <= i < j < |w| ensures w[i].expectedProfitMean <= w[j].expectedProfitMean {
      assert ProfitBefore(top[i], top[j]);
    }
  }

  /** Each row of `worst_expected_profit_products` is the projection of a risk
      row, and every risk row it leaves out has an expected profit no lower
      than the last one listed. */
  lemma WorstExpectedProfitCover(risk: seq<R.ScoredRow>)
    ensures var w := WorstExpectedProfit(risk);
      && (forall i :: 0 <= i < |w| ==> exists x :: x in risk && w[i] == WorstProfitOf(x))
      && (forall x :: x in risk ==>
            WorstProfitOf(x) in w || x.row.expectedProfitMean >= w[|w| - 1].expectedProfitMean)
  {
    ProfitBeforeTotal();
    TopOfSorted(risk, ProfitBefore, 5);
    var top := Take(SortBy(risk, ProfitBefore), 5);
    var w := WorstExpectedProfit(risk);
    forall i | 0 <= i < |w| ensures exists x :: x in risk && w[i] == WorstProfitOf(x) {
      assert top[i] in risk;
    }
    forall x | x in risk
      ensures WorstProfitOf(x) in w || x.row.expectedProfitMean >= w[|w| - 1].expectedProfitMean
    {
      if x in top {
        var j := IndexOf(top, x);
        assert w[j] == WorstProfitOf(x);
      } else {
        assert ProfitBefore(top[|top| - 1], x);
      }
    }
  }

  // ---------------------------------------------------------------------------
  // The left merge on product_id.
  // ---------------------------------------------------------------------------

  datatype Merged = Merged(kpi: K.KpiRow, risk: Option<R.ScoredRow>)

  /** The risk rows of product `pid`, in table order. */
  function RiskMatches(pid: int, risk: seq<R.ScoredRow>): (r: seq<R.ScoredRow>)
    ensures forall x :: x in r <==> x in risk && x.row.productId == pid
    ensures (forall x :: x in risk ==> x.row.productId != pid) ==> r == []
  {
    if risk == [] then []
    else
      var k := |risk| - 1;
      var r := RiskMatches(pid, risk[..k]);
      assert forall x :: x in risk <==> x in risk[..k] || x == risk[k];
      r + (if risk[k].row.productId == pid then [risk[k]] else [])
  }

  /** A KPI row's merged rows: one per matching risk row, or one with no risk
      part when there is none. */
  function MergeRow(k: K.KpiRow, risk: seq<R.ScoredRow>): (r: seq<Merged>)
    ensures |r| >= 1
    ensures forall m :: m in r ==> m.kpi == k
    ensures forall m :: m in r ==> m.risk.Some? ==> m.risk.value in risk && m.risk.value.row.productId == k.productId
  {
    var ms := RiskMatches(k.productId, risk);
    if ms == [] then [Merged(k, None)]
    else
      var r := seq(|ms|, j requires 0 <= j < |ms| => Merged(k, Some(ms[j])));
      assert forall m :: m in r ==> exists j :: 0 <= j < |ms| && m == Merged(k, Some(ms[j]));
      r
  }

  function MergeBlocks(kpi: seq<K.KpiRow>, risk: seq<R.ScoredRow>): (b: seq<seq<Merged>>)
    ensures |b| == |kpi| && forall i :: 0 <= i < |kpi| ==> b[i] == MergeRow(kpi[i], risk)
  {
    var b := seq(|kpi|, i requires 0 <= i < |kpi| => MergeRow(kpi[i], risk));
    assert forall i :: 0 <= i < |kpi| ==> b[i] == MergeRow(kpi[i], risk);
    b
  }

  /** `pd.merge(kpi_df, risk_df, on="product_id", how="left")`. */
  function MergeKpiRisk(kpi: seq<K.KpiRow>, risk: seq<R.ScoredRow>): seq<Merged> {
    Flatten(MergeBlocks(kpi, risk))
  }

  /** Every merged row pairs a KPI row with a risk row of the same product,
      or with none. */
  lemma MergeProvenance(kpi: seq<K.KpiRow>, risk: seq<R.ScoredRow>)
    ensures forall m :: m in MergeKpiRisk(kpi, risk) ==>
      m.kpi in kpi && (m.risk.Some? ==> m.risk.value in risk && m.risk.value.row.productId == m.kpi.productId)
  {
    var blocks := MergeBlocks(kpi, risk);
    forall m: Merged | m in Flatten(blocks)
      ensures m.kpi in kpi && (m.risk.Some? ==> m.risk.value in risk && m.risk.value.row.productId == m.kpi.productId)
    {
      FlattenFrom(blocks, m);
      var i :| 0 <= i < |blocks| && m in blocks[i];
      assert m in MergeRow(kpi[i], risk);
    }
  }

  /** Risk product ids are unique (one risk row per product). */
  predicate UniqueRiskIds(risk: seq<R.ScoredRow>) {
    forall i, j :: 0 <= i < j < |risk| ==> risk[i].row.productId != risk[j].row.productId
  }

  /** With unique risk ids a product has at most one risk row. */
  lemma {:induction false} RiskMatchesAtMostOne(pid: int, risk: seq<R.ScoredRow>)
    requires UniqueRiskIds(risk)
    ensures |RiskMatches(pid, risk)| <= 1
    decreases |risk|
  {
    if risk != [] {
      var k := |risk| - 1;
      UniquePrefix(risk);
      RiskMatchesAtMostOne(pid, risk[..k]);
      if risk[k].row.productId == pid {
        NoEarlierMatch(risk);
      }
    }
  }

  lemma UniquePrefix(risk: seq<R.ScoredRow>)
    requires UniqueRiskIds(risk) && risk != []
    ensures UniqueRiskIds(risk[..|risk| - 1])
  {
    var prefix := risk[..|risk| - 1];
    forall i, j | 0 <= i < j < |prefix| ensures prefix[i].row.productId != prefix[j].row.productId {
      assert prefix[i] == risk[i] && prefix[j] == risk[j];
    }
  }

  /** Under unique ids the last row's product has no earlier risk row. */
  lemma NoEarlierMatch(risk: seq<R.ScoredRow>)
    requires UniqueRiskIds(risk) && risk != []
    ensures RiskMatches(risk[|risk| - 1].row.productId, risk[..|risk| - 1]) == []
  {
    var k := |risk| - 1;
    var prefix := risk[..k];
    forall x | x in prefix ensures x.row.productId != risk[k].row.productId {
      var i := IndexOf(prefix, x);
      assert risk[i] == x;
    }
  }

  /** With unique risk ids the merge keeps the KPI table's rows one for one,
      in order. */
  lemma MergeOneForOne(kpi: seq<K.KpiRow>, risk: seq<R.ScoredRow>)
    requires UniqueRiskIds(risk)
    ensures var m := MergeKpiRisk(kpi, risk);
      |m| == |kpi| && forall i :: 0 <= i < |kpi| ==> m[i].kpi == kpi[i]
  {
    var blocks := MergeBlocks(kpi, risk);
    forall k | 0 <= k < |blocks| ensures |blocks[k]| == 1 {
      RiskMatchesAtMostOne(kpi[k].productId, risk);
    }
    FlattenSingles(blocks);
    forall i | 0 <= i < |kpi| ensures MergeKpiRisk(kpi, risk)[i].kpi == kpi[i] {
      assert blocks[i][0] in MergeRow(kpi[i], risk);
    }
  }

  // ---------------------------------------------------------------------------
  // The priority intervention list.
  // ---------------------------------------------------------------------------

  /** The six columns an intervention keeps; the risk columns are missing
      for a product the risk table does not list. */
  datatype Intervention = Intervention(
    productId: int, inventoryRiskScore: real, demandPressureIndex: real, profitabilityMargin: real,
    riskLevel: Option<R.RiskLevel>, expectedProfitMean: Option<real>)

  function InterventionOf(m: Merged): Intervention {
    Intervention(m.kpi.productId, m.kpi.inventoryRiskScore, m.kpi.demandPressureIndex,
                 m.kpi.profitabilityMargin,
                 if m.risk.Some? then Some(m.risk.value.riskLevel) else None,
                 if m.risk.Some? then Some(m.risk.value.row.expectedProfitMean) else None)
  }

  predicate IsFlagged(m: Merged) {
    m.kpi.decisionFlag == K.RequiresInterventionFlag
  }

  /** The flagged merged rows, projected, in merge order. */
  function FlaggedRows(merged: seq<Merged>): (r: seq<Intervention>)
    ensures forall v :: v in r <==> exists m :: m in merged && IsFlagged(m) && v == InterventionOf(m)
  {
    if merged == [] then []
    else
      var k := |merged| - 1;
      assert forall m :: m in merged <==> m in merged[..k] || m == merged[k];
      FlaggedRows(merged[..k]) + (if IsFlagged(merged[k]) then [InterventionOf(merged[k])] else [])
  }

  /** Descending by inventory risk score. */
  predicate RiskDescending(a: Intervention, b: Intervention) {
    a.inventoryRiskScore >= b.inventoryRiskScore
  }

  lemma RiskDescendingTotal()
    ensures TotalPreorder(RiskDescending)
  {
  }

  function Interventions(merged: seq<Merged>): seq<Intervention> {
    SortBy(FlaggedRows(merged), RiskDescending)
  }

  /** The intervention list is the flagged rows, each once, in descending
      inventory risk score. */
  lemma InterventionsMeaning(merged: seq<Merged>)
    ensures var ivs := Interventions(merged);
      && multiset(ivs) == multiset(FlaggedRows(merged))
      && (forall i, j :: 0 <= i < j < |ivs| ==> ivs[i].inventoryRiskScore >= ivs[j].inventoryRiskScore)
      && (forall v :: v in ivs <==> exists m :: m in merged && IsFlagged(m) && v == InterventionOf(m))
  {
    RiskDescendingTotal();
    SortBySorted(FlaggedRows(merged), RiskDescending);
    InterventionsMembers(merged);
  }

  /** Sorting keeps the flagged rows. */
  lemma InterventionsMembers(merged: seq<Merged>)
    ensures forall v :: v in Interventions(merged) <==> v in FlaggedRows(merged)
  {
    var ivs := Interventions(merged);
    forall v ensures v in ivs <==> v in FlaggedRows(merged) {
      assert v in ivs <==> v in multiset(ivs);
      assert v in FlaggedRows(merged) <==> v in multiset(FlaggedRows(merged));
    }
  }

  /** A KPI table whose flags the KPI rule set. */
  predicate FlagsDecided(kpi: seq<K.KpiRow>) {
    forall i :: 0 <= i < |kpi| ==>
      kpi[i].decisionFlag == K.Decide(kpi[i].inventoryRiskScore, kpi[i].demandPressureIndex, kpi[i].profitabilityMargin)
  }

  /** A KPI row meets the intervention rule. */
  predicate MeetsRule(k: K.KpiRow) {
    K.RequiresIntervention(k.inventoryRiskScore, k.demandPressureIndex, k.profitabilityMargin)
  }

  /** When the KPI stage set the flags, every product on the intervention
      list meets the intervention rule. */
  lemma InterventionsMeetRule(kpi: seq<K.KpiRow>, risk: seq<R.ScoredRow>)
    requires FlagsDecided(kpi)
    ensures forall v :: v in Interventions(MergeKpiRisk(kpi, risk)) ==>
      K.RequiresIntervention(v.inventoryRiskScore, v.demandPressureIndex, v.profitabilityMargin)
  {
    var merged := MergeKpiRisk(kpi, risk);
    InterventionsMeaning(merged);
    MergeProvenance(kpi, risk);
    forall v | v in Interventions(merged)
      ensures K.RequiresIntervention(v.inventoryRiskScore, v.demandPressureIndex, v.profitabilityMargin)
    {
      var m :| m in merged && IsFlagged(m) && v == InterventionOf(m);
      var i := IndexOf(kpi, m.kpi);
    }
  }

  /** When the KPI stage set the flags, every product whose KPI row meets the
      intervention rule is on the intervention list. */
  lemma RuleHitsListed(kpi: seq<K.KpiRow>, risk: seq<R.ScoredRow>)
    requires FlagsDecided(kpi)
    ensures forall i :: 0 <= i < |kpi| && MeetsRule(kpi[i]) ==>
      exists v :: v in Interventions(MergeKpiRisk(kpi, risk)) && v.productId == kpi[i].productId
  {
    forall i | 0 <= i < |kpi| && MeetsRule(kpi[i])
      ensures exists v :: v in Interventions(MergeKpiRisk(kpi, risk)) && v.productId == kpi[i].productId
    {
      var v := RuleHitListed(kpi, risk, i);
    }
  }

  lemma RuleHitListed(kpi: seq<K.KpiRow>, risk: seq<R.ScoredRow>, i: nat) returns (v: Intervention)
    requires FlagsDecided(kpi) && i < |kpi| && MeetsRule(kpi[i])
    ensures v in Interventions(MergeKpiRisk(kpi, risk)) && v.productId == kpi[i].productId
  {
    var blocks := MergeBlocks(kpi, risk);
    var m := blocks[i][0];
    assert m in MergeRow(kpi[i], risk);
    FlattenHas(blocks, i, m);
    assert IsFlagged(m);
    v := InterventionOf(m);
    assert v in FlaggedRows(MergeKpiRisk(kpi, risk));
    InterventionsMembers(MergeKpiRisk(kpi, risk));
  }

  /** The flagged rows of a one-for-one merge are as many as the KPI table's
      flagged rows. */
  lemma {:induction false} FlaggedRowsCount(merged: seq<Merged>, kpi: seq<K.KpiRow>)
    requires |merged| == |kpi| && forall i :: 0 <= i < |kpi| ==> merged[i].kpi == kpi[i]
    ensures |FlaggedRows(merged)| == FlagCount(kpi)
    decreases |kpi|
  {
    if kpi != [] {
      var k := |kpi| - 1;
      FlaggedRowsCount(merged[..k], kpi[..k]);
    }
  }

  /** With one risk row per product the intervention list is as long as the
      portfolio's intervention count. */
  lemma InterventionCountAgrees(kpi: seq<K.KpiRow>, risk: seq<R.ScoredRow>)
    requires UniqueRiskIds(risk)
    ensures |Interventions(MergeKpiRisk(kpi, risk))| == PortfolioKpis(kpi).requiresInterventionCount
  {
    MergeOneForOne(kpi, risk);
    FlaggedRowsCount(MergeKpiRisk(kpi, risk), kpi);
  }

  // ---------------------------------------------------------------------------
  // Rule-based executive recommendations.
  // ---------------------------------------------------------------------------

  datatype Advice = ReviewSupplyAndPricing | ConsiderDeprioritization | MonitorClosely

  function AdviceText(a: Advice): string {
    match a
    case ReviewSupplyAndPricing => "Review supply and pricing strategy rather than stopping the product."
    case ConsiderDeprioritization => "Consider product de-prioritization, scale-down, or discontinuation analysis."
    case MonitorClosely => "Monitor closely and reassess replenishment and demand signals."
  }

  /** The three rules in order. A missing value (NaN in the source) makes
      every comparison with it false. */
  function Advise(v: Intervention, avgMargin: Option<real>): Advice {
    if v.riskLevel == Some(R.High) && avgMargin.Some? && v.profitabilityMargin >= avgMargin.value then
      ReviewSupplyAndPricing
    else if avgMargin.Some? && v.profitabilityMargin < avgMargin.value
         && v.expectedProfitMean.Some? && v.expectedProfitMean.value < 0.0 then
      ConsiderDeprioritization
    else
      MonitorClosely
  }

  /** What each recommendation says about the product: review only for a
      high-risk product at or above the average margin, de-prioritization
      only for one below the average margin that is expected to lose money,
      and monitoring otherwise. */
  lemma AdviceByMargin(v: Intervention, avg: real)
    ensures Advise(v, Some(avg)) == ReviewSupplyAndPricing <==>
      v.riskLevel == Some(R.High) && v.profitabilityMargin >= avg
    ensures Advise(v, Some(avg)) == ConsiderDeprioritization <==>
      v.profitabilityMargin < avg && v.expectedProfitMean.Some? && v.expectedProfitMean.value < 0.0
    ensures v.profitabilityMargin >= avg ==> Advise(v, Some(avg)) != ConsiderDeprioritization
    ensures v.riskLevel != Some(R.High) && v.profitabilityMargin >= avg ==> Advise(v, Some(avg)) == MonitorClosely
  {
  }

  /** Without an average margin every product is monitored. */
  lemma AdviceWithoutAverage(v: Intervention)
    ensures Advise(v, None) == MonitorClosely
  {
  }

  /** The lengths of the three sentences, which differ. */
  function TextLength(a: Advice): nat {
    match a
    case ReviewSupplyAndPricing => 68
    case ConsiderDeprioritization => 76
    case MonitorClosely => 62
  }

  lemma AdviceTextLength(a: Advice)
    ensures |AdviceText(a)| == TextLength(a)
  {
  }

  /** The text tells the advice. */
  lemma AdviceTextInjective(a: Advice, b: Advice)
    requires AdviceText(a) == AdviceText(b)
    ensures a == b
  {
    AdviceTextLength(a);
    AdviceTextLength(b);
  }

  datatype Recommendation = Recommendation(productId: int, advice: Advice)

  /** The recommendation loop: one per intervention, in list order. */
  method CompileRecommendations(ivs: seq<Intervention>, avgMargin: Option<real>)
    returns (recs: seq<Recommendation>)
    ensures |recs| == |ivs|
    ensures forall i :: 0 <= i < |ivs| ==>
      recs[i].productId == ivs[i].productId && recs[i].advice == Advise(ivs[i], avgMargin)
  {
    recs := [];
    var i := 0;
    while i < |ivs|
      invariant 0 <= i <= |ivs| && |recs| == i
      invariant forall j :: 0 <= j < i ==>
        recs[j].productId == ivs[j].productId && recs[j].advice == Advise(ivs[j], avgMargin)
    {
      recs := recs + [Recommendation(ivs[i].productId, Advise(ivs[i], avgMargin))];
      i := i + 1;
    }
  }

  // ---------------------------------------------------------------------------
  // The summary object.
  // ---------------------------------------------------------------------------

  datatype Summary = Summary(
    portfolio: Portfolio, highRiskCount: nat, topRiskProducts: seq<TopRisk>,
    worstExpectedProfitProducts: seq<WorstProfit>, interventions: seq<Intervention>,
    recommendations: seq<Recommendation>)

  /** `compile_decision_summary` over the two tables. */
  method BuildDecisionSummary(kpi: seq<K.KpiRow>, risk: seq<R.ScoredRow>) returns (s: Summary)
    ensures s.portfolio == PortfolioKpis(kpi)
    ensures s.highRiskCount == HighRiskCount(risk)
    ensures s.topRiskProducts == TopRiskProducts(risk)
    ensures s.worstExpectedProfitProducts == WorstExpectedProfit(risk)
    ensures s.interventions == Interventions(MergeKpiRisk(kpi, risk))
    ensures |s.recommendations| == |s.interventions|
    ensures forall i :: 0 <= i < |s.interventions| ==>
      s.recommendations[i].productId == s.interventions[i].productId &&
      s.recommendations[i].advice == Advise(s.interventions[i], s.portfolio.avgProfitabilityMargin)
  {
    var portfolio := PortfolioKpis(kpi);
    var ivs := Interventions(MergeKpiRisk(kpi, risk));
    var recs := CompileRecommendations(ivs, portfolio.avgProfitabilityMargin);
    s := Summary(portfolio, HighRiskCount(risk), TopRiskProducts(risk), WorstExpectedProfit(risk), ivs, recs);
  }

  // ---------------------------------------------------------------------------
  // The Markdown export: the narrative and the list sections.
  // ---------------------------------------------------------------------------

  const StableNarrative: string :=
    "Demand behavior across the monitored products is currently stable, with no statistically detected upward or downward shifts in average daily sales."
  const MixedNarrative: string :=
    "Mixed demand dynamics are observed across the monitored products, indicating the presence of upward and/or downward demand movements."

  /** The trend narrative: stable exactly when no product trends up or down. */
  function Narrative(upward: nat, downward: nat): (r: string)
    ensures r == StableNarrative <==> upward == 0 && downward == 0
    ensures r == StableNarrative || r == MixedNarrative
  {
    if upward == 0 && downward == 0 then StableNarrative
    else
      assert |MixedNarrative| != |StableNarrative|;
      MixedNarrative
  }

  const InterventionHeader: string := "## 5. Priority Intervention List\n"
  const NoInterventions: string := "No products currently flagged for intervention.\n"
  const RecommendationHeader: string := "## 6. Executive Recommendations\n"
  const NoRecommendations: string := "No specific recommendations generated.\n"

  /** A list section: the header, then the empty-list sentence, or one line
      per item followed by a blank line. */
  method AppendSection(lines: seq<string>, header: string, emptyText: string, items: seq<string>)
    returns (out: seq<string>)
    ensures items == [] ==> out == lines + [header, emptyText]
    ensures items != [] ==> out == lines + [header] + items + [""]
  {
    out := lines + [header];
    if |items| == 0 {
      out := out + [emptyText];
    } else {
      var i := 0;
      while i < |items|
        invariant 0 <= i <= |items|
        invariant out == lines + [header] + items[..i]
      {
        out := out + [items[i]];
        i := i + 1;
      }
      out := out + [""];
    }
  }

  /** `- Product {pid}: {recommendation}`. */
  function RecommendationLine(r: Recommendation): string {
    "- Product " + D.IntToString(r.productId) + ": " + AdviceText(r.advice)
  }

  /** A recommendation line names its product and its advice unambiguously. */
  lemma RecommendationLineInjective(a: Recommendation, b: Recommendation)
    requires RecommendationLine(a) == RecommendationLine(b)
    ensures a == b
  {
    var sa := D.IntToString(a.productId);
    var sb := D.IntToString(b.productId);
    var la := RecommendationLine(a);
    FirstSpace(a);
    FirstSpace(b);
    assert |sa| == |sb|;
    assert sa == la[10..10 + |sa|] == sb;
    D.IntToStringInjective(a.productId, b.productId);
    assert AdviceText(a.advice) == la[12 + |sa|..] == AdviceText(b.advice);
    AdviceTextInjective(a.advice, b.advice);
  }

  /** After the `- Product ` prefix, the first space of a line follows the
      printed product id and its colon. */
  lemma FirstSpace(r: Recommendation)
    ensures var s := D.IntToString(r.productId); var l := RecommendationLine(r);
      && |l| > 11 + |s| && l[10..10 + |s|] == s && l[12 + |s|..] == AdviceText(r.advice)
      && l[11 + |s|] == ' ' && forall i :: 10 <= i <= 10 + |s| ==> l[i] != ' '
  {
    LineParts(D.IntToString(r.productId), AdviceText(r.advice));
  }

  /** The same, for any id text without spaces and any advice text. */
  lemma LineParts(s: string, t: string)
    requires forall i :: 0 <= i < |s| ==> s[i] != ' '
    ensures var l := "- Product " + s + ": " + t;
      && |l| > 11 + |s| && l[10..10 + |s|] == s && l[12 + |s|..] == t
      && l[11 + |s|] == ' ' && forall i :: 10 <= i <= 10 + |s| ==> l[i] != ' '
  {
    Splice("- Product ", s, ": ", t);
  }

  /** The parts of a concatenation `p + s + q + t`, by position. */
  lemma Splice(p: string, s: string, q: string, t: string)
    ensures var l := p + s + q + t;
      && |l| == |p| + |s| + |q| + |t|
      && l[|p|..|p| + |s|] == s && l[|p| + |s| + |q|..] == t
      && (forall i :: |p| <= i < |p| + |s| ==> l[i] == s[i - |p|])
      && (forall i :: 0 <= i < |q| ==> l[|p| + |s| + i] == q[i])
  {
  }

  /** `- Product {pid} | ...`: the id, then the intervention's figures, whose
      floating-point formatting is given. */
  function InterventionLine(iv: Intervention, figures: string): string {
    "- Product " + D.IntToString(iv.productId) + " | " + figures
  }

  function InterventionLines(ivs: seq<Intervention>, figures: seq<string>): (r: seq<string>)
    requires |figures| == |ivs|
    ensures |r| == |ivs| && forall i :: 0 <= i < |ivs| ==> r[i] == InterventionLine(ivs[i], figures[i])
  {
    var r := seq(|ivs|, i requires 0 <= i < |ivs| => InterventionLine(ivs[i], figures[i]));
    assert forall i :: 0 <= i < |ivs| ==> r[i] == InterventionLine(ivs[i], figures[i]);
    r
  }

  /** Section 5 of the export: its header, then the empty-list sentence, or
      one line per intervention, in list order, led by its product id. */
  method InterventionSection(lines: seq<string>, ivs: seq<Intervention>, figures: seq<string>) returns (out: seq<string>)
    requires |figures| == |ivs|
    ensures |out| > |lines| && out[..|lines|] == lines && out[|lines|] == InterventionHeader
    ensures ivs == [] ==> out == lines + [InterventionHeader, NoInterventions]
    ensures ivs != [] ==> |out| == |lines| + |ivs| + 2 && out[|out| - 1] == ""
    ensures ivs != [] ==> forall i :: 0 <= i < |ivs| ==>
      out[|lines| + 1 + i] == InterventionLine(ivs[i], figures[i]) &&
      out[|lines| + 1 + i][..10] == "- Product " &&
      D.IntToString(ivs[i].productId) <= out[|lines| + 1 + i][10..]
  {
    out := AppendSection(lines, InterventionHeader, NoInterventions, InterventionLines(ivs, figures));
    if ivs != [] {
      forall i | 0 <= i < |ivs|
        ensures out[|lines| + 1 + i][..10] == "- Product " && D.IntToString(ivs[i].productId) <= out[|lines| + 1 + i][10..]
      {
        var l := InterventionLine(ivs[i], figures[i]);
        assert out[|lines| + 1 + i] == l;
        var id := D.IntToString(ivs[i].productId);
        assert l == "- Product " + (id + " | " + figures[i]);
      }
    }
  }

  function RecommendationLines(recs: seq<Recommendation>): (r: seq<string>)
    ensures |r| == |recs| && forall i :: 0 <= i < |recs| ==> r[i] == RecommendationLine(recs[i])
  {
    var r := seq(|recs|, i requires 0 <= i < |recs| => RecommendationLine(recs[i]));
    assert forall i :: 0 <= i < |recs| ==> r[i] == RecommendationLine(recs[i]);
    r
  }

  /** Section 6: the header and either the empty sentence or one line per
      recommendation, in order, and a blank line. */
  method RecommendationSection(lines: seq<string>, recs: seq<Recommendation>) returns (out: seq<string>)
    ensures |out| > |lines| && out[..|lines|] == lines && out[|lines|] == RecommendationHeader
    ensures recs == [] ==> out == lines + [RecommendationHeader, NoRecommendations]
    ensures recs != [] ==> |out| == |lines| + |recs| + 2 && out[|out| - 1] == ""
    ensures recs != [] ==> forall i :: 0 <= i < |recs| ==> out[|lines| + 1 + i] == RecommendationLine(recs[i])
  {
    out := AppendSection(lines, RecommendationHeader, NoRecommendations, RecommendationLines(recs));
  }
}
