/** One-at-a-time sensitivity analysis: each candidate driver column of the
    portfolio table is scaled by -20% and +20% in place, the four portfolio
    KPIs are recomputed, the column is reverted, and the composite impacts are
    normalised into a sensitivity score. Only numeric columns are modelled. */
module Sensitivity {
  import opened Common
  import opened Ordering

  const ChangeRatios: seq<real> := [-0.2, 0.2]
  const TargetMetrics: seq<string> :=
    ["expected_profit", "remaining_stock", "total_units_sold", "total_revenue"]
  const KeyDrivers: seq<string> :=
    ["total_sales", "price", "unit_cost", "current_stock",
     "risk_score", "avg_daily_revenue", "profit_std", "lead_time_days"]
  const IgnoreColumns: seq<string> :=
    ["product_id", "scenario_name", "run_id", "date", "simulation_id",
     "is_stockout", "demand_std", "abc_class"]
  const ImpliedPpuColumn: string := "_implied_ppu"
  /** Heuristic weight of a remaining-stock change in the impact magnitude. */
  const StockWeight: real := 10.0

  /** The numeric columns of a table, by name. */
  type Cells = map<string, seq<real>>

  predicate Shaped(cells: Cells, n: nat) {
    forall c :: c in cells ==> |cells[c]| == n
  }

  /** Cell `i` of column `name`; an absent column reads as zeros. */
  function At(cells: Cells, name: string, i: int): real {
    if name in cells && 0 <= i < |cells[name]| then cells[name][i] else 0.0
  }

  function Zeros(n: nat): (r: seq<real>)
    ensures |r| == n
    ensures forall i :: 0 <= i < n ==> r[i] == 0.0
  {
    seq(n, i => 0.0)
  }

  // ---------------------------------------------------------------------
  // clean_and_prepare
  // ---------------------------------------------------------------------

  /** Profit per unit used when price or cost is missing. */
  function ImpliedPpu(profit: real, sales: real): (r: real)
    ensures sales > 0.0 ==> r * sales == profit
    ensures sales <= 0.0 ==> r == 0.0
  {
    if sales > 0.0 then profit / sales else 0.0
  }

  function Filled(s: seq<Option<real>>): (r: seq<real>)
    ensures |r| == |s|
    ensures forall i :: 0 <= i < |s| ==> r[i] == FillZero(s[i])
  {
    seq(|s|, i requires 0 <= i < |s| => FillZero(s[i]))
  }

  /** The `_implied_ppu` column computed from the filled table. */
  function PpuColumn(filled: Cells, n: nat): (r: seq<real>)
    ensures |r| == n
  {
    if "total_sales" in filled && "expected_profit" in filled then
      seq(n, i => ImpliedPpu(At(filled, "expected_profit", i), At(filled, "total_sales", i)))
    else Zeros(n)
  }

  /** Column order after appending each of `names` that is not yet present. */
  function AddColumns(cols: seq<string>, names: seq<string>): (r: seq<string>)
    ensures |cols| <= |r| && r[..|cols|] == cols
  {
    if names == [] then cols
    else
      var prev := AddColumns(cols, names[..|names| - 1]);
      var t := names[|names| - 1];
      if t in prev then prev else prev + [t]
  }

  /** Appending the missing names adds exactly those names, and keeps the
      columns distinct. */
  lemma {:induction false} AddColumnsMembers(cols: seq<string>, names: seq<string>)
    ensures forall c :: c in AddColumns(cols, names) <==> c in cols || c in names
    ensures Distinct(cols) ==> Distinct(AddColumns(cols, names))
    decreases |names|
  {
    if names != [] {
      var k := |names| - 1;
      AddColumnsMembers(cols, names[..k]);
      assert forall c :: c in names <==> c in names[..k] || c == names[k];
    }
  }

  /** The table after adding a zero column for each of `names` not yet present. */
  function AddZeros(m: Cells, names: seq<string>, n: nat): Cells {
    if names == [] then m
    else
      var prev := AddZeros(m, names[..|names| - 1], n);
      var t := names[|names| - 1];
      if t in prev then prev else prev[t := Zeros(n)]
  }

  /** Adding the zero columns adds exactly the missing names, as zeros, and
      keeps every existing column's cells. */
  lemma {:induction false} AddZerosMembers(m: Cells, names: seq<string>, n: nat)
    ensures forall c :: c in AddZeros(m, names, n) <==> c in m || c in names
    ensures forall c :: c in m ==> AddZeros(m, names, n)[c] == m[c]
    ensures forall c :: c in AddZeros(m, names, n) && c !in m ==> AddZeros(m, names, n)[c] == Zeros(n)
    decreases |names|
  {
    if names != [] {
      var k := |names| - 1;
      AddZerosMembers(m, names[..k], n);
      assert forall c :: c in names <==> c in names[..k] || c == names[k];
    }
  }

  function WithPpuColumns(cols: seq<string>): seq<string> {
    if ImpliedPpuColumn in cols then cols else cols + [ImpliedPpuColumn]
  }

  function FilledCells(raw: map<string, seq<Option<real>>>): Cells {
    map c | c in raw :: Filled(raw[c])
  }

  function WithPpuCells(raw: map<string, seq<Option<real>>>, n: nat): Cells {
    var filled := FilledCells(raw);
    filled[ImpliedPpuColumn := PpuColumn(filled, n)]
  }

  /** Column order of the prepared table. */
  function PreparedColumns(cols: seq<string>): seq<string> {
    AddColumns(WithPpuColumns(cols), TargetMetrics)
  }

  /** Cells of the prepared table: NaNs filled with 0, `_implied_ppu`
      (re)computed, and every target metric present. */
  function PreparedCells(raw: map<string, seq<Option<real>>>, n: nat): Cells {
    AddZeros(WithPpuCells(raw, n), TargetMetrics, n)
  }

  ghost predicate RawTable(cols: seq<string>, raw: map<string, seq<Option<real>>>, n: nat) {
    Distinct(cols)
    && (forall c :: c in raw <==> c in cols)
    && (forall c :: c in raw ==> |raw[c]| == n)
  }

  /** One more name: added when it is missing, both to the columns and to the
      cells. */
  lemma AddStep(m: Cells, cols: seq<string>, names: seq<string>, t: string, n: nat)
    ensures var p := AddZeros(m, names, n);
      AddZeros(m, names + [t], n) == if t in p then p else p[t := Zeros(n)]
    ensures var q := AddColumns(cols, names);
      AddColumns(cols, names + [t]) == if t in q then q else q + [t]
  {
    assert (names + [t])[..|names|] == names;
  }

  /** One iteration of the loop below keeps its invariant. */
  lemma AddStepAt(c0: Cells, cs0: seq<string>, names: seq<string>, i: nat, n: nat, c: Cells, cs: seq<string>)
    requires i < |names| && forall x :: x in c0 <==> x in cs0
    requires c == AddZeros(c0, names[..i], n) && cs == AddColumns(cs0, names[..i])
    ensures names[i] in c <==> names[i] in cs
    ensures (if names[i] in c then c else c[names[i] := Zeros(n)]) == AddZeros(c0, names[..i + 1], n)
    ensures (if names[i] in c then cs else cs + [names[i]]) == AddColumns(cs0, names[..i + 1])
  {
    assert names[..i + 1] == names[..i] + [names[i]];
    AddStep(c0, cs0, names[..i], names[i], n);
    AddZerosMembers(c0, names[..i], n);
    AddColumnsMembers(cs0, names[..i]);
  }

  /** The loop of clean_and_prepare that adds each missing name (there, each
      target metric) as a zero column. */
  method AddMissingTargets(c0: Cells, cs0: seq<string>, names: seq<string>, n: nat) returns (c: Cells, cs: seq<string>)
    requires forall x :: x in c0 <==> x in cs0
    ensures c == AddZeros(c0, names, n)
    ensures cs == AddColumns(cs0, names)
  {
    c, cs := c0, cs0;
    var i := 0;
    while i < |names|
      invariant 0 <= i <= |names|
      invariant c == AddZeros(c0, names[..i], n)
      invariant cs == AddColumns(cs0, names[..i])
    {
      var t := names[i];
      AddStepAt(c0, cs0, names, i, n, c, cs);
      if t !in c {
        c := c[t := Zeros(n)];
        cs := cs + [t];
      }
      i := i + 1;
    }
    assert names[..i] == names;
  }

  /** Before the targets are added, the cells and the columns name the same
      columns, without repeats. */
  lemma WithPpuMatches(cols: seq<string>, raw: map<string, seq<Option<real>>>, n: nat)
    requires RawTable(cols, raw, n)
    ensures forall x :: x in WithPpuCells(raw, n) <==> x in WithPpuColumns(cols)
    ensures Distinct(WithPpuColumns(cols))
  {
  }

  /** The prepared table is well-formed: every column has `n` cells and the
      cells and the (distinct) columns name the same columns. */
  lemma PreparedValid(cols: seq<string>, raw: map<string, seq<Option<real>>>, n: nat)
    requires RawTable(cols, raw, n)
    ensures Shaped(PreparedCells(raw, n), n)
    ensures Distinct(PreparedColumns(cols))
    ensures forall x :: x in PreparedCells(raw, n) <==> x in PreparedColumns(cols)
  {
    WithPpuMatches(cols, raw, n);
    PreparedContents(cols, raw, n);
    AddZerosMembers(WithPpuCells(raw, n), TargetMetrics, n);
    AddColumnsMembers(WithPpuColumns(cols), TargetMetrics);
  }

  /** What preparation guarantees: every target metric and `_implied_ppu` is a
      column, the implied PPU is profit/sales where sales are positive and 0
      elsewhere (0 throughout without both inputs), and every other input
      column keeps its values with NaN read as 0. */
  lemma PreparedContents(cols: seq<string>, raw: map<string, seq<Option<real>>>, n: nat)
    requires RawTable(cols, raw, n)
    ensures var cells := PreparedCells(raw, n);
      && Shaped(cells, n)
      && ImpliedPpuColumn in cells
      && (forall t :: t in TargetMetrics ==> t in cells)
      && (forall t :: t in TargetMetrics && t !in raw ==> cells[t] == Zeros(n))
      && (forall c :: c in raw ==> c in cells)
      && (forall c, i :: c in raw && c != ImpliedPpuColumn && 0 <= i < n ==>
            cells[c][i] == FillZero(raw[c][i]))
      && (forall i :: 0 <= i < n ==>
            cells[ImpliedPpuColumn][i] ==
              (if "total_sales" in raw && "expected_profit" in raw
               then ImpliedPpu(FillZero(raw["expected_profit"][i]), FillZero(raw["total_sales"][i]))
               else 0.0))
  {
    var filled := FilledCells(raw);
    var w := WithPpuCells(raw, n);
    assert Shaped(w, n);
    AddZerosMembers(w, TargetMetrics, n);
    forall i | 0 <= i < n && "total_sales" in raw && "expected_profit" in raw
      ensures w[ImpliedPpuColumn][i]
        == ImpliedPpu(FillZero(raw["expected_profit"][i]), FillZero(raw["total_sales"][i]))
    {
      assert At(filled, "expected_profit", i) == FillZero(raw["expected_profit"][i]);
      assert At(filled, "total_sales", i) == FillZero(raw["total_sales"][i]);
    }
  }

  // ---------------------------------------------------------------------
  // vectorized_recalculation
  // ---------------------------------------------------------------------

  datatype Metrics = Metrics(
    expectedProfit: real,
    remainingStock: real,
    totalUnitsSold: real,
    totalRevenue: real)

  /** Sales of row `i` (zeros when there is no `total_sales` column). */
  function SalesAt(c: Cells, i: int): real {
    At(c, "total_sales", i)
  }

  predicate PricedAndCosted(c: Cells) {
    "price" in c && "unit_cost" in c
  }

  function ProfitAt(c: Cells, i: int): real {
    if PricedAndCosted(c) then (At(c, "price", i) - At(c, "unit_cost", i)) * SalesAt(c, i)
    else SalesAt(c, i) * At(c, ImpliedPpuColumn, i)
  }

  function RevenueAt(c: Cells, i: int): real {
    if PricedAndCosted(c) then At(c, "price", i) * SalesAt(c, i)
    else SalesAt(c, i) * At(c, ImpliedPpuColumn, i)
  }

  function RemainingAt(c: Cells, i: int): real {
    if "current_stock" in c then Max(0.0, At(c, "current_stock", i) - SalesAt(c, i))
    else At(c, "remaining_stock", i)
  }

  function Profits(c: Cells, n: nat): seq<real> { seq(n, i => ProfitAt(c, i)) }
  function Revenues(c: Cells, n: nat): seq<real> { seq(n, i => RevenueAt(c, i)) }
  function Remainings(c: Cells, n: nat): seq<real> { seq(n, i => RemainingAt(c, i)) }
  function SalesColumn(c: Cells, n: nat): seq<real> { seq(n, i => SalesAt(c, i)) }
  function CostOfSales(c: Cells, n: nat): seq<real> {
    seq(n, i => At(c, "unit_cost", i) * SalesAt(c, i))
  }

  /** Portfolio KPIs of the table's current state. */
  function Recalc(c: Cells, n: nat): Metrics {
    Metrics(Sum(Profits(c, n)), Sum(Remainings(c, n)), Sum(SalesColumn(c, n)), Sum(Revenues(c, n)))
  }

  /** With price and unit_cost, profit is revenue minus the cost of the units
      sold; without them, profit and revenue are both sales times implied PPU. */
  lemma RecalcProfitAndRevenue(c: Cells, n: nat)
    ensures PricedAndCosted(c) ==>
      Recalc(c, n).expectedProfit == Recalc(c, n).totalRevenue - Sum(CostOfSales(c, n))
    ensures !PricedAndCosted(c) ==> Recalc(c, n).expectedProfit == Recalc(c, n).totalRevenue
  {
    if PricedAndCosted(c) {
      var p, r, k := Profits(c, n), Revenues(c, n), CostOfSales(c, n);
      forall i | 0 <= i < n ensures p[i] == r[i] - k[i] {
        var s := SalesAt(c, i);
        assert (At(c, "price", i) - At(c, "unit_cost", i)) * s
          == At(c, "price", i) * s - At(c, "unit_cost", i) * s;
      }
      SumSub(r, k, p);
    } else {
      assert Profits(c, n) == Revenues(c, n);
    }
  }

  /** When current_stock exists, remaining stock is a sum of non-negative
      per-row remainders. */
  lemma RecalcRemainingNonNegative(c: Cells, n: nat)
    requires "current_stock" in c
    ensures Recalc(c, n).remainingStock >= 0.0
  {
    SumNonNegative(Remainings(c, n));
  }

  /** Without a total_sales column nothing is sold: units, profit and revenue
      are all 0. */
  lemma RecalcWithoutSales(c: Cells, n: nat)
    requires "total_sales" !in c
    ensures Recalc(c, n).totalUnitsSold == 0.0
    ensures Recalc(c, n).expectedProfit == 0.0
    ensures Recalc(c, n).totalRevenue == 0.0
  {
    SumConstant(SalesColumn(c, n), 0.0);
    SumConstant(Profits(c, n), 0.0);
    SumConstant(Revenues(c, n), 0.0);
  }

  /** The columns the recalculation reads. */
  predicate RecalcInput(v: string) {
    v in ["total_sales", "price", "unit_cost", "current_stock", "remaining_stock", ImpliedPpuColumn]
  }

  /** Overwriting an existing column the recalculation does not read leaves
      every KPI unchanged. */
  lemma RecalcIgnoresOtherColumns(c: Cells, n: nat, v: string, x: seq<real>)
    requires v in c && !RecalcInput(v)
    ensures Recalc(c[v := x], n) == Recalc(c, n)
  {
    var d := c[v := x];
    assert forall name, i :: name != v ==> At(d, name, i) == At(c, name, i);
    assert PricedAndCosted(d) == PricedAndCosted(c);
    forall i | 0 <= i < n ensures ProfitAt(d, i) == ProfitAt(c, i) && RevenueAt(d, i) == RevenueAt(c, i) {
    }
    assert Profits(d, n) == Profits(c, n);
    assert Revenues(d, n) == Revenues(c, n);
    assert Remainings(d, n) == Remainings(c, n);
    assert SalesColumn(d, n) == SalesColumn(c, n);
  }

  // ---------------------------------------------------------------------
  // get_candidate_variables
  // ---------------------------------------------------------------------

  predicate Excluded(col: string) {
    col in IgnoreColumns || col in TargetMetrics || (|col| > 0 && col[0] == '_')
  }

  /** More than one distinct value (pandas `nunique() > 1`). */
  predicate Varies(s: seq<real>) {
    exists j :: 0 <= j < |s| && s[j] != s[0]
  }

  predicate IsCandidate(cells: Cells, col: string) {
    col in cells && !Excluded(col) && (col in KeyDrivers || Varies(cells[col]))
  }

  /** The candidate columns in table order, before sorting. */
  function Candidates(columns: seq<string>, cells: Cells): (r: seq<string>)
    ensures forall x :: x in r <==> x in columns && IsCandidate(cells, x)
  {
    if columns == [] then []
    else
      var col := columns[|columns| - 1];
      var prev := Candidates(columns[..|columns| - 1], cells);
      assert forall x :: x in columns <==> x in columns[..|columns| - 1] || x == col;
      if IsCandidate(cells, col) then prev + [col] else prev
  }

  /** `sorted(list(set(candidates)))`. */
  function CandidateSpec(columns: seq<string>, cells: Cells): seq<string> {
    SortedSet(Candidates(columns, cells), StrLt)
  }

  /** The selected variables are in ascending order, free of duplicates, and
      are exactly the table's columns that are neither ignored, a target nor
      internal, and are either a key driver or not constant. */
  lemma CandidateSpecProperties(columns: seq<string>, cells: Cells)
    ensures var r := CandidateSpec(columns, cells);
      && StrictlySorted(r, StrLt)
      && Distinct(r)
      && (forall x :: x in r <==> x in columns && IsCandidate(cells, x))
  {
    var r := CandidateSpec(columns, cells);
    StrLtStrictTotal();
    SortedSetSorted(Candidates(columns, cells), StrLt);
    forall i, j | 0 <= i < j < |r| ensures r[i] != r[j] {
      StrictlySortedDistinct(r, StrLt, i, j);
    }
  }

  // ---------------------------------------------------------------------
  // run_oat_analysis
  // ---------------------------------------------------------------------

  function Scale(s: seq<real>, k: real): (r: seq<real>)
    ensures |r| == |s|
    ensures forall i :: 0 <= i < |s| ==> r[i] == s[i] * k
  {
    seq(|s|, i requires 0 <= i < |s| => s[i] * k)
  }

  /** The table with column `v` multiplied by `1 + ratio`. */
  function Perturbed(c: Cells, v: string, ratio: real): Cells
    requires v in c
  {
    c[v := Scale(c[v], 1.0 + ratio)]
  }

  function Delta(after: Metrics, before: Metrics): Metrics {
    Metrics(
      after.expectedProfit - before.expectedProfit,
      after.remainingStock - before.remainingStock,
      after.totalUnitsSold - before.totalUnitsSold,
      after.totalRevenue - before.totalRevenue)
  }

  /** Composite impact, weighted towards profit. */
  function Impact(d: Metrics): (r: real)
    ensures r >= 0.0
    ensures r == 0.0 <==> d.expectedProfit == 0.0 && d.remainingStock == 0.0
  {
    Abs(d.expectedProfit) + StockWeight * Abs(d.remainingStock)
  }

  datatype OatRow = OatRow(
    variable: string,
    changeRatio: real,
    delta: Metrics,
    raw: Metrics,
    impactMagnitude: real)

  function RowFor(c: Cells, n: nat, baseline: Metrics, v: string, ratio: real): OatRow
    requires v in c
  {
    var m := Recalc(Perturbed(c, v, ratio), n);
    var d := Delta(m, baseline);
    OatRow(v, ratio, d, m, Impact(d))
  }

  /** The rows one variable contributes; a variable that is not a column raises
      on every ratio, is logged and contributes nothing. */
  function VariableRows(c: Cells, n: nat, baseline: Metrics, v: string): seq<OatRow> {
    if v in c then [RowFor(c, n, baseline, v, ChangeRatios[0]), RowFor(c, n, baseline, v, ChangeRatios[1])]
    else []
  }

  /** The result rows of the perturbation loop over `vars`. */
  function OatRows(c: Cells, n: nat, vars: seq<string>): seq<OatRow> {
    if vars == [] then []
    else OatRows(c, n, vars[..|vars| - 1]) + VariableRows(c, n, Recalc(c, n), vars[|vars| - 1])
  }

  /** A row's raw KPIs are those of the perturbed table, its deltas are the
      raw KPIs minus the baseline, and its impact is computed from the deltas. */
  lemma RowForMeaning(c: Cells, n: nat, v: string, ratio: real)
    requires v in c
    ensures var row, base := RowFor(c, n, Recalc(c, n), v, ratio), Recalc(c, n);
      && row.variable == v && row.changeRatio == ratio
      && row.raw == Recalc(Perturbed(c, v, ratio), n)
      && row.delta.expectedProfit == row.raw.expectedProfit - base.expectedProfit
      && row.delta.remainingStock == row.raw.remainingStock - base.remainingStock
      && row.delta.totalUnitsSold == row.raw.totalUnitsSold - base.totalUnitsSold
      && row.delta.totalRevenue == row.raw.totalRevenue - base.totalRevenue
      && row.impactMagnitude == Impact(row.delta)
  {
  }

  /** For variables that are all columns: exactly one row per (variable,
      ratio), in variable-major order. */
  lemma {:induction false} OatRowsShape(c: Cells, n: nat, vars: seq<string>)
    requires forall v :: v in vars ==> v in c
    ensures |OatRows(c, n, vars)| == 2 * |vars|
    ensures forall q :: 0 <= q < 2 * |vars| ==>
      OatRows(c, n, vars)[q] == RowFor(c, n, Recalc(c, n), vars[q / 2], ChangeRatios[q % 2])
    decreases |vars|
  {
    if vars != [] {
      var k := |vars| - 1;
      var pre := vars[..k];
      assert forall v :: v in pre ==> v in vars;
      OatRowsShape(c, n, pre);
      var r := OatRows(c, n, vars);
      var prev := OatRows(c, n, pre);
      var base := Recalc(c, n);
      assert r == prev + VariableRows(c, n, base, vars[k]);
      forall q | 0 <= q < 2 * |vars|
        ensures r[q] == RowFor(c, n, base, vars[q / 2], ChangeRatios[q % 2])
      {
        if q < 2 * k {
          assert r[q] == prev[q];
          assert q / 2 < k;
          assert pre[q / 2] == vars[q / 2];
        } else {
          assert q / 2 == k;
          assert r[q] == VariableRows(c, n, base, vars[k])[q - 2 * k];
          assert q % 2 == q - 2 * k;
        }
      }
    }
  }

  /** Every row is for one of the requested variables that is a column, at
      one of the two ratios (a missing variable yields no row). */
  lemma {:induction false} OatRowsVariables(c: Cells, n: nat, vars: seq<string>)
    ensures forall row :: row in OatRows(c, n, vars) ==>
      row.variable in vars && row.variable in c && row.changeRatio in ChangeRatios
    decreases |vars|
  {
    if vars != [] {
      var pre := vars[..|vars| - 1];
      OatRowsVariables(c, n, pre);
      assert forall v :: v in pre ==> v in vars;
    }
  }

  /** Perturbing a column the recalculation does not read has no impact. */
  lemma NonInputHasNoImpact(c: Cells, n: nat, v: string, ratio: real)
    requires v in c && !RecalcInput(v)
    ensures RowFor(c, n, Recalc(c, n), v, ratio).impactMagnitude == 0.0
  {
    RecalcIgnoresOtherColumns(c, n, v, Scale(c[v], 1.0 + ratio));
  }

  function Impacts(rows: seq<OatRow>): (r: seq<real>)
    ensures |r| == |rows|
    ensures forall i :: 0 <= i < |rows| ==> r[i] == rows[i].impactMagnitude
  {
    seq(|rows|, i requires 0 <= i < |rows| => rows[i].impactMagnitude)
  }

  /** The divisor of the score: the largest impact, or 1 when that is 0. */
  function ScoreDivisor(rows: seq<OatRow>): real
    requires rows != []
  {
    var m := MaxOf(Impacts(rows));
    if m == 0.0 then 1.0 else m
  }

  datatype SensitivityRow = SensitivityRow(row: OatRow, sensitivityScore: real)

  /** The result frame with its `sensitivity_score` column. */
  function Scored(rows: seq<OatRow>): (r: seq<SensitivityRow>)
    ensures |r| == |rows|
  {
    if rows == [] then []
    else
      var d := ScoreDivisor(rows);
      seq(|rows|, i requires 0 <= i < |rows| => SensitivityRow(rows[i], rows[i].impactMagnitude / d))
  }

  /** One score: an impact in [0, m] divided by the divisor for maximum `m`. */
  lemma ScoreInRange(x: real, m: real)
    requires 0.0 <= x <= m
    ensures 0.0 <= x / (if m == 0.0 then 1.0 else m) <= 1.0
    ensures x == m && m > 0.0 ==> x / m == 1.0
  {
    if m > 0.0 {
      assert x / m <= m / m;
    }
  }

  /** Scores of non-negative impacts lie in [0, 1]; they are all 0 when every
      impact is 0, and otherwise the largest impact scores exactly 1. */
  lemma ScoredRange(rows: seq<OatRow>)
    requires forall i :: 0 <= i < |rows| ==> rows[i].impactMagnitude >= 0.0
    ensures var r := Scored(rows);
      && (forall i :: 0 <= i < |r| ==> r[i].row == rows[i] && 0.0 <= r[i].sensitivityScore <= 1.0)
      && ((forall i :: 0 <= i < |rows| ==> rows[i].impactMagnitude == 0.0) ==>
            forall i :: 0 <= i < |r| ==> r[i].sensitivityScore == 0.0)
      && ((exists i :: 0 <= i < |rows| && rows[i].impactMagnitude > 0.0) ==>
            exists i :: 0 <= i < |r| && r[i].sensitivityScore == 1.0)
  {
    if rows != [] {
      var imps := Impacts(rows);
      var m := MaxOf(imps);
      var r := Scored(rows);
      assert imps[0] >= 0.0;
      forall i | 0 <= i < |r|
        ensures r[i].row == rows[i] && 0.0 <= r[i].sensitivityScore <= 1.0
      {
        ScoreInRange(imps[i], m);
      }
      if exists i :: 0 <= i < |rows| && rows[i].impactMagnitude > 0.0 {
        var i :| 0 <= i < |rows| && rows[i].impactMagnitude > 0.0;
        assert imps[i] <= m;
        var j :| 0 <= j < |imps| && imps[j] == m;
        ScoreInRange(imps[j], m);
        assert r[j].sensitivityScore == 1.0;
      }
    }
  }

  /** Impacts of the loop's rows are never negative, so `ScoredRange` applies. */
  lemma {:induction false} OatRowsImpactNonNegative(c: Cells, n: nat, vars: seq<string>)
    ensures forall i :: 0 <= i < |OatRows(c, n, vars)| ==> OatRows(c, n, vars)[i].impactMagnitude >= 0.0
    decreases |vars|
  {
    if vars != [] {
      OatRowsImpactNonNegative(c, n, vars[..|vars| - 1]);
    }
  }

  // ---------------------------------------------------------------------
  // The table, mutated in place
  // ---------------------------------------------------------------------

  class Frame {
    var columns: seq<string>
    var cells: Cells
    var rowCount: nat

    ghost predicate Valid()
      reads this
    {
      Shaped(cells, rowCount)
      && Distinct(columns)
      && (forall c :: c in cells <==> c in columns)
    }

    /** clean_and_prepare: fill NaNs with 0, compute `_implied_ppu`, and add
        each missing target metric as a zero column. */
    constructor Prepare(cols: seq<string>, raw: map<string, seq<Option<real>>>, n: nat)
      requires RawTable(cols, raw, n)
      ensures Valid()
      ensures rowCount == n
      ensures columns == PreparedColumns(cols)
      ensures cells == PreparedCells(raw, n)
    {
      WithPpuMatches(cols, raw, n);
      var c, cs := AddMissingTargets(WithPpuCells(raw, n), WithPpuColumns(cols), TargetMetrics, n);
      PreparedValid(cols, raw, n);
      columns := cs;
      cells := c;
      rowCount := n;
    }

    /** get_candidate_variables. */
    method CandidateVariables() returns (vars: seq<string>)
      requires Valid()
      ensures vars == CandidateSpec(columns, cells)
    {
      var found: seq<string> := [];
      var i := 0;
      while i < |columns|
        invariant 0 <= i <= |columns|
        invariant found == Candidates(columns[..i], cells)
      {
        var col := columns[i];
        assert columns[..i + 1][..i] == columns[..i];
        if col in cells && !Excluded(col) && (col in KeyDrivers || Varies(cells[col])) {
          found := found + [col];
        }
        i := i + 1;
      }
      assert columns[..i] == columns;
      vars := SortedSet(found, StrLt);
    }

    /** run_oat_analysis: every variable that is a column is scaled in place by
        each ratio, the KPIs are recomputed, and the column is reverted. The
        table ends exactly as it started. */
    method RunOatAnalysis(variables: seq<string>) returns (results: seq<SensitivityRow>)
      requires Valid()
      modifies this
      ensures Valid()
      ensures columns == old(columns) && cells == old(cells) && rowCount == old(rowCount)
      ensures results == Scored(OatRows(cells, rowCount, variables))
    {
      var baseline := Recalc(cells, rowCount);
      var out: seq<OatRow> := [];
      var k := 0;
      while k < |variables|
        invariant 0 <= k <= |variables|
        invariant Valid()
        invariant columns == old(columns) && cells == old(cells) && rowCount == old(rowCount)
        invariant baseline == Recalc(cells, rowCount)
        invariant out == OatRows(cells, rowCount, variables[..k])
      {
        var v := variables[k];
        assert variables[..k + 1][..k] == variables[..k];
        var rows := PerturbVariable(v, baseline);
        out := out + rows;
        k := k + 1;
      }
      assert variables[..k] == variables;
      results := Scored(out);
    }

    /** The inner loop for one variable: when it is a column, scale it by each
        ratio in turn, recompute the KPIs and revert it. */
    method PerturbVariable(v: string, baseline: Metrics) returns (rows: seq<OatRow>)
      requires Valid() && baseline == Recalc(cells, rowCount)
      modifies this
      ensures columns == old(columns) && cells == old(cells) && rowCount == old(rowCount)
      ensures rows == if v in cells then VariableRows(cells, rowCount, baseline, v) else []
    {
      rows := [];
      var j := 0;
      while j < |ChangeRatios|
        invariant 0 <= j <= |ChangeRatios|
        invariant columns == old(columns) && cells == old(cells) && rowCount == old(rowCount)
        invariant rows == if v in cells then VariableRows(cells, rowCount, baseline, v)[..j] else []
      {
        var ratio := ChangeRatios[j];
        if v in cells {
          var original := cells[v];
          cells := cells[v := Scale(original, 1.0 + ratio)];
          var m := Recalc(cells, rowCount);
          var d := Delta(m, baseline);
          rows := rows + [OatRow(v, ratio, d, m, Impact(d))];
          cells := cells[v := original];
          assert cells == old(cells);
          assert rows[|rows| - 1] == VariableRows(cells, rowCount, baseline, v)[j];
          assert VariableRows(cells, rowCount, baseline, v)[..j + 1]
            == VariableRows(cells, rowCount, baseline, v)[..j] + [rows[|rows| - 1]];
        }
        j := j + 1;
      }
      assert v in cells ==> VariableRows(cells, rowCount, baseline, v)[..j] == VariableRows(cells, rowCount, baseline, v);
    }
  }

  // ---------------------------------------------------------------------
  // The exception path as written
  // ---------------------------------------------------------------------

  /** State threaded through the perturbation loop as the source writes it:
      the table's columns and cells, the `original_values` local left over from
      the last successful read, and the rows so far. */
  datatype OatState = OatState(
    columns: seq<string>,
    cells: Cells,
    saved: Option<seq<real>>,
    rows: seq<OatRow>)

  /** One (variable, ratio) iteration as written: reading a missing column
      raises, and the handler then writes the stale `original_values` (if any)
      under the missing variable's name, which creates a new column. */
  function StepAsWritten(st: OatState, n: nat, baseline: Metrics, v: string, ratio: real): OatState {
    if v in st.cells then
      var original := st.cells[v];
      var m := Recalc(st.cells[v := Scale(original, 1.0 + ratio)], n);
      var d := Delta(m, baseline);
      OatState(st.columns, st.cells, Some(original), st.rows + [OatRow(v, ratio, d, m, Impact(d))])
    else if st.saved.Some? then
      OatState(st.columns + [v], st.cells[v := st.saved.value], st.saved, st.rows)
    else st
  }

  function VariableAsWritten(st: OatState, n: nat, baseline: Metrics, v: string): OatState {
    StepAsWritten(StepAsWritten(st, n, baseline, v, ChangeRatios[0]), n, baseline, v, ChangeRatios[1])
  }

  function LoopAsWritten(st: OatState, n: nat, baseline: Metrics, vars: seq<string>): OatState {
    if vars == [] then st
    else VariableAsWritten(LoopAsWritten(st, n, baseline, vars[..|vars| - 1]), n, baseline, vars[|vars| - 1])
  }

  function RunAsWritten(columns: seq<string>, cells: Cells, n: nat, vars: seq<string>): OatState {
    LoopAsWritten(OatState(columns, cells, None, []), n, Recalc(cells, n), vars)
  }

  /** A variable list naming a column the table lacks, after one it has,
      leaves the table with an extra column holding the earlier variable's
      values, and reports a row for the missing variable. */
  lemma StaleRestoreAddsColumn()
    ensures var st := RunAsWritten(["price"], map["price" := [2.0]], 1, ["price", "discount"]);
      && st.columns == ["price", "discount"]
      && "discount" in st.cells && st.cells["discount"] == [2.0]
      && exists row :: row in st.rows && row.variable == "discount"
  {
    var c := map["price" := [2.0]];
    var vars := ["price", "discount"];
    assert vars[..1] == ["price"];
    assert vars[..1][..0] == [];
    var s1 := LoopAsWritten(OatState(["price"], c, None, []), 1, Recalc(c, 1), vars[..1]);
    assert s1.saved == Some([2.0]) && s1.cells == c && s1.columns == ["price"];
    var s2 := StepAsWritten(s1, 1, Recalc(c, 1), "discount", ChangeRatios[0]);
    assert "discount" !in s1.cells;
    assert s2.cells == c["discount" := [2.0]] && s2.columns == ["price", "discount"];
    var s3 := StepAsWritten(s2, 1, Recalc(c, 1), "discount", ChangeRatios[1]);
    assert s3.rows[|s3.rows| - 1].variable == "discount";
  }
}
