/** Short-term forecast layer: Holt's linear (double) exponential smoothing with
    a 5 x 5 grid search over (alpha, beta) minimising in-sample MAE, a 28-day
    projection clamped at zero, and the per-product run loop. */
module Forecast {
  import opened Common

  const Alphas: seq<real> := [0.1, 0.3, 0.5, 0.7, 0.9]
  const Betas: seq<real> := [0.05, 0.15, 0.25, 0.35, 0.45]
  /** Number of (alpha, beta) pairs, visited alpha-major. */
  const GridSize: nat := 25
  const Horizon: nat := 28
  const MinHistoryDays: nat := 14
  const ReliabilityFactor: real := 0.3

  // ---------------------------------------------------------------------------
  // Error measure
  // ---------------------------------------------------------------------------

  function AbsDiffs(actual: seq<real>, predicted: seq<real>): (r: seq<real>)
    requires |actual| == |predicted|
    ensures |r| == |actual|
    ensures forall i :: 0 <= i < |r| ==> r[i] == Abs(actual[i] - predicted[i])
  {
    seq(|actual|, i requires 0 <= i < |actual| => Abs(actual[i] - predicted[i]))
  }

  /** Mean absolute error of two equally long, non-empty series. */
  function MeanAbsError(actual: seq<real>, predicted: seq<real>): (e: real)
    requires |actual| == |predicted| > 0
    ensures e >= 0.0
    ensures actual == predicted ==> e == 0.0
  {
    var d := AbsDiffs(actual, predicted);
    SumNonNegative(d);
    if actual == predicted then SumConstant(d, 0.0); Mean(d) else Mean(d)
  }

  /** numpy refuses to subtract arrays whose lengths differ unless one of
      them has length 1. */
  datatype ShapeError = ShapeMismatch

  /** The length numpy broadcasts two arrays to, when it can. */
  function BroadcastLength(m: nat, n: nat): nat {
    if m == 1 then n else m
  }

  /** An array stretched to length `n`: a single value is repeated. */
  function Broadcast(s: seq<real>, n: nat): (r: seq<real>)
    requires |s| == 1 || |s| == n
    ensures |r| == n
  {
    if |s| == n then s else seq(n, _ => s[0])
  }

  /** `evaluate_error`: the element-wise difference broadcasts an array of
      length 1 against the other, raises on any other length mismatch, and
      the mean of an empty array is NaN, which is `None` here. */
  function EvaluateError(actual: seq<real>, predicted: seq<real>): (r: Result<Option<real>, ShapeError>)
    ensures r.Err? <==> |actual| != |predicted| && |actual| != 1 && |predicted| != 1
    ensures r.Ok? ==> (r.value.None? <==> |actual| == 0 || |predicted| == 0)
    ensures r.Ok? && r.value.Some? ==> r.value.value >= 0.0
    ensures |actual| > 0 && actual == predicted ==> r == Ok(Some(0.0))
  {
    var n := BroadcastLength(|actual|, |predicted|);
    if |actual| != |predicted| && |actual| != 1 && |predicted| != 1 then Err(ShapeMismatch)
    else if n == 0 then Ok(None)
    else Ok(Some(MeanAbsError(Broadcast(actual, n), Broadcast(predicted, n))))
  }

  /** The error does not depend on which series is called actual. */
  lemma EvaluateErrorSymmetric(actual: seq<real>, predicted: seq<real>)
    ensures EvaluateError(actual, predicted) == EvaluateError(predicted, actual)
  {
    var n := BroadcastLength(|actual|, |predicted|);
    if EvaluateError(actual, predicted).Ok? && n > 0 {
      assert n == BroadcastLength(|predicted|, |actual|);
      var a, p := Broadcast(actual, n), Broadcast(predicted, n);
      assert AbsDiffs(a, p) == AbsDiffs(p, a) by {
        forall i | 0 <= i < n ensures AbsDiffs(a, p)[i] == AbsDiffs(p, a)[i] {
          assert Abs(a[i] - p[i]) == Abs(p[i] - a[i]);
        }
      }
    }
  }

  /** A single actual value is compared with every prediction: the error is
      the mean distance from it, so it lies between the nearest and the
      farthest prediction's distance. */
  lemma EvaluateErrorBroadcast(x: real, predicted: seq<real>)
    requires |predicted| > 0
    ensures var d := seq(|predicted|, i requires 0 <= i < |predicted| => Abs(x - predicted[i]));
      && EvaluateError([x], predicted).Ok?
      && EvaluateError([x], predicted).value.Some?
      && MinOf(d) <= EvaluateError([x], predicted).value.value <= MaxOf(d)
  {
    var n := |predicted|;
    var d := seq(n, i requires 0 <= i < n => Abs(x - predicted[i]));
    var a := Broadcast([x], n);
    assert AbsDiffs(a, predicted) == d;
    MeanBetween(d);
  }

  // ---------------------------------------------------------------------------
  // Holt's recursion, as the source writes it
  // ---------------------------------------------------------------------------

  datatype Holt = Holt(level: real, trend: real)

  /** One observation `x`: the level is updated first, then the trend from the
      change of level. */
  function Update(alpha: real, beta: real, s: Holt, x: real): Holt {
    var level := alpha * x + (1.0 - alpha) * (s.level + s.trend);
    Holt(level, beta * (level - s.level) + (1.0 - beta) * s.trend)
  }

  /** State after observations 1..k, starting from level = series[0], trend = 0. */
  function StateAt(alpha: real, beta: real, series: seq<real>, k: nat): Holt
    requires k < |series|
  {
    if k == 0 then Holt(series[0], 0.0)
    else Update(alpha, beta, StateAt(alpha, beta, series, k - 1), series[k])
  }

  /** The one-step forecast recorded for observation k: the previous level plus
      the ALREADY UPDATED trend. */
  function OneStep(alpha: real, beta: real, series: seq<real>, k: nat): real
    requires 1 <= k < |series|
  {
    StateAt(alpha, beta, series, k - 1).level + StateAt(alpha, beta, series, k).trend
  }

  /** Forecasts for observations 1..k, in order. */
  function Forecasts(alpha: real, beta: real, series: seq<real>, k: nat): (f: seq<real>)
    requires k < |series|
    ensures |f| == k
  {
    if k == 0 then [] else Forecasts(alpha, beta, series, k - 1) + [OneStep(alpha, beta, series, k)]
  }

  /** Entry i of the forecasts is the one-step forecast of observation i + 1. */
  lemma {:induction false} ForecastsAt(alpha: real, beta: real, series: seq<real>, k: nat, i: nat)
    requires i < k < |series|
    ensures Forecasts(alpha, beta, series, k)[i] == OneStep(alpha, beta, series, i + 1)
  {
    if i < k - 1 {
      ForecastsAt(alpha, beta, series, k - 1, i);
    }
  }

  /** In-sample MAE of one (alpha, beta) pair. */
  function Mae(alpha: real, beta: real, series: seq<real>): real
    requires |series| >= 2
  {
    MeanAbsError(series[1..], Forecasts(alpha, beta, series, |series| - 1))
  }

  // ---------------------------------------------------------------------------
  // Grid search
  // ---------------------------------------------------------------------------

  datatype Model = Model(alpha: real, beta: real, level: real, trend: real, mae: real)

  datatype FitError = SeriesTooShort

  function GridAlpha(k: nat): real requires k < GridSize { Alphas[k / 5] }
  function GridBeta(k: nat): real requires k < GridSize { Betas[k % 5] }

  /** The model of one pair: its final recursion state and its MAE. */
  function Candidate(series: seq<real>, k: nat): Model
    requires |series| >= 2 && k < GridSize
  {
    var a, b := GridAlpha(k), GridBeta(k);
    var s := StateAt(a, b, series, |series| - 1);
    Model(a, b, s.level, s.trend, Mae(a, b, series))
  }

  /** All 25 candidate models, alpha-major (the order of the nested loops). */
  function Grid(series: seq<real>): (g: seq<Model>)
    requires |series| >= 2
    ensures |g| == GridSize
  {
    seq(GridSize, k requires 0 <= k < GridSize => Candidate(series, k))
  }

  /** Entry k of the grid is the model of the k-th pair, alpha-major. */
  lemma GridAt(series: seq<real>, k: nat)
    requires |series| >= 2 && k < GridSize
    ensures Grid(series)[k] == Candidate(series, k)
  {
  }

  /** The search over candidates in order; `None` stands for the initial
      `best_mae = inf`, which the first candidate always beats. A later
      candidate replaces the best only when its MAE is strictly smaller. */
  function Best(cs: seq<Model>): Option<Model> {
    if cs == [] then None
    else
      var best := Best(cs[..|cs| - 1]);
      var c := cs[|cs| - 1];
      if best.None? || c.mae < best.value.mae then Some(c) else best
  }

  /** The result of the grid search. */
  function Search(series: seq<real>): Model
    requires |series| >= 2
  {
    BestIsEarliestMinimum(Grid(series));
    Best(Grid(series)).value
  }

  /** One-step forecasts of one (alpha, beta) pair (the inner loop that
      scores a pair). */
  method PairForecasts(alpha: real, beta: real, series: seq<real>) returns (forecasts: seq<real>)
    requires |series| >= 2
    ensures forecasts == Forecasts(alpha, beta, series, |series| - 1)
  {
    var level := series[0];
    var trend := 0.0;
    forecasts := [];
    var i := 1;
    while i < |series|
      invariant 1 <= i <= |series|
      invariant Holt(level, trend) == StateAt(alpha, beta, series, i - 1)
      invariant forecasts == Forecasts(alpha, beta, series, i - 1)
    {
      var prevLevel := level;
      var next := Update(alpha, beta, Holt(level, trend), series[i]);
      level, trend := next.level, next.trend;
      forecasts := forecasts + [prevLevel + trend];
      i := i + 1;
    }
  }

  /** Final level and trend of one pair (the refit loop run on improvement). */
  method PairState(alpha: real, beta: real, series: seq<real>) returns (level: real, trend: real)
    requires |series| >= 2
    ensures Holt(level, trend) == StateAt(alpha, beta, series, |series| - 1)
  {
    level := series[0];
    trend := 0.0;
    var j := 1;
    while j < |series|
      invariant 1 <= j <= |series|
      invariant Holt(level, trend) == StateAt(alpha, beta, series, j - 1)
    {
      var next := Update(alpha, beta, Holt(level, trend), series[j]);
      level, trend := next.level, next.trend;
      j := j + 1;
    }
  }

  /** `fit_model`: for every pair, score its one-step forecasts and, on a
      strict improvement, refit level and trend with that pair. */
  method FitModel(series: seq<real>) returns (r: Result<Model, FitError>)
    ensures r.Err? <==> |series| < 2
    ensures r.Ok? ==> r.value == Search(series)
  {
    if |series| < 2 {
      return Err(SeriesTooShort);
    }
    ghost var grid := Grid(series);
    var best: Option<Model> := None;
    var ia := 0;
    while ia < 5
      invariant 0 <= ia <= 5
      invariant best == Best(grid[..5 * ia])
    {
      best := TryAlpha(series, ia, best);
      ia := ia + 1;
    }
    assert grid[..GridSize] == grid;
    return Ok(best.value);
  }

  /** The inner loop over the betas for the alpha Alphas[ia]. */
  method TryAlpha(series: seq<real>, ia: nat, best: Option<Model>) returns (best': Option<Model>)
    requires |series| >= 2 && ia < 5
    requires best == Best(Grid(series)[..5 * ia])
    ensures best' == Best(Grid(series)[..5 * ia + 5])
  {
    best' := best;
    var ib := 0;
    while ib < 5
      invariant 0 <= ib <= 5
      invariant best' == Best(Grid(series)[..5 * ia + ib])
    {
      best' := TryPair(series, ia, ib, best');
      ib := ib + 1;
    }
  }

  /** The body of the inner loop for the pair (Alphas[ia], Betas[ib]). */
  method TryPair(series: seq<real>, ia: nat, ib: nat, best: Option<Model>) returns (best': Option<Model>)
    requires |series| >= 2 && ia < 5 && ib < 5
    requires best == Best(Grid(series)[..5 * ia + ib])
    ensures best' == Best(Grid(series)[..5 * ia + ib + 1])
  {
    var k := 5 * ia + ib;
    GridIndex(ia, ib);
    GridAt(series, k);
    var alpha, beta := Alphas[ia], Betas[ib];
    BestPrefix(Grid(series), k);
    var forecasts := PairForecasts(alpha, beta, series);
    var mae := MeanAbsError(series[1..], forecasts);
    if best.None? || mae < best.value.mae {
      var level, trend := PairState(alpha, beta, series);
      best' := Some(Model(alpha, beta, level, trend, mae));
    } else {
      best' := best;
    }
  }

  lemma GridIndex(ia: nat, ib: nat)
    requires ia < 5 && ib < 5
    ensures 5 * ia + ib < GridSize
    ensures GridAlpha(5 * ia + ib) == Alphas[ia] && GridBeta(5 * ia + ib) == Betas[ib]
  {
    var k := 5 * ia + ib;
    assert k / 5 == ia && k % 5 == ib;
  }

  /** One more candidate: the search keeps its best or takes the candidate. */
  lemma BestPrefix(cs: seq<Model>, k: nat)
    requires k < |cs|
    ensures var best := Best(cs[..k]);
      Best(cs[..k + 1]) == if best.None? || cs[k].mae < best.value.mae then Some(cs[k]) else best
  {
    assert cs[..k + 1][..k] == cs[..k];
  }

  /** What the search returns: the EARLIEST candidate whose MAE is minimal. */
  lemma {:induction false} BestIsEarliestMinimum(cs: seq<Model>)
    requires |cs| > 0
    ensures Best(cs).Some?
    ensures exists w :: 0 <= w < |cs| && Best(cs).value == cs[w] &&
              (forall j :: 0 <= j < w ==> cs[j].mae > cs[w].mae)
    ensures forall j :: 0 <= j < |cs| ==> Best(cs).value.mae <= cs[j].mae
  {
    var init := cs[..|cs| - 1];
    var c := cs[|cs| - 1];
    if |cs| > 1 {
      BestIsEarliestMinimum(init);
      var best := Best(init).value;
      var w :| 0 <= w < |init| && best == init[w] &&
               (forall j :: 0 <= j < w ==> init[j].mae > init[w].mae);
      if c.mae < best.mae {
        forall j | 0 <= j < |cs| - 1 ensures cs[j].mae > c.mae {
          assert best.mae <= init[j].mae;
        }
        assert Best(cs).value == cs[|cs| - 1];
      } else {
        assert Best(cs).value == cs[w];
        assert forall j :: 0 <= j < w ==> cs[j].mae > cs[w].mae by {
          assert forall j :: 0 <= j < w ==> cs[j] == init[j];
        }
      }
    }
  }

  /** The fitted model is one of the grid's candidates: its parameters come
      from the grid, level/trend are the final state of the recursion run with
      them, its MAE is theirs, and every earlier pair (alpha-major) scored
      strictly worse. */
  lemma SearchIsEarliestCandidate(series: seq<real>)
    requires |series| >= 2
    ensures var m := Search(series);
      m.alpha in Alphas && m.beta in Betas &&
      Holt(m.level, m.trend) == StateAt(m.alpha, m.beta, series, |series| - 1) &&
      m.mae == Mae(m.alpha, m.beta, series) &&
      exists w :: 0 <= w < GridSize && m == Candidate(series, w) &&
        forall j :: 0 <= j < w ==> Candidate(series, j).mae > m.mae
  {
    var w := SearchIndex(series);
    CandidateFacts(series, w);
  }

  /** The grid position of the fitted model. */
  lemma SearchIndex(series: seq<real>) returns (w: nat)
    requires |series| >= 2
    ensures w < GridSize && Search(series) == Candidate(series, w)
    ensures forall j :: 0 <= j < w ==> Candidate(series, j).mae > Search(series).mae
  {
    var g := Grid(series);
    BestIsEarliestMinimum(g);
    w :| 0 <= w < GridSize && Search(series) == g[w] && (forall j :: 0 <= j < w ==> g[j].mae > g[w].mae);
    GridAt(series, w);
    forall j | 0 <= j < w ensures Candidate(series, j).mae > Search(series).mae {
      GridAt(series, j);
    }
  }

  /** A candidate's parameters come from the grid and its state and MAE are
      those of its pair. */
  lemma CandidateFacts(series: seq<real>, k: nat)
    requires |series| >= 2 && k < GridSize
    ensures var m := Candidate(series, k);
      m.alpha in Alphas && m.beta in Betas &&
      Holt(m.level, m.trend) == StateAt(m.alpha, m.beta, series, |series| - 1) &&
      m.mae == Mae(m.alpha, m.beta, series)
  {
    assert k / 5 < 5 && k % 5 < 5;
  }

  /** No pair of the grid has a smaller in-sample MAE than the fitted model. */
  lemma SearchIsMinimal(series: seq<real>, a: real, b: real)
    requires |series| >= 2
    requires a in Alphas && b in Betas
    ensures Search(series).mae <= Mae(a, b, series)
  {
    var g := Grid(series);
    BestIsEarliestMinimum(g);
    var ia :| 0 <= ia < 5 && Alphas[ia] == a;
    var ib :| 0 <= ib < 5 && Betas[ib] == b;
    var k := 5 * ia + ib;
    assert k / 5 == ia && k % 5 == ib;
    GridAt(series, k);
    assert g[k].mae == Mae(a, b, series);
  }

  /** A constant series is reproduced exactly by every pair. */
  lemma {:induction false} ConstantState(alpha: real, beta: real, series: seq<real>, c: real, k: nat)
    requires k < |series|
    requires forall i :: 0 <= i < |series| ==> series[i] == c
    ensures StateAt(alpha, beta, series, k) == Holt(c, 0.0)
  {
    if k > 0 {
      ConstantState(alpha, beta, series, c, k - 1);
      UpdateFixed(alpha, beta, c);
    }
  }

  /** A constant observation at the level with zero trend is a fixed point. */
  lemma UpdateFixed(alpha: real, beta: real, c: real)
    ensures Update(alpha, beta, Holt(c, 0.0), c) == Holt(c, 0.0)
  {
    assert alpha * c + (1.0 - alpha) * (c + 0.0) == c;
    assert beta * (c - c) + (1.0 - beta) * 0.0 == 0.0;
  }

  lemma ConstantMae(alpha: real, beta: real, series: seq<real>, c: real)
    requires |series| >= 2
    requires forall i :: 0 <= i < |series| ==> series[i] == c
    ensures Mae(alpha, beta, series) == 0.0
  {
    var f := Forecasts(alpha, beta, series, |series| - 1);
    forall i | 0 <= i < |f| ensures f[i] == series[1..][i] {
      ForecastsAt(alpha, beta, series, |series| - 1, i);
      ConstantState(alpha, beta, series, c, i);
      ConstantState(alpha, beta, series, c, i + 1);
    }
    assert f == series[1..];
  }

  /** Constant series c: level c, trend 0, MAE 0, and the first pair wins. */
  lemma ConstantSeriesFit(series: seq<real>, c: real)
    requires |series| >= 2
    requires forall i :: 0 <= i < |series| ==> series[i] == c
    ensures Search(series) == Model(0.1, 0.05, c, 0.0, 0.0)
  {
    var g := Grid(series);
    BestIsEarliestMinimum(g);
    var m := Search(series);
    var w :| 0 <= w < GridSize && m == g[w] && forall j :: 0 <= j < w ==> g[j].mae > g[w].mae;
    GridAt(series, w);
    GridAt(series, 0);
    ConstantMae(GridAlpha(w), GridBeta(w), series, c);
    ConstantMae(GridAlpha(0), GridBeta(0), series, c);
    assert w == 0;
    ConstantState(GridAlpha(0), GridBeta(0), series, c, |series| - 1);
  }

  // ---------------------------------------------------------------------------
  // Projection
  // ---------------------------------------------------------------------------

  /** Day h of the projection: the linear extrapolation, clamped at zero. */
  function Projection(level: real, trend: real, h: int): real {
    Max(0.0, level + (h as real) * trend)
  }

  /** `generate_forecast`. */
  method GenerateForecast(model: Model, steps: int) returns (r: seq<real>)
    ensures |r| == if steps < 0 then 0 else steps
    ensures forall k :: 0 <= k < |r| ==> r[k] == Projection(model.level, model.trend, k + 1)
    ensures forall k :: 0 <= k < |r| ==> r[k] >= 0.0
  {
    r := [];
    var h := 1;
    while h <= steps
      invariant 1 <= h && (steps >= 0 ==> h <= steps + 1) && (steps < 0 ==> h == 1)
      invariant |r| == h - 1
      invariant forall k :: 0 <= k < |r| ==> r[k] == Projection(model.level, model.trend, k + 1)
    {
      var f := model.level + (h as real) * model.trend;
      r := r + [Max(0.0, f)];
      h := h + 1;
    }
  }

  /** The projection is the extrapolation wherever that is non-negative, and
      never negative. */
  lemma ProjectionIsClampedLine(level: real, trend: real, h: int)
    ensures Projection(level, trend, h) >= 0.0
    ensures Projection(level, trend, h) >= level + (h as real) * trend
    ensures level + (h as real) * trend >= 0.0 ==> Projection(level, trend, h) == level + (h as real) * trend
  {
  }

  /** With a non-negative trend the projection never decreases. */
  lemma ProjectionMonotone(level: real, trend: real, h1: int, h2: int)
    requires trend >= 0.0 && h1 <= h2
    ensures Projection(level, trend, h1) <= Projection(level, trend, h2)
  {
    assert (h1 as real) * trend <= (h2 as real) * trend by {
      assert ((h2 - h1) as real) * trend >= 0.0;
    }
  }

  // ---------------------------------------------------------------------------
  // Weeks
  // ---------------------------------------------------------------------------

  /** `forecast_week` of horizon position i (0-based). */
  function ForecastWeek(i: int): int {
    i / 7 + 1
  }

  function Weeks(): (w: seq<int>)
    ensures |w| == Horizon
  {
    seq(Horizon, i => ForecastWeek(i))
  }

  lemma WeekInRange(i: int)
    requires 0 <= i < Horizon
    ensures 1 <= ForecastWeek(i) <= 4
  {
  }

  lemma {:induction false} WeekCountsPrefix(m: nat, w: int)
    ensures Count(seq(7 * m, i => ForecastWeek(i)), w) == if 1 <= w <= m then 7 else 0
  {
    if m > 0 {
      var prefix := seq(7 * (m - 1), i => ForecastWeek(i));
      var block := seq(7, i => m);
      assert seq(7 * m, i => ForecastWeek(i)) == prefix + block;
      WeekCountsPrefix(m - 1, w);
      CountConcat(prefix, block, w);
      ProductCount(7, m, w);
    }
  }

  /** Over the 28-day horizon each of weeks 1..4 occurs exactly seven times. */
  lemma WeekCounts(w: int)
    ensures Count(Weeks(), w) == if 1 <= w <= 4 then 7 else 0
  {
    WeekCountsPrefix(4, w);
    assert Weeks() == seq(7 * 4, i => ForecastWeek(i));
  }

  // ---------------------------------------------------------------------------
  // The per-product run loop of `run_short_term_forecast`
  // ---------------------------------------------------------------------------

  /** One (date, quantity_sold) record of a product; NaN quantity is None. */
  datatype Observation = Observation(day: int, quantity: Option<real>)

  /** A product's group of the daily view (groupby groups are never empty). */
  datatype ProductHistory = ProductHistory(productId: int, observations: seq<Observation>)

  datatype Reliability = GoodReliability | LimitedReliability

  datatype ForecastRow = ForecastRow(productId: int, week: int, date: int, quantity: real)

  datatype Evaluation = Evaluation(productId: int, points: nat, alpha: real, beta: real,
                                   mae: real, reliability: Reliability)

  datatype Skipped = Skipped(productId: int, days: nat)

  datatype ForecastRun = ForecastRun(rows: seq<ForecastRow>, evaluations: seq<Evaluation>,
                                     skipped: seq<Skipped>)

  /** The run stops early when the view lacks a required column (the names
      are listed in order), and `asfreq("D")` refuses a product with two
      records on the same date. */
  datatype RunError = MissingColumns(missing: seq<string>) | DuplicateDate(productId: int)

  /** The columns the view must provide. */
  const ViewRequired: seq<string> := ["product_id", "date", "quantity_sold"]

  function FirstDay(obs: seq<Observation>): (d: int)
    requires |obs| > 0
    ensures forall i :: 0 <= i < |obs| ==> d <= obs[i].day
    ensures exists i :: 0 <= i < |obs| && obs[i].day == d
  {
    if |obs| == 1 then obs[0].day
    else
      var d := FirstDay(obs[..|obs| - 1]);
      if obs[|obs| - 1].day < d then obs[|obs| - 1].day else d
  }

  function LastDay(obs: seq<Observation>): (d: int)
    requires |obs| > 0
    ensures forall i :: 0 <= i < |obs| ==> obs[i].day <= d
    ensures exists i :: 0 <= i < |obs| && obs[i].day == d
  {
    if |obs| == 1 then obs[0].day
    else
      var d := LastDay(obs[..|obs| - 1]);
      if obs[|obs| - 1].day > d then obs[|obs| - 1].day else d
  }

  predicate DistinctDays(obs: seq<Observation>) {
    forall i, j :: 0 <= i < j < |obs| ==> obs[i].day != obs[j].day
  }

  /** The quantity recorded on day d, 0 when there is none (or it is NaN). */
  function QuantityOn(obs: seq<Observation>, d: int): real {
    if obs == [] then 0.0
    else if obs[0].day == d then FillZero(obs[0].quantity)
    else QuantityOn(obs[1..], d)
  }

  /** `sort_index().asfreq("D").fillna(0)`: one value per calendar day from the
      first to the last recorded day. */
  function GapFilled(obs: seq<Observation>): (s: seq<real>)
    requires |obs| > 0
    ensures |s| == LastDay(obs) - FirstDay(obs) + 1
  {
    var first := FirstDay(obs);
    seq(LastDay(obs) - first + 1, i => QuantityOn(obs, first + i))
  }

  /** Reliability label: "Good" exactly when MAE < 0.3 x mean of the series. */
  function ReliabilityOf(mae: real, series: seq<real>): Reliability
    requires |series| > 0
  {
    if mae < Mean(series) * ReliabilityFactor then GoodReliability else LimitedReliability
  }

  /** The 28 rows of a processed product: week i/7+1, the dates after the last
      recorded day, the clamped projection. */
  function ProductRows(productId: int, lastDay: int, model: Model): (rows: seq<ForecastRow>)
    ensures |rows| == Horizon
  {
    seq(Horizon, i => ForecastRow(productId, ForecastWeek(i), lastDay + 1 + i,
                                  Projection(model.level, model.trend, i + 1)))
  }

  /** The run, product by product (the specification of `RunShortTermForecast`). */
  function RunSpec(products: seq<ProductHistory>): Result<ForecastRun, RunError>
    requires forall p :: p in products ==> |p.observations| > 0
  {
    if products == [] then Ok(ForecastRun([], [], []))
    else
      var p := products[|products| - 1];
      match RunSpec(products[..|products| - 1])
      case Err(e) => Err(e)
      case Ok(acc) =>
        if !DistinctDays(p.observations) then Err(DuplicateDate(p.productId))
        else
          var series := GapFilled(p.observations);
          if |series| < MinHistoryDays then
            Ok(acc.(skipped := acc.skipped + [Skipped(p.productId, |series|)]))
          else
            var m := Search(series);
            Ok(ForecastRun(acc.rows + ProductRows(p.productId, LastDay(p.observations), m),
                           acc.evaluations + [Evaluation(p.productId, |series|, m.alpha, m.beta, m.mae,
                                                         ReliabilityOf(m.mae, series))],
                           acc.skipped))
  }

  /** The body of the `try` block for one product with enough history: fit,
      project 28 days after the last recorded day, label weeks, score. */
  method ForecastProduct(productId: int, series: seq<real>, lastDay: int)
    returns (rows: seq<ForecastRow>, evaluation: Evaluation)
    requires |series| >= MinHistoryDays
    ensures var m := Search(series);
      rows == ProductRows(productId, lastDay, m) &&
      evaluation == Evaluation(productId, |series|, m.alpha, m.beta, m.mae, ReliabilityOf(m.mae, series))
  {
    var fit := FitModel(series);
    var model := fit.value;
    var forecasts := GenerateForecast(model, Horizon);
    rows := seq(Horizon, i requires 0 <= i < Horizon =>
                  ForecastRow(productId, ForecastWeek(i), lastDay + 1 + i, forecasts[i]));
    var reliability := if model.mae < Mean(series) * ReliabilityFactor then GoodReliability else LimitedReliability;
    evaluation := Evaluation(productId, |series|, model.alpha, model.beta, model.mae, reliability);
  }

  /** What `run_short_term_forecast` produces once the view is loaded: the
      required columns are checked first, then the products are run. */
  function ForecastSpec(columns: seq<string>, products: seq<ProductHistory>): Result<ForecastRun, RunError>
    requires forall p :: p in products ==> |p.observations| > 0
  {
    var missing := MissingFrom(ViewRequired, columns);
    if missing != [] then Err(MissingColumns(missing)) else RunSpec(products)
  }

  /** The run stops on the column check exactly when product_id, date or
      quantity_sold is absent, and then lists exactly the absent ones, in
      order; with all three present it is the product loop. */
  lemma ForecastSpecColumns(columns: seq<string>, products: seq<ProductHistory>)
    requires forall p :: p in products ==> |p.observations| > 0
    ensures var r := ForecastSpec(columns, products);
      && (r.Err? && r.error.MissingColumns? <==>
            "product_id" !in columns || "date" !in columns || "quantity_sold" !in columns)
      && (r.Err? && r.error.MissingColumns? ==>
            forall c :: c in r.error.missing <==> c in ViewRequired && c !in columns)
      && ("product_id" in columns && "date" in columns && "quantity_sold" in columns ==>
            r == RunSpec(products))
  {
    MissingFromMeaning(ViewRequired, columns);
    assert forall c :: c in ViewRequired <==> c == "product_id" || c == "date" || c == "quantity_sold";
    RunSpecNeverMissing(products);
  }

  /** The product loop itself never reports a missing column. */
  lemma {:induction false} RunSpecNeverMissing(products: seq<ProductHistory>)
    requires forall p :: p in products ==> |p.observations| > 0
    ensures RunSpec(products).Err? ==> RunSpec(products).error.DuplicateDate?
  {
    if products != [] {
      var init := products[..|products| - 1];
      assert forall q :: q in init ==> q in products;
      RunSpecNeverMissing(init);
    }
  }

  /** `run_short_term_forecast` after the view is loaded; the groups arrive in
      ascending product order. */
  method RunShortTermForecast(columns: seq<string>, products: seq<ProductHistory>) returns (r: Result<ForecastRun, RunError>)
    requires forall p :: p in products ==> |p.observations| > 0
    ensures r == ForecastSpec(columns, products)
  {
    var missing := MissingFrom(ViewRequired, columns);
    if missing != [] {
      return Err(MissingColumns(missing));
    }
    var rows: seq<ForecastRow> := [];
    var evaluations: seq<Evaluation> := [];
    var skipped: seq<Skipped> := [];
    var k := 0;
    while k < |products|
      invariant 0 <= k <= |products|
      invariant RunSpec(products[..k]) == Ok(ForecastRun(rows, evaluations, skipped))
    {
      var p := products[k];
      assert products[..k + 1][..k] == products[..k];
      if !DistinctDays(p.observations) {
        RunSpecErrStays(products, k + 1);
        return Err(DuplicateDate(p.productId));
      }
      var series := GapFilled(p.observations);
      if |series| < MinHistoryDays {
        skipped := skipped + [Skipped(p.productId, |series|)];
      } else {
        var productRows, evaluation := ForecastProduct(p.productId, series, LastDay(p.observations));
        rows := rows + productRows;
        evaluations := evaluations + [evaluation];
      }
      k := k + 1;
    }
    assert products[..|products|] == products;
    r := Ok(ForecastRun(rows, evaluations, skipped));
  }

  /** A forecast row with a non-negative quantity and a week in 1..4. */
  predicate RowWellFormed(row: ForecastRow) {
    row.quantity >= 0.0 && 1 <= row.week <= 4
  }

  lemma ProductRowsWellFormed(productId: int, lastDay: int, model: Model)
    ensures forall row :: row in ProductRows(productId, lastDay, model) ==> RowWellFormed(row)
  {
    var rows := ProductRows(productId, lastDay, model);
    forall row | row in rows ensures RowWellFormed(row) {
      var i := IndexOf(rows, row);
      WeekInRange(i);
    }
  }

  /** Every forecast row has a non-negative quantity and a week in 1..4. */
  lemma {:induction false} RunRowsWellFormed(products: seq<ProductHistory>)
    requires forall p :: p in products ==> |p.observations| > 0
    requires RunSpec(products).Ok?
    ensures forall row :: row in RunSpec(products).value.rows ==> RowWellFormed(row)
  {
    if products != [] {
      var init := products[..|products| - 1];
      var p := products[|products| - 1];
      assert forall q :: q in init ==> q in products;
      RunRowsWellFormed(init);
      var series := GapFilled(p.observations);
      if |series| >= MinHistoryDays {
        ProductRowsWellFormed(p.productId, LastDay(p.observations), Search(series));
      }
    }
  }

  /** A product is skipped exactly when its gap-filled history is shorter than
      14 days: every product is either skipped (with its day count) or
      evaluated (with at least 14 points), and each evaluated product
      contributes exactly 28 rows under its own id. */
  lemma {:induction false} RunPartitionsProducts(products: seq<ProductHistory>)
    requires forall p :: p in products ==> |p.observations| > 0
    requires RunSpec(products).Ok?
    ensures var out := RunSpec(products).value;
      |out.evaluations| + |out.skipped| == |products| &&
      |out.rows| == Horizon * |out.evaluations| &&
      (forall s :: s in out.skipped ==>
         s.days < MinHistoryDays &&
         exists p :: p in products && p.productId == s.productId && |GapFilled(p.observations)| == s.days) &&
      (forall e :: e in out.evaluations ==>
         e.points >= MinHistoryDays &&
         exists p :: p in products && p.productId == e.productId && |GapFilled(p.observations)| == e.points) &&
      (forall q :: 0 <= q < |out.rows| ==> out.rows[q].productId == out.evaluations[q / Horizon].productId)
  {
    if products != [] {
      var init := products[..|products| - 1];
      var p := products[|products| - 1];
      assert forall q :: q in init ==> q in products;
      RunPartitionsProducts(init);
      var acc := RunSpec(init).value;
      var out := RunSpec(products).value;
      var series := GapFilled(p.observations);
      if |series| >= MinHistoryDays {
        var m := Search(series);
        var pr := ProductRows(p.productId, LastDay(p.observations), m);
        var e := out.evaluations[|acc.evaluations|];
        assert out.rows == acc.rows + pr;
        assert out.evaluations == acc.evaluations + [e];
        RowsFollowEvaluations(acc.rows, acc.evaluations, pr, e);
      }
    }
  }

  /** Appending one product's 28 rows and its evaluation keeps row q
      belonging to evaluation q / 28. */
  lemma RowsFollowEvaluations(rows: seq<ForecastRow>, evaluations: seq<Evaluation>,
                              block: seq<ForecastRow>, e: Evaluation)
    requires |rows| == Horizon * |evaluations|
    requires forall q :: 0 <= q < |rows| ==> rows[q].productId == evaluations[q / Horizon].productId
    requires |block| == Horizon && forall i :: 0 <= i < |block| ==> block[i].productId == e.productId
    ensures forall q :: 0 <= q < |rows + block| ==>
      (rows + block)[q].productId == (evaluations + [e])[q / Horizon].productId
  {
    var all, evs := rows + block, evaluations + [e];
    forall q | 0 <= q < |all| ensures all[q].productId == evs[q / Horizon].productId {
      if q < |rows| {
        assert q / Horizon < |evaluations|;
        assert all[q] == rows[q] && evs[q / Horizon] == evaluations[q / Horizon];
      } else {
        assert q / Horizon == |evaluations|;
        assert all[q] == block[q - |rows|];
      }
    }
  }

  /** A product whose recorded days repeat makes the whole run fail. */
  lemma {:induction false} RunSpecErrStays(products: seq<ProductHistory>, k: nat)
    requires forall p :: p in products ==> |p.observations| > 0
    requires k <= |products|
    requires RunSpec(products[..k]).Err?
    ensures RunSpec(products) == RunSpec(products[..k])
    decreases |products| - k
  {
    if k < |products| {
      assert products[..k + 1][..k] == products[..k];
      assert forall q :: q in products[..k + 1] ==> q in products;
      RunSpecErrStays(products, k + 1);
    } else {
      assert products[..k] == products;
    }
  }

  lemma {:induction false} ProductCount(n: nat, x: int, y: int)
    ensures Count(seq(n, i => x), y) == if x == y then n else 0
  {
    if n > 0 {
      assert seq(n, i => x) == seq(n - 1, i => x) + [x];
      ProductCount(n - 1, x, y);
      CountAppend(seq(n - 1, i => x), x, y);
    }
  }
}
