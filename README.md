# dss_sales_inventory decision core, in Dafny

This project models the deterministic decision arithmetic of the
`dss_sales_inventory` sales-and-inventory decision-support pipeline and
proves properties of it. Each pipeline stage is one Dafny module:

- ingestion: required columns and per-column value checks;
- cleaning: null checks, revenue fill, deduplication, the 30-day gap rule and referential integrity;
- features: daily sales, the stock ratio and its outlier clip;
- the star schema: the date and product dimensions, the sales fact table and the pre-load validator;
- Holt's short-term forecast with its (alpha, beta) grid search;
- the Monte Carlo risk layer for given draws;
- the KPI layer and its intervention flag;
- the scenario what-if;
- the one-at-a-time sensitivity analysis;
- time-series trend detection;
- the decision brief;
- the enhanced dashboard's transforms: the date grid, rolling and cumulative revenue, and month-over-month growth;
- the SQL statement splitter.

Two helper modules, `Common` and `Ordering`, hold the shared sums, means,
options and results and the stable sort used for `sort_values`.

Conventions:

- Numbers are exact `real`s.
- A NaN cell or an absent column is `None`.
- A stage that raises returns `Err` with the exception's cause.
- Dates are integer day numbers.
- Tables are sequences of records.
- Loops that update state step by step are methods. Each is proved against the function that specifies it.
- The in-place perturb-and-revert loop of the sensitivity analysis is a class, `Sensitivity.Frame`, whose methods modify its columns.

The one-step forecast inside the grid search follows the code: it is the
previous level plus the trend that has already been updated for the
current observation (`short_term_forecast.py` lines 74-77), not the
textbook Holt forecast from the previous trend.

## Model

| member | source | states |
|---|---|---|
| Forecast.EvaluateError | dss_sales_inventory/analysis/forecast/short_term_forecast.py:116-120 | the MAE raises exactly when the lengths differ and neither is 1 (numpy broadcasting), is NaN exactly when a series is empty, is never negative, and is 0 when actual equals predicted |
| Forecast.EvaluateErrorSymmetric | dss_sales_inventory/analysis/forecast/short_term_forecast.py:116-120 | swapping actual and predicted never changes the result, error cases included |
| Forecast.EvaluateErrorBroadcast | dss_sales_inventory/analysis/forecast/short_term_forecast.py:116-120 | a single actual value is broadcast against every prediction: the error is defined and lies between the smallest and the largest distance from it |
| Forecast.Forecasts | dss_sales_inventory/analysis/forecast/short_term_forecast.py:71-78 | one one-step forecast per observation after the first |
| Forecast.ForecastsAt | dss_sales_inventory/analysis/forecast/short_term_forecast.py:73-78 | the i-th recorded forecast is the previous level plus the already-updated trend of observation i+1 |
| Forecast.GridIndex | dss_sales_inventory/analysis/forecast/short_term_forecast.py:58-68 | pair number 5·ia + ib of the grid is (alphas[ia], betas[ib]): the candidates are numbered alpha-major, in the order of the nested loops |
| Forecast.TryAlpha | dss_sales_inventory/analysis/forecast/short_term_forecast.py:68-94 | after the inner loop over the five betas of one alpha, the best model is the search result over every pair visited so far |
| Forecast.PairForecasts | dss_sales_inventory/analysis/forecast/short_term_forecast.py:69-78 | the scoring loop yields exactly the forecasts of the recursion for that pair |
| Forecast.PairState | dss_sales_inventory/analysis/forecast/short_term_forecast.py:86-94 | the refit loop ends in the final state of the recursion for that pair |
| Forecast.TryPair | dss_sales_inventory/analysis/forecast/short_term_forecast.py:80-94 | one pair either replaces the best (strictly smaller MAE, or first pair) or leaves it unchanged |
| Forecast.FitModel | dss_sales_inventory/analysis/forecast/short_term_forecast.py:50-102 | fails exactly when the series has fewer than 2 points, otherwise returns the grid search's result |
| Forecast.BestIsEarliestMinimum | dss_sales_inventory/analysis/forecast/short_term_forecast.py:61-85 | the strict-less search returns a candidate of minimal MAE that is the earliest such candidate |
| Forecast.Search | dss_sales_inventory/analysis/forecast/short_term_forecast.py:50-94 | the grid search of `fit_model` as a value; computed by `Forecast.FitModel`, and its result is characterised by `Forecast.SearchIsEarliestCandidate`, `Forecast.SearchIndex`, `Forecast.SearchIsMinimal` and `Forecast.ConstantSeriesFit` |
| Forecast.SearchIsEarliestCandidate | dss_sales_inventory/analysis/forecast/short_term_forecast.py:58-94 | the fitted alpha and beta are grid values, level and trend are the final recursion state with them, the MAE is theirs, and every earlier pair scored strictly worse |
| Forecast.SearchIndex | dss_sales_inventory/analysis/forecast/short_term_forecast.py:67-85 | the fitted model sits at a grid position before which every pair scored strictly worse |
| Forecast.CandidateFacts | dss_sales_inventory/analysis/forecast/short_term_forecast.py:58-94 | each candidate's parameters come from the grid, with the recursion's final state and its own MAE |
| Forecast.SearchIsMinimal | dss_sales_inventory/analysis/forecast/short_term_forecast.py:80-85 | no grid pair has a smaller in-sample MAE than the fitted model |
| Forecast.ConstantState | dss_sales_inventory/analysis/forecast/short_term_forecast.py:69-76 | on a constant series c the recursion stays at level c and trend 0 for any alpha and beta |
| Forecast.UpdateFixed | dss_sales_inventory/analysis/forecast/short_term_forecast.py:75-76 | level c with trend 0 is a fixed point of one update with observation c |
| Forecast.ConstantMae | dss_sales_inventory/analysis/forecast/short_term_forecast.py:69-80 | every pair has MAE 0 on a constant series |
| Forecast.ConstantSeriesFit | dss_sales_inventory/analysis/forecast/short_term_forecast.py:67-94 | a constant series c is fitted with level c, trend 0, MAE 0, and the first pair (0.1, 0.05) wins the tie |
| Forecast.GenerateForecast | dss_sales_inventory/analysis/forecast/short_term_forecast.py:104-114 | exactly `steps` values (none for a negative count), value h-1 being max(0, level + h·trend), all non-negative |
| Forecast.ProjectionIsClampedLine | dss_sales_inventory/analysis/forecast/short_term_forecast.py:112-113 | a projected value is never negative, never below the line, and equals the line where that is non-negative |
| Forecast.ProjectionMonotone | dss_sales_inventory/analysis/forecast/short_term_forecast.py:111-113 | with a non-negative trend the projection never decreases with the horizon |
| Forecast.WeekInRange | dss_sales_inventory/analysis/forecast/short_term_forecast.py:170 | every horizon position has a forecast week in 1..4 |
| Forecast.WeekCounts | dss_sales_inventory/analysis/forecast/short_term_forecast.py:170 | over 28 days each week 1..4 occurs exactly 7 times and no other week occurs |
| Forecast.GapFilled | dss_sales_inventory/analysis/forecast/short_term_forecast.py:156-157 | the gap-filled series has one value per calendar day from the first to the last recorded day |
| Forecast.ProductRows | dss_sales_inventory/analysis/forecast/short_term_forecast.py:166-178 | a processed product contributes exactly 28 forecast rows |
| Forecast.ForecastProduct | dss_sales_inventory/analysis/forecast/short_term_forecast.py:164-194 | a product's rows are the 28 clamped projections of the fitted model with weeks i/7+1 and dates after its last day; its evaluation carries its point count, parameters, MAE and a "Good" label iff MAE < 0.3 × series mean |
| Forecast.RunSpec | dss_sales_inventory/analysis/forecast/short_term_forecast.py:153-200 | the product loop as a value; `Forecast.RunPartitionsProducts` (skipped or evaluated with 28 rows), `Forecast.RunRowsWellFormed` (quantities and weeks) and `Forecast.RunSpecErrStays` (a repeated date ends the run) state its properties |
| Forecast.ForecastSpec | dss_sales_inventory/analysis/forecast/short_term_forecast.py:142-200 | the column check, then the product loop; `Forecast.ForecastSpecColumns` states when the check stops the run, and `Forecast.RunShortTermForecast` computes it |
| Forecast.ForecastSpecColumns | dss_sales_inventory/analysis/forecast/short_term_forecast.py:142-146 | the run stops on the column check exactly when product_id, date or quantity_sold is not a column, it then lists exactly the absent ones, and with all three present the result is the product loop's |
| Forecast.RunShortTermForecast | dss_sales_inventory/analysis/forecast/short_term_forecast.py:142-200 | the run computes its specification `Forecast.ForecastSpec`: a missing required column stops it with the absent names, otherwise the product loop runs, where a repeated date fails the run, a short history is skipped and every other product is forecast |
| Forecast.RunRowsWellFormed | dss_sales_inventory/analysis/forecast/short_term_forecast.py:113-170 | every forecast row of a run has a quantity ≥ 0 and a week in 1..4 |
| Forecast.RunPartitionsProducts | dss_sales_inventory/analysis/forecast/short_term_forecast.py:155-194 | every product is either skipped with its day count (< 14) or evaluated with its point count (≥ 14), and each evaluated product owns exactly 28 consecutive rows |
| Forecast.RunSpecErrStays | dss_sales_inventory/analysis/forecast/short_term_forecast.py:155-157 | once a product's dates repeat, the run's result is that failure |
| Risk.RoundHalfEven | dss_sales_inventory/analysis/risk/risk_simulation.py:110-111 | Python's round: the result is within 0.5 of the input and ties go to the even integer |
| Risk.DefineDistributions | dss_sales_inventory/analysis/risk/risk_simulation.py:73-152 | demand mean is the forecast mean; unit cost resolves unit_cost → cost → 1.0; price resolves price → unit_price → selling_price → 1.3·cost; stock resolves current_stock → stock → 7·demand mean; holding cost defaults to 0.01·cost; both std values are at least their CV share and strictly positive; 1 ≤ low < high with the bounds rounded around the lead time (default 7) |
| Risk.LeadBoundsIntegral | dss_sales_inventory/analysis/risk/risk_simulation.py:110-111 | an integral lead time L ≥ 3 gives the window [L−2, L+2] |
| Risk.DefaultLeadWindow | dss_sales_inventory/analysis/risk/risk_simulation.py:106-111 | without a lead time the window is [5, 9], centred on 7 |
| Risk.RealizedSales | dss_sales_inventory/analysis/risk/risk_simulation.py:175-197 | realised sales are the clipped demand capped by the stock: never above the stock nor the clipped demand, and non-negative when the stock is |
| Risk.SampleProfitBounds | dss_sales_inventory/analysis/risk/risk_simulation.py:183-204 | for non-negative available stock and holding cost, a price at least the clipped drawn cost, a lower lead bound of at least 1 and a drawn lead time inside [low, high]: a sample loses at most high·holding cost and earns at most stock·(price − clipped cost) |
| Risk.SampleProfitMonotoneInPrice | dss_sales_inventory/analysis/risk/risk_simulation.py:197-204 | a higher price never lowers a sample's profit |
| Risk.MonteCarlo | dss_sales_inventory/analysis/risk/risk_simulation.py:155-208 | one profit per given draw, each rs·price − rs·clip(cost) − lead_time·holding |
| Risk.RawRiskScore | dss_sales_inventory/analysis/risk/risk_simulation.py:226-228 | the raw score is ≥ 0, is 0 iff VaR is 0, and times (abs(mean) + 1e-6) gives abs(VaR) |
| Risk.RawRiskScoreMonotone | dss_sales_inventory/analysis/risk/risk_simulation.py:228 | a larger VaR magnitude at the same mean never gives a smaller raw score |
| Risk.RiskMetrics | dss_sales_inventory/analysis/risk/risk_simulation.py:215-237 | the expected profit is the sample mean, and the raw score is the non-negative ratio of abs(VaR) to abs(mean) + 1e-6 |
| Risk.NormalizedScoreRange | dss_sales_inventory/analysis/risk/risk_simulation.py:387-392 | a raw score between min and max normalises into [0, 1], min to 0 and max to 1 when the range is at least 1e-9 |
| Risk.NormalizeRange | dss_sales_inventory/analysis/risk/risk_simulation.py:384-392 | a flat portfolio (range < 1e-9) scores 0 everywhere; otherwise every score is in [0, 1], with the minimum mapping to 0 and the maximum to 1 |
| Risk.NormalizeMonotone | dss_sales_inventory/analysis/risk/risk_simulation.py:390-392 | normalisation keeps the order of raw scores |
| Risk.ClassifyMonotone | dss_sales_inventory/analysis/risk/risk_simulation.py:395-403 | Low exactly below 0.33, High exactly from 0.66, and a higher score never gets a lower level |
| Risk.FeaturesOf | dss_sales_inventory/analysis/risk/risk_simulation.py:331-343 | the features of a product are its first matching row, and absent exactly when no row matches |
| Risk.CollectResults | dss_sales_inventory/analysis/risk/risk_simulation.py:327-376 | the product loop appends one risk row per product with features, in group order |
| Risk.AssignScores | dss_sales_inventory/analysis/risk/risk_simulation.py:383-403 | the score loop gives each row its min-max normalised score and its level |
| Risk.RiskSpec | dss_sales_inventory/analysis/risk/risk_simulation.py:295-426 | the run as a value: the column check, the empty-result failure, the sorted scored rows; `Risk.RiskSpecErrors`, `Risk.CollectRowsProducts` and `Risk.RiskReport` state its properties, and `Risk.RunRiskSimulation` computes it |
| Risk.RunRiskSimulation | dss_sales_inventory/analysis/risk/risk_simulation.py:295-426 | the run checks the required forecast columns first, then fails with "no products processed" when nothing was collected, and otherwise returns the scored rows sorted by risk score |
| Risk.RiskSpecErrors | dss_sales_inventory/analysis/risk/risk_simulation.py:320-379 | the missing-columns ValueError is raised exactly when product_id or forecast_quantity is not a column; with both present, the run fails exactly when no forecast product has a features row |
| Risk.CollectRowsEmpty | dss_sales_inventory/analysis/risk/risk_simulation.py:335-379 | the run fails exactly when no product of the forecast has a features row |
| Risk.CollectRowsProducts | dss_sales_inventory/analysis/risk/risk_simulation.py:329-369 | a product appears in the results iff it has forecast rows and a features row |
| Risk.RiskReport | dss_sales_inventory/analysis/risk/risk_simulation.py:383-418 | the output is sorted by risk score descending, is a permutation of the scored rows, and every score is in [0, 1] with the level its band gives |
| Kpis.ResolveColumn | dss_sales_inventory/analysis/kpis/kpi_definitions.py:61-66 | the first candidate present among the columns, or none exactly when no candidate is present |
| Kpis.ScaleRange | dss_sales_inventory/analysis/kpis/kpi_definitions.py:58 | a value between min and max scales into [0, 100], min to 0 and max to 100 |
| Kpis.NormalizeRange | dss_sales_inventory/analysis/kpis/kpi_definitions.py:49-58 | all zeros when min = max; otherwise every value in [0, 100], with the minimum mapping to 0 and the maximum to 100 |
| Kpis.NormalizeMonotone | dss_sales_inventory/analysis/kpis/kpi_definitions.py:58 | 0–100 normalisation keeps the order of the values |
| Kpis.RawInventoryRiskBounds | dss_sales_inventory/analysis/kpis/kpi_definitions.py:80-85 | the operational term 0.4/(1 + stock_ratio) lies in (0, 0.4] and shrinks as the stock ratio grows |
| Kpis.RawPressureCases | dss_sales_inventory/analysis/kpis/kpi_definitions.py:94-101 | raw pressure is 0 for a missing or zero stock, and otherwise satisfies pressure·stock = forecast |
| Kpis.InterventionMonotone | dss_sales_inventory/analysis/kpis/kpi_definitions.py:337-347 | raising a KPI never clears the intervention flag; a margin below 40, or risk below 70 together with pressure below 75, is always Safe |
| Kpis.Decide | dss_sales_inventory/analysis/kpis/kpi_definitions.py:337-347 | the flag is "Requires Intervention" iff (risk ≥ 70 or pressure ≥ 75) and margin ≥ 40 |
| Kpis.ResolveColumns | dss_sales_inventory/analysis/kpis/kpi_definitions.py:230-272 | the layer fails with KeyError exactly when no stock candidate is a column; profit is computed exactly when no profit candidate is a risk column |
| Kpis.Prepare | dss_sales_inventory/analysis/kpis/kpi_definitions.py:312-324 | a zero stock is replaced by a missing value, so a present stock is never zero |
| Kpis.PrepareRows | dss_sales_inventory/analysis/kpis/kpi_definitions.py:297-324 | the cleaning steps prepare every merged row with the resolved columns |
| Kpis.BuildKpiRows | dss_sales_inventory/analysis/kpis/kpi_definitions.py:329-347 | the KPI columns and flag computed row by row equal the layer's KPI rows |
| Kpis.KpiSpec | dss_sales_inventory/analysis/kpis/kpi_definitions.py:250-364 | the layer after the merge as a value; `Kpis.KpiReport` states its error conditions and the sorted, bounded rows, and `Kpis.RunKpiLayer` computes it |
| Kpis.RunKpiLayer | dss_sales_inventory/analysis/kpis/kpi_definitions.py:250-364 | the layer after merging computes its specification: the stock-column KeyError, the KeyError of a stock_ratio or risk_score column that no merged table has, or the KPI rows sorted by (risk, pressure) descending |
| Kpis.KpiRowsRange | dss_sales_inventory/analysis/kpis/kpi_definitions.py:329-347 | every KPI lies in [0, 100] and the flag follows the intervention rule |
| Kpis.KpiReport | dss_sales_inventory/analysis/kpis/kpi_definitions.py:250-364 | the stock KeyError is raised iff no stock column resolves, and the run fails iff that or a missing stock_ratio or risk_score column; otherwise one row per merged row, sorted by (risk, pressure) descending, every KPI in [0, 100], flag per the rule |
| Kpis.ProfitFallback | dss_sales_inventory/analysis/kpis/kpi_definitions.py:297-324 | without a profit column the profit is price − cost when both columns and cells are present, and 0 when a column does not resolve |
| Scenarios.SumScaled | dss_sales_inventory/analysis/scenarios/scenario_analysis.py:60-66 | the sum of a scaled forecast is the forecast sum times the multiplier |
| Scenarios.SimulateScenario | dss_sales_inventory/analysis/scenarios/scenario_analysis.py:51-89 | the reported remaining stock is never negative |
| Scenarios.SimulateScenarioTotals | dss_sales_inventory/analysis/scenarios/scenario_analysis.py:55-86 | with defaults 1.0, 1.0 and 0, total sales = demand_mult·Σweekly, expected profit = total sales·(base_price·price_mult − cost), remaining stock = max(0, stock + supply_add − sales) |
| Scenarios.SimulateScenarioStatus | dss_sales_inventory/analysis/scenarios/scenario_analysis.py:70-81 | High iff sales exceed stock plus supply, Medium iff less than 20% of sales would be left, Low otherwise, and each status pairs with its level |
| Scenarios.DefaultsAreBaseCase | dss_sales_inventory/analysis/scenarios/scenario_analysis.py:55-57 | a scenario without variables behaves exactly like the Base Case |
| Scenarios.LabelRankIsStringOrder | dss_sales_inventory/analysis/scenarios/scenario_analysis.py:94 | the risk-level rank is the ascending string order "High" < "Low" < "Medium" |
| Scenarios.CompareScenarios | dss_sales_inventory/analysis/scenarios/scenario_analysis.py:91-95 | the comparison is a permutation of its input |
| Scenarios.CompareScenariosSorted | dss_sales_inventory/analysis/scenarios/scenario_analysis.py:94 | the comparison is ordered by expected profit descending, then risk level ascending |
| Scenarios.WeeklyQuantities | dss_sales_inventory/analysis/scenarios/scenario_analysis.py:161-190 | a product's weekly quantities are its four week totals |
| Scenarios.Expand | dss_sales_inventory/analysis/scenarios/scenario_analysis.py:180-212 | five result rows per product |
| Scenarios.ExpandIndex | dss_sales_inventory/analysis/scenarios/scenario_analysis.py:170-212 | row 5p + s is scenario s of the list applied to product p, so rows follow list order |
| Scenarios.FirstMissingWeek | dss_sales_inventory/analysis/scenarios/scenario_analysis.py:161-190 | the first forecast week in 1..4 with no row, or none when all four exist |
| Scenarios.ScenarioSpec | dss_sales_inventory/analysis/scenarios/scenario_analysis.py:154-221 | the run as a value; `Scenarios.ScenarioSpecErrors` states its error conditions and the empty report, `Scenarios.ScenarioCoverage` its rows, and `Scenarios.RunScenarioAnalysis` computes it |
| Scenarios.RunScenarioAnalysis | dss_sales_inventory/analysis/scenarios/scenario_analysis.py:154-221 | stops when a required forecast column is missing, gives the empty report for a table without rows, fails when a week column is missing, and otherwise expands every product over the scenario list and compares the results |
| Scenarios.ScenarioSpecErrors | dss_sales_inventory/analysis/scenarios/scenario_analysis.py:154-217 | the missing-columns exit happens exactly when a required column is absent and lists exactly the absent ones; with all present an empty table gives the empty report, and a missing week column is an error only for a non-empty table |
| Scenarios.ScenarioCoverage | dss_sales_inventory/analysis/scenarios/scenario_analysis.py:180-221 | every forecast product occurs once in the sorted distinct product list and gets exactly one row per scenario; the output is a sorted permutation of the expansion |
| Sensitivity.ImpliedPpu | dss_sales_inventory/analysis/sensitivity/sensitivity_analysis.py:133-140 | where sales are positive the implied profit per unit times sales gives the profit; elsewhere it is 0 |
| Sensitivity.AddColumns | dss_sales_inventory/analysis/sensitivity/sensitivity_analysis.py:143-145 | appending the missing targets keeps the existing columns first, in order |
| Sensitivity.AddColumnsMembers | dss_sales_inventory/analysis/sensitivity/sensitivity_analysis.py:143-145 | appending the missing targets adds exactly the missing names and keeps the column names distinct |
| Sensitivity.AddZerosMembers | dss_sales_inventory/analysis/sensitivity/sensitivity_analysis.py:143-145 | each missing target becomes a zero column and existing columns keep their values |
| Sensitivity.PreparedContents | dss_sales_inventory/analysis/sensitivity/sensitivity_analysis.py:127-147 | after preparation every target and `_implied_ppu` is a column, missing targets are zeros, other columns keep their values with NaN read as 0, and the implied PPU is profit/sales where sales > 0, else 0 |
| Sensitivity.AddMissingTargets | dss_sales_inventory/analysis/sensitivity/sensitivity_analysis.py:143-145 | the loop adds exactly the missing target metrics, as zero columns appended after the existing ones |
| Sensitivity.Frame.Prepare | dss_sales_inventory/analysis/sensitivity/sensitivity_analysis.py:118-147 | the prepared table has the prepared columns and cells and stays well-formed |
| Sensitivity.Recalc | dss_sales_inventory/analysis/sensitivity/sensitivity_analysis.py:153-182 | the four portfolio KPIs of `vectorized_recalculation`; `Sensitivity.RecalcProfitAndRevenue`, `Sensitivity.RecalcRemainingNonNegative`, `Sensitivity.RecalcWithoutSales` and `Sensitivity.RecalcIgnoresOtherColumns` state its properties |
| Sensitivity.RecalcProfitAndRevenue | dss_sales_inventory/analysis/sensitivity/sensitivity_analysis.py:158-168 | with price and unit_cost, profit is revenue minus the cost of the units sold; otherwise profit and revenue are both sales·implied PPU |
| Sensitivity.RecalcRemainingNonNegative | dss_sales_inventory/analysis/sensitivity/sensitivity_analysis.py:171-172 | when current_stock exists, the remaining stock Σmax(0, stock − sales) is ≥ 0 |
| Sensitivity.RecalcWithoutSales | dss_sales_inventory/analysis/sensitivity/sensitivity_analysis.py:159-182 | without a total_sales column units, profit and revenue are all 0 |
| Sensitivity.RecalcIgnoresOtherColumns | dss_sales_inventory/analysis/sensitivity/sensitivity_analysis.py:153-182 | overwriting a column the recalculation does not read leaves all four KPIs unchanged |
| Sensitivity.Candidates | dss_sales_inventory/analysis/sensitivity/sensitivity_analysis.py:186-196 | a column is collected iff it is not ignored, not a target, not `_`-prefixed, and is a key driver or has more than one distinct value |
| Sensitivity.CandidateSpecProperties | dss_sales_inventory/analysis/sensitivity/sensitivity_analysis.py:184-198 | the selected variables are sorted ascending, duplicate-free, and exactly the eligible columns |
| Sensitivity.Frame.CandidateVariables | dss_sales_inventory/analysis/sensitivity/sensitivity_analysis.py:184-198 | the selection loop returns the sorted distinct eligible columns |
| Sensitivity.Impact | dss_sales_inventory/analysis/sensitivity/sensitivity_analysis.py:235-237 | the impact abs(Δprofit) + 10·abs(Δstock) is ≥ 0, and 0 exactly when both deltas are 0 |
| Sensitivity.RowForMeaning | dss_sales_inventory/analysis/sensitivity/sensitivity_analysis.py:215-237 | a row's raw KPIs are those of the perturbed table, each delta is new metric minus baseline, and the impact comes from the deltas |
| Sensitivity.OatRows | dss_sales_inventory/analysis/sensitivity/sensitivity_analysis.py:211-239 | the rows of the perturbation loop; `Sensitivity.OatRowsShape`, `Sensitivity.OatRowsVariables`, `Sensitivity.OatRowsImpactNonNegative` and `Sensitivity.NonInputHasNoImpact` state its properties, and `Sensitivity.Frame.RunOatAnalysis` produces it |
| Sensitivity.OatRowsShape | dss_sales_inventory/analysis/sensitivity/sensitivity_analysis.py:211-239 | for variables that are columns, exactly one row per (variable, ratio) in variable-major order with ratios −0.2 then 0.2 |
| Sensitivity.OatRowsVariables | dss_sales_inventory/analysis/sensitivity/sensitivity_analysis.py:211-247 | every row is for a requested variable that is a column, at one of the two ratios |
| Sensitivity.NonInputHasNoImpact | dss_sales_inventory/analysis/sensitivity/sensitivity_analysis.py:153-182 | perturbing a column the recalculation does not read has impact 0 |
| Sensitivity.Scored | dss_sales_inventory/analysis/sensitivity/sensitivity_analysis.py:252-255 | one score per result row |
| Sensitivity.ScoreInRange | dss_sales_inventory/analysis/sensitivity/sensitivity_analysis.py:253-255 | an impact in [0, max] divided by max (or 1 when max is 0) lies in [0, 1], and the maximum scores 1 |
| Sensitivity.ScoredRange | dss_sales_inventory/analysis/sensitivity/sensitivity_analysis.py:249-255 | every sensitivity score is in [0, 1]; all are 0 when every impact is 0; otherwise the largest scores exactly 1 |
| Sensitivity.OatRowsImpactNonNegative | dss_sales_inventory/analysis/sensitivity/sensitivity_analysis.py:235-237 | every impact magnitude of the loop is ≥ 0 |
| Sensitivity.Frame.RunOatAnalysis | dss_sales_inventory/analysis/sensitivity/sensitivity_analysis.py:200-257 | the table ends exactly as it started, and the results are the scored rows of the perturbation loop |
| Sensitivity.Frame.PerturbVariable | dss_sales_inventory/analysis/sensitivity/sensitivity_analysis.py:212-242 | for a variable that is a column, each ratio scales it in place, recomputes the KPIs and reverts it: the table ends as it began and the rows are that variable's rows, one per ratio |
| Sensitivity.RunAsWritten | dss_sales_inventory/analysis/sensitivity/sensitivity_analysis.py:200-257 | `run_oat_analysis` with the exception handler as written; `Sensitivity.StaleRestoreAddsColumn` shows the stale restore adding a column |
| Sensitivity.StaleRestoreAddsColumn | dss_sales_inventory/analysis/sensitivity/sensitivity_analysis.py:244-247 | as written, a missing variable after an existing one gets the earlier variable's values as a new column, and rows are then reported for it |
| StarSchema.SortedDatesAscending | dss_sales_inventory/data_model/build_star_schema.py:91-93 | the distinct sales dates come out strictly ascending |
| StarSchema.SortedDatesCover | dss_sales_inventory/data_model/build_star_schema.py:91-93 | every sales date is a dimension date and every dimension date is some sales date |
| StarSchema.DimDate | dss_sales_inventory/data_model/build_star_schema.py:86-111 | `build_dim_date` as a value; `StarSchema.DimDateProperties`, `StarSchema.DateIdOf`, `StarSchema.DateIdInjective` and `StarSchema.BuiltDatesResolve` state its properties |
| StarSchema.DimDateProperties | dss_sales_inventory/data_model/build_star_schema.py:86-111 | dim_date holds each sales date once, ascending, with consecutive date ids from 1000 |
| StarSchema.DateIdOf | dss_sales_inventory/data_model/build_star_schema.py:179-185 | the date lookup finds no id exactly when no dimension row has the date, and a found id belongs to a row with that date |
| StarSchema.DateIdInjective | dss_sales_inventory/data_model/build_star_schema.py:97 | on dim_date two dates with the same id are the same date |
| StarSchema.DateIdDistinct | dss_sales_inventory/data_model/build_star_schema.py:97 | on dim_date distinct dates get distinct ids |
| StarSchema.PricesFor | dss_sales_inventory/data_model/build_star_schema.py:123-129 | a product has per-row unit prices exactly when it has a sales row |
| StarSchema.Deduplicated | dss_sales_inventory/data_model/build_star_schema.py:133 | dropping duplicate inventory rows keeps exactly the same rows, each once |
| StarSchema.CostsFor | dss_sales_inventory/data_model/build_star_schema.py:133-136 | the costs listed for a product are exactly those of its inventory rows, distinct after deduplication |
| StarSchema.RowsFor | dss_sales_inventory/data_model/build_star_schema.py:136-145 | the inner merge gives one row per listed cost, carrying the product's mean price and the cost with a missing one filled as 0 |
| StarSchema.JoinedRows | dss_sales_inventory/data_model/build_star_schema.py:136 | every merged row belongs to one of the price keys and carries that product's price and one of its listed costs |
| StarSchema.JoinedCovers | dss_sales_inventory/data_model/build_star_schema.py:136 | every price key that has a listed cost appears in the merge |
| StarSchema.JoinedIds | dss_sales_inventory/data_model/build_star_schema.py:136 | the merged product ids are drawn from the price keys |
| StarSchema.JoinedDistinct | dss_sales_inventory/data_model/build_star_schema.py:136-141 | the merged product ids are distinct exactly when no price key lists two costs |
| StarSchema.CostsConflict | dss_sales_inventory/data_model/build_star_schema.py:133 | after deduplication a product lists two costs exactly when two of its inventory rows disagree on the cost |
| StarSchema.GroupedProductIdsProperties | dss_sales_inventory/data_model/build_star_schema.py:129 | the price keys are exactly the sold products, each once |
| StarSchema.BuildDimProduct | dss_sales_inventory/data_model/build_star_schema.py:113-147 | `build_dim_product` as a value; `StarSchema.DimProductFails`, `StarSchema.DimProductRows` and `StarSchema.DimProductCostsNonNegative` state its properties |
| StarSchema.DimProductFails | dss_sales_inventory/data_model/build_star_schema.py:113-147 | build_dim_product fails with the key violation exactly when a sold product has two inventory rows with different unit costs |
| StarSchema.DimProductRows | dss_sales_inventory/data_model/build_star_schema.py:113-147 | a built dim_product has distinct ids, each a sold product priced at the mean per-row unit price with one of its inventory costs (missing as 0), and contains every sold product that has an inventory row |
| StarSchema.QuantityAt | dss_sales_inventory/data_model/build_star_schema.py:161-164 | the summed quantity of a grain key is non-negative when every daily quantity is |
| StarSchema.RevenueAt | dss_sales_inventory/data_model/build_star_schema.py:161-164 | the summed revenue of a grain key is non-negative when every daily revenue is |
| StarSchema.UnitCostOf | dss_sales_inventory/data_model/build_star_schema.py:193-198 | the cost lookup finds nothing exactly when no dim_product row has the product, and a found cost belongs to such a row |
| StarSchema.GrainKeysMembership | dss_sales_inventory/data_model/build_star_schema.py:161-164 | the grain keys are exactly the (product, date) pairs of the sales, strictly ascending |
| StarSchema.BuildFactSales | dss_sales_inventory/data_model/build_star_schema.py:152-218 | `build_fact_sales` as a value; `StarSchema.FactSalesErrors`, `StarSchema.FactSalesRows`, `StarSchema.BuiltGrainUnique`, `StarSchema.BuiltRowKeys` and `StarSchema.BuiltRowMeasures` state its properties |
| StarSchema.FactSalesErrors | dss_sales_inventory/data_model/build_star_schema.py:187-203 | build_fact_sales fails on the date lookup exactly when some sales date is not in dim_date, and otherwise on the cost lookup exactly when some sold product is not in dim_product |
| StarSchema.BuiltDatesResolve | dss_sales_inventory/data_model/build_star_schema.py:175-190 | against the dim_date built from the same sales the date lookup never fails |
| StarSchema.FactSalesRows | dss_sales_inventory/data_model/build_star_schema.py:152-218 | a built fact table has one row per distinct (product, date), ascending, with sales_id 1..n, region 1, the key's date id, summed quantity and revenue, and cost equal to quantity times unit cost |
| StarSchema.UnknownCount | dss_sales_inventory/data_model/build_star_schema.py:241-251 | the count of rows with an unknown foreign key is at most the row count and positive exactly when some row's key is unknown |
| StarSchema.ViolationsEmpty | dss_sales_inventory/data_model/build_star_schema.py:223-268 | no error is collected exactly when the grain is unique, every foreign key is in its dimension, no measure is negative and nothing is null |
| StarSchema.ViolationsMembership | dss_sales_inventory/data_model/build_star_schema.py:233-261 | an error is collected exactly when its check fires, with the foreign-key errors carrying their row counts |
| StarSchema.ViolationsListed | dss_sales_inventory/data_model/build_star_schema.py:233-261 | the grain, negative-measure and null errors are each collected exactly when their condition holds |
| StarSchema.ReferentialViolationsListed | dss_sales_inventory/data_model/build_star_schema.py:240-251 | a foreign-key error is collected exactly when some row's key is unknown, and carries the number of such rows |
| StarSchema.CountUnknown | dss_sales_inventory/data_model/build_star_schema.py:241-243 | the scan counts exactly the rows whose foreign key is unknown |
| StarSchema.CheckReferential | dss_sales_inventory/data_model/build_star_schema.py:240-251 | collects the product, date and region errors in that order |
| StarSchema.CheckHygiene | dss_sales_inventory/data_model/build_star_schema.py:253-261 | collects the negative-quantity, -revenue, -cost and null errors in that order |
| StarSchema.ValidateSchema | dss_sales_inventory/data_model/build_star_schema.py:223-268 | validation passes exactly when the schema is sound, and otherwise fails with every collected error in check order |
| StarSchema.BuiltGrainUnique | dss_sales_inventory/data_model/build_star_schema.py:152-218 | the fact table the builders produce repeats no (product, date, region) grain |
| StarSchema.BuiltRowKeys | dss_sales_inventory/data_model/build_star_schema.py:152-218 | every built fact row has its product, date and region ids in the dimensions |
| StarSchema.DimProductCostsNonNegative | dss_sales_inventory/data_model/build_star_schema.py:113-147 | dim_product has no negative unit cost when the inventory lists none |
| StarSchema.BuiltRowMeasures | dss_sales_inventory/data_model/build_star_schema.py:152-218 | built fact rows have non-negative quantity, revenue and cost when the sales and unit costs are non-negative |
| StarSchema.BuiltSchemaIsSound | dss_sales_inventory/data_model/build_star_schema.py:113-268 | for non-negative sales and costs, the tables the builders produce always pass validate_schema |
| Features.QuantitySum | dss_sales_inventory/features/features.py:41-44 | a group's summed quantity is non-negative when every row quantity is |
| Features.RevenueSum | dss_sales_inventory/features/features.py:36-44 | a group's summed filled revenue is non-negative when every filled revenue is |
| Features.DailySalesRows | dss_sales_inventory/features/features.py:41-44 | daily_sales has exactly one row per sold (product, date), in ascending key order, carrying that group's summed quantity and filled revenue |
| Features.DailySalesUnique | dss_sales_inventory/features/features.py:41-91 | the aggregation never repeats a key, so the duplicate-daily-sales check never fires |
| Features.Lookup | dss_sales_inventory/features/features.py:49-53 | the merge finds no daily row exactly when the key was not sold, and a found row has that key |
| Features.JoinedShape | dss_sales_inventory/features/features.py:49-64 | the merged table keeps the inventory rows in order, and each stock ratio times max(daily quantity, 1), which is at least 1, is the stock on hand |
| Features.JoinedSums | dss_sales_inventory/features/features.py:49-57 | a merged row gets its group's sums when the key was sold and 0 for both otherwise |
| Features.WithRatios | dss_sales_inventory/features/features.py:81 | replacing the ratio column changes only the stock ratio of each row |
| Features.Ratios | dss_sales_inventory/features/features.py:69-74 | the ratio column lists each row's stock ratio |
| Features.ClippedRows | dss_sales_inventory/features/features.py:69-81 | after clipping no ratio exceeds Q3 + 1.5 IQR, ratios at or below it are unchanged, ratios above become the limit and nothing else changes |
| Features.Features | dss_sales_inventory/features/features.py:8-117 | `run_features` as a value; `Features.FeaturesErrors`, `Features.NonNegativeInputsPass` and `Features.DailySalesRows` state its properties, and `Features.RunFeatures` computes it |
| Features.FeaturesErrors | dss_sales_inventory/features/features.py:86-93 | the stage fails on a missing input exactly when an input is missing, never on a duplicate daily row, and when it fails after the sign checks it is on a repeated inventory (product, date) |
| Features.DailyNonNegative | dss_sales_inventory/features/features.py:86-87 | non-negative quantities and filled revenues never trip the negative-sales check |
| Features.RatiosNonNegative | dss_sales_inventory/features/features.py:62-89 | non-negative stock and a non-negative limit never trip the negative-ratio check |
| Features.NonNegativeInputsPass | dss_sales_inventory/features/features.py:8-117 | with non-negative inputs and ordered non-negative quartiles the stage succeeds exactly when the inventory snapshot repeats no (product, date) |
| Features.AnyAbove | dss_sales_inventory/features/features.py:74-75 | the scan reports an outlier exactly when some ratio exceeds the limit |
| Features.ClipUpper | dss_sales_inventory/features/features.py:81 | clipping in place replaces each value by min(value, limit) |
| Features.RunFeatures | dss_sales_inventory/features/features.py:8-117 | the stage returns exactly the tables, or the first failing check's error, that the value model gives |
| Cleaning.FilledAll | dss_sales_inventory/cleaning/cleaning.py:54-56 | the fill keeps the row count and applies the per-row revenue fill to every row |
| Cleaning.FilledRows | dss_sales_inventory/cleaning/cleaning.py:54-56 | the fill changes only the revenue; it leaves rows with a revenue, or every row when the column is absent, unchanged, and fills a missing revenue with quantity times unit price |
| Cleaning.FillRevenue | dss_sales_inventory/cleaning/cleaning.py:54-56 | the in-place fill leaves the array equal to the filled rows |
| Cleaning.KeepFirstShorter | dss_sales_inventory/cleaning/cleaning.py:61-62 | dropping duplicates never adds rows |
| Cleaning.KeepFirstSameKeys | dss_sales_inventory/cleaning/cleaning.py:61-62 | dropping duplicates loses no key and invents none |
| Cleaning.KeepFirstUnique | dss_sales_inventory/cleaning/cleaning.py:61-62 | after dropping duplicates no key repeats |
| Cleaning.KeepFirstKeepsFirst | dss_sales_inventory/cleaning/cleaning.py:61-62 | each kept row is the first input row with its key |
| Cleaning.DatesOfMembers | dss_sales_inventory/cleaning/cleaning.py:68-69 | a product's dates are exactly the dates paired with it |
| Cleaning.FirstWhere | dss_sales_inventory/cleaning/cleaning.py:67-74 | the search finds nothing exactly when no group has a gap, and otherwise returns the first group that has one |
| Cleaning.GroupIdsFacts | dss_sales_inventory/cleaning/cleaning.py:68 | the groups are exactly the products of the table, in ascending order |
| Cleaning.FirstInGroupsNone | dss_sales_inventory/cleaning/cleaning.py:67-74 | the search over the groups finds nothing exactly when no product of the table satisfies the test |
| Cleaning.NoGapMeaning | dss_sales_inventory/cleaning/cleaning.py:67-74 | no gap is reported exactly when no product has one |
| Cleaning.FirstGapIsSmallest | dss_sales_inventory/cleaning/cleaning.py:67-74 | a reported product occurs in the table, has a gap, and no smaller product has one |
| Cleaning.SortedDatesMonotonic | dss_sales_inventory/cleaning/cleaning.py:70-72 | sorting a product's dates is a permutation that is non-decreasing, so the monotonic check never fires |
| Cleaning.GapBetween | dss_sales_inventory/cleaning/cleaning.py:73 | two sorted dates more than 30 days apart with no date strictly between them make a jump |
| Cleaning.GapMeaning | dss_sales_inventory/cleaning/cleaning.py:73 | on sorted dates a jump of more than 30 days happens exactly when two dates more than 30 days apart have none between them |
| Cleaning.ProductGapMeaning | dss_sales_inventory/cleaning/cleaning.py:70-74 | a product has a gap exactly when two of its dates are more than 30 days apart with none of its dates between them |
| Cleaning.HasGap | dss_sales_inventory/cleaning/cleaning.py:73 | the scan of successive differences reports a jump of more than 30 days exactly when there is one |
| Cleaning.FindGap | dss_sales_inventory/cleaning/cleaning.py:67-74 | the per-product loop returns the first product, in ascending id order, with a gap |
| Cleaning.CheckTables | dss_sales_inventory/cleaning/cleaning.py:64-85 | the checks either return the tables unchanged or fail with a gap or a missing-inventory error |
| Cleaning.CleanedSalesKeys | dss_sales_inventory/cleaning/cleaning.py:54-61 | the cleaned sales table has no more rows than the input, unique sale ids, and every input sale id |
| Cleaning.CleanedSalesFirst | dss_sales_inventory/cleaning/cleaning.py:54-61 | each cleaned sales row is the first input row with its sale id, its revenue filled |
| Cleaning.CleanedStocksKeys | dss_sales_inventory/cleaning/cleaning.py:62 | the cleaned inventory has no more rows than the input, unique (product, date) pairs, and every input pair |
| Cleaning.CleanedStocksFirst | dss_sales_inventory/cleaning/cleaning.py:62 | each cleaned inventory row is the first input row with its (product, date) |
| Cleaning.MissingMeaning | dss_sales_inventory/cleaning/cleaning.py:79-83 | a product is missing from inventory exactly when it is sold and has no inventory row |
| Cleaning.NothingMissing | dss_sales_inventory/cleaning/cleaning.py:83-85 | nothing is missing exactly when every sold product has an inventory row |
| Cleaning.CheckTablesPass | dss_sales_inventory/cleaning/cleaning.py:64-85 | the checks pass exactly when neither table has a product with a gap and every sold product has inventory |
| Cleaning.SalesGapReported | dss_sales_inventory/cleaning/cleaning.py:67-74 | a sales gap is reported for the smallest sold product that has one |
| Cleaning.InventoryGapReported | dss_sales_inventory/cleaning/cleaning.py:67-74 | an inventory gap is reported only when sales have none, and for the smallest stocked product that has one |
| Cleaning.MissingReported | dss_sales_inventory/cleaning/cleaning.py:79-85 | a missing-inventory error comes only after both gap checks passed, and lists exactly the sold products with no inventory row |
| Cleaning.Clean | dss_sales_inventory/cleaning/cleaning.py:8-111 | `run_cleaning` as a value; `Cleaning.CleanErrors`, `Cleaning.CheckTablesPass`, `Cleaning.CleanedSalesFirst` and `Cleaning.CleanedStocksFirst` state its properties, and `Cleaning.RunCleaning` computes it |
| Cleaning.CleanErrors | dss_sales_inventory/cleaning/cleaning.py:13-62 | the stage fails on a missing input first, then on a null in sales, then in inventory, and a success carries the filled, de-duplicated tables |
| Cleaning.RunCleaning | dss_sales_inventory/cleaning/cleaning.py:8-111 | the stage returns exactly the result the value model gives |
| Common.MissingFromMeaning | dss_sales_inventory/ingestion/ingestion.py:66-71 | the missing list holds exactly the required columns that are absent, is no longer than the required list, and is empty exactly when every required column is present |
| Common.MissingFromNonePresent | dss_sales_inventory/ingestion/ingestion.py:70-71 | when no required column is present every one is listed, in the required order |
| Ingestion.FirstFailing | dss_sales_inventory/ingestion/ingestion.py:85-107 | a reported column is always one of the checked columns |
| Ingestion.FirstFailingMeaning | dss_sales_inventory/ingestion/ingestion.py:85-107 | no failure is found exactly when every check holds, and a found column is the first in check order whose check fails |
| Ingestion.CheckColumn | dss_sales_inventory/ingestion/ingestion.py:94-106 | the cell scan passes exactly when every cell of the column meets the check, a NaN cell failing it |
| Ingestion.FindFailing | dss_sales_inventory/ingestion/ingestion.py:93-107 | the loop over the check table returns the first failing column, or none |
| Ingestion.SalesChecksMeaning | dss_sales_inventory/ingestion/ingestion.py:86-95 | the sales checks find no failure exactly when sale_id > 0, product_id > 0, quantity >= 0 and unit_price > 0 hold on every row |
| Ingestion.InventoryChecksMeaning | dss_sales_inventory/ingestion/ingestion.py:97-107 | the inventory checks find no failure exactly when product_id > 0, stock_on_hand >= 0, reorder_point > 0, lead_time_days >= 0 and unit_cost > 0 hold on every row |
| Ingestion.Ingest | dss_sales_inventory/ingestion/ingestion.py:11-130 | `run_ingestion` as a value; `Ingestion.IngestSucceeds`, `Ingestion.MissingColumnsReported` and `Ingestion.ValidationReported` state its properties, and `Ingestion.RunIngestion` computes it |
| Ingestion.IngestSucceeds | dss_sales_inventory/ingestion/ingestion.py:11-130 | the stage succeeds exactly when both files exist, every required column is present and every value check holds, and then returns the tables unchanged |
| Ingestion.MissingColumnsReported | dss_sales_inventory/ingestion/ingestion.py:70-76 | a missing-columns error names exactly the absent required columns of its file, and inventory columns are reported only once the sales columns are complete |
| Ingestion.ValidationReported | dss_sales_inventory/ingestion/ingestion.py:85-107 | a failed value check names the first failing column of its file in check order, and an inventory failure is reported only when every sales check passed |
| Ingestion.RunIngestion | dss_sales_inventory/ingestion/ingestion.py:51-130 | the stage returns exactly the result the value model gives |
| DecisionBrief.MeanOrNaN | dss_sales_inventory/reporting/outputs/python_dash/decision_brief.py:213-214 | a column mean is missing exactly for an empty column and otherwise lies between its smallest and largest value |
| DecisionBrief.FlagCount | dss_sales_inventory/reporting/outputs/python_dash/decision_brief.py:215-217 | the number of flagged rows is at most the number of rows |
| DecisionBrief.DistinctIds | dss_sales_inventory/reporting/outputs/python_dash/decision_brief.py:218 | the counted ids are exactly the product ids of the table |
| DecisionBrief.PortfolioKpis | dss_sales_inventory/reporting/outputs/python_dash/decision_brief.py:212-219 | the portfolio block of the summary; `DecisionBrief.PortfolioKpisMeaning` and `DecisionBrief.InterventionCountAgrees` state its properties |
| DecisionBrief.PortfolioKpisMeaning | dss_sales_inventory/reporting/outputs/python_dash/decision_brief.py:212-219 | every product is counted once and there are no more products than rows; the averages are missing exactly for an empty table and otherwise lie between their column's extremes; the intervention count is at most the row count |
| DecisionBrief.HighRiskCount | dss_sales_inventory/reporting/outputs/python_dash/decision_brief.py:224 | the high-risk count is at most the row count and zero exactly when no row is at level High |
| DecisionBrief.TopOfSorted | dss_sales_inventory/reporting/outputs/python_dash/decision_brief.py:226-238 | the head of a sorted copy holds min(n, length) input elements, sorted, and every element left out may follow the last one kept |
| DecisionBrief.TopRiskProductsOrder | dss_sales_inventory/reporting/outputs/python_dash/decision_brief.py:226-231 | top_risk_products holds min(5, n) rows in descending risk score |
| DecisionBrief.TopRiskProductsCover | dss_sales_inventory/reporting/outputs/python_dash/decision_brief.py:226-231 | each top-risk row projects a risk row, and every risk row left out scores no higher than the last one listed |
| DecisionBrief.WorstExpectedProfitOrder | dss_sales_inventory/reporting/outputs/python_dash/decision_brief.py:233-238 | worst_expected_profit_products holds min(5, n) rows in ascending expected profit |
| DecisionBrief.WorstExpectedProfitCover | dss_sales_inventory/reporting/outputs/python_dash/decision_brief.py:233-238 | each listed row projects a risk row, and every risk row left out has an expected profit no lower than the last one listed |
| DecisionBrief.RiskMatches | dss_sales_inventory/reporting/outputs/python_dash/decision_brief.py:243-248 | a product's risk matches are exactly the risk rows with its id |
| DecisionBrief.MergeRow | dss_sales_inventory/reporting/outputs/python_dash/decision_brief.py:243-248 | a KPI row yields at least one merged row, each carrying that KPI row and, when present, a risk row of the same product |
| DecisionBrief.MergeProvenance | dss_sales_inventory/reporting/outputs/python_dash/decision_brief.py:243-248 | every merged row pairs a KPI row with a risk row of the same product, or with none |
| DecisionBrief.RiskMatchesAtMostOne | dss_sales_inventory/reporting/outputs/python_dash/decision_brief.py:243-248 | with unique risk ids a product has at most one risk row |
| DecisionBrief.MergeOneForOne | dss_sales_inventory/reporting/outputs/python_dash/decision_brief.py:243-248 | with unique risk ids the left merge keeps the KPI rows one for one, in order |
| DecisionBrief.FlaggedRows | dss_sales_inventory/reporting/outputs/python_dash/decision_brief.py:250-259 | the filtered rows are exactly the projections of the merged rows flagged Requires Intervention |
| DecisionBrief.Interventions | dss_sales_inventory/reporting/outputs/python_dash/decision_brief.py:250-262 | the intervention list; `DecisionBrief.InterventionsMeaning`, `DecisionBrief.InterventionsMeetRule` and `DecisionBrief.RuleHitsListed` state its properties |
| DecisionBrief.InterventionsMeaning | dss_sales_inventory/reporting/outputs/python_dash/decision_brief.py:250-262 | the intervention list is a permutation of the flagged rows, in descending inventory risk score |
| DecisionBrief.InterventionsMeetRule | dss_sales_inventory/reporting/outputs/python_dash/decision_brief.py:250-262 | when the KPI stage set the flags, every listed product meets the intervention rule |
| DecisionBrief.RuleHitsListed | dss_sales_inventory/reporting/outputs/python_dash/decision_brief.py:250-262 | when the KPI stage set the flags, every product whose KPI row meets the intervention rule is listed |
| DecisionBrief.InterventionCountAgrees | dss_sales_inventory/reporting/outputs/python_dash/decision_brief.py:215-262 | with one risk row per product the intervention list is as long as the portfolio's intervention count |
| DecisionBrief.Advise | dss_sales_inventory/reporting/outputs/python_dash/decision_brief.py:267-284 | the recommendation rule; `DecisionBrief.AdviceByMargin`, `DecisionBrief.AdviceWithoutAverage` and `DecisionBrief.AdviceTextInjective` state its properties |
| DecisionBrief.AdviceByMargin | dss_sales_inventory/reporting/outputs/python_dash/decision_brief.py:267-284 | review is advised exactly for a High-risk product at or above the average margin, de-prioritization exactly for one below it with a negative expected profit, and monitoring otherwise |
| DecisionBrief.AdviceWithoutAverage | dss_sales_inventory/reporting/outputs/python_dash/decision_brief.py:270-284 | with a missing (NaN) average margin every product is monitored |
| DecisionBrief.AdviceTextInjective | dss_sales_inventory/reporting/outputs/python_dash/decision_brief.py:275-284 | the three recommendation sentences are distinct |
| DecisionBrief.CompileRecommendations | dss_sales_inventory/reporting/outputs/python_dash/decision_brief.py:267-289 | one recommendation per intervention, in list order, each with that product's advice |
| DecisionBrief.BuildDecisionSummary | dss_sales_inventory/reporting/outputs/python_dash/decision_brief.py:193-314 | the summary carries the portfolio figures, the high-risk count, both top-5 lists, the intervention list and one recommendation per intervention |
| DecisionBrief.Narrative | dss_sales_inventory/reporting/outputs/python_dash/decision_brief.py:392-403 | the stable narrative is chosen exactly when no product trends up or down, and the mixed one otherwise |
| DecisionBrief.AppendSection | dss_sales_inventory/reporting/outputs/python_dash/decision_brief.py:405-436 | a list section is its header followed by the empty-list sentence, or by one line per item and a blank line |
| DecisionBrief.RecommendationLineInjective | dss_sales_inventory/reporting/outputs/python_dash/decision_brief.py:432-435 | a recommendation line determines its product id and its advice |
| DecisionBrief.InterventionSection | dss_sales_inventory/reporting/outputs/python_dash/decision_brief.py:404-422 | section 5 keeps the earlier lines, adds its header, then the empty sentence or one line per intervention in list order, each led by "- Product " and its id, and a blank line |
| DecisionBrief.RecommendationSection | dss_sales_inventory/reporting/outputs/python_dash/decision_brief.py:424-436 | section 6 keeps the earlier lines, adds its header, then the empty sentence or one line per recommendation in order and a blank line |
| TimeSeries.FirstListed | dss_sales_inventory/analysis/time_series/time_series_analysis.py:29-32 | the search returns the first preferred metric that is a column, or none when no preferred metric is |
| TimeSeries.FindValueColumn | dss_sales_inventory/analysis/time_series/time_series_analysis.py:26-35 | avg_daily_sales when numeric, else total_revenue, else the first numeric column; an error exactly when there is no numeric column |
| TimeSeries.SqDevPositive | dss_sales_inventory/analysis/time_series/time_series_analysis.py:49-51 | with two or more points the positions are not all equal, so the least-squares slope is defined |
| TimeSeries.SumLinear | dss_sales_inventory/analysis/time_series/time_series_analysis.py:49-51 | the sum of an exact line over positions 0..n-1 |
| TimeSeries.MeanLinear | dss_sales_inventory/analysis/time_series/time_series_analysis.py:49-51 | a line's mean is its value at the mean position |
| TimeSeries.LinearSlope | dss_sales_inventory/analysis/time_series/time_series_analysis.py:49-51 | the fitted slope of an exact line is the line's slope |
| TimeSeries.Threshold | dss_sales_inventory/analysis/time_series/time_series_analysis.py:52 | the threshold is always positive |
| TimeSeries.ThresholdForm | dss_sales_inventory/analysis/time_series/time_series_analysis.py:52-56 | the square-root-free comparison used by the model is the comparison against 5% of the standard deviation, or 0.01 when it is zero |
| TimeSeries.DetectTrend | dss_sales_inventory/analysis/time_series/time_series_analysis.py:45-57 | fewer than two points is stable; an up trend has a positive slope and a down trend a negative one |
| TimeSeries.TrendAgainstThreshold | dss_sales_inventory/analysis/time_series/time_series_analysis.py:45-57 | for two or more points the trend is up exactly when the slope exceeds the threshold, down exactly when it is below its negation, and stable exactly when it lies between |
| TimeSeries.ConstantIsStable | dss_sales_inventory/analysis/time_series/time_series_analysis.py:45-57 | a constant series is stable |
| TimeSeries.LinearDev2 | dss_sales_inventory/analysis/time_series/time_series_analysis.py:49-52 | the squared deviations of an exact line are the slope squared times those of the positions |
| TimeSeries.SqDevCentered | dss_sales_inventory/analysis/time_series/time_series_analysis.py:49-52 | the positions 0..n-1 deviate from their mean by n(n² - 1)/12 in total |
| TimeSeries.LineTrend | dss_sales_inventory/analysis/time_series/time_series_analysis.py:45-57 | the trend of an exact non-flat line depends only on its direction and on the spread of its positions |
| TimeSeries.NearFlat | dss_sales_inventory/analysis/time_series/time_series_analysis.py:52 | the spread of n positions is below 400·n exactly when n <= 69 |
| TimeSeries.RisingLine | dss_sales_inventory/analysis/time_series/time_series_analysis.py:45-57 | an exact rising line is up when it has at most 69 points and stable from 70 points on |
| TimeSeries.FallingLine | dss_sales_inventory/analysis/time_series/time_series_analysis.py:45-57 | an exact falling line is down when it has at most 69 points and stable from 70 points on |
| TimeSeries.LastWith | dss_sales_inventory/analysis/time_series/time_series_analysis.py:61-66 | the lookup finds no row exactly when no row has the product, and otherwise the last row with it |
| TimeSeries.GenerateInsight | dss_sales_inventory/analysis/time_series/time_series_analysis.py:59-77 | the insight keeps the trend, recommends increase / reduce / maintain exactly for up / down / stable, reports the last demand level and last inventory figures of the product, and N/A exactly when they are missing |
| TimeSeries.GroupSeries | dss_sales_inventory/analysis/time_series/time_series_analysis.py:155 | one series per distinct product in ascending order, each holding that product's values |
| TimeSeries.GroupSeriesProducts | dss_sales_inventory/analysis/time_series/time_series_analysis.py:155 | the series are exactly the products of the table, each once, ascending, none empty |
| TimeSeries.TopProductsRanked | dss_sales_inventory/analysis/time_series/time_series_analysis.py:155 | the top list holds min(k, products) series from the input, by descending mean, and every series left out has a mean no higher than any listed one |
| TimeSeries.TrendCountsPartition | dss_sales_inventory/analysis/time_series/time_series_analysis.py:113-166 | the up, down and stable counts add up to the number of trends |
| TimeSeries.Summarise | dss_sales_inventory/analysis/time_series/time_series_analysis.py:160-191 | one product's summary row: its trend, mean, last value and insight; `TimeSeries.SummariesComplete`, `TimeSeries.SampleFullyAnalysed` and `TimeSeries.GenerateInsight` state its properties |
| TimeSeries.AnalyseSample | dss_sales_inventory/analysis/time_series/time_series_analysis.py:155-191 | each non-empty sampled series gets one summary row in sample order, and the tally counts its trends, adding up to the number of rows |
| TimeSeries.SummariesComplete | dss_sales_inventory/analysis/time_series/time_series_analysis.py:160-191 | with no empty series every sampled product has exactly one summary row at its own position |
| TimeSeries.SampleFullyAnalysed | dss_sales_inventory/analysis/time_series/time_series_analysis.py:155-191 | the analysed sample has min(k, products) rows, each with the trend of its top product's series |
| Rolling.Trailing | dss_sales_inventory/analysis/time_series/time_series_analysis.py:40-42 | the window holds the last min(length, window) values, in order |
| Rolling.GroupValuesStep | dss_sales_inventory/analysis/time_series/time_series_analysis.py:40-42 | one more row adds its value to its own group and to no other |
| Rolling.GroupValuesFromGroup | dss_sales_inventory/analysis/time_series/time_series_analysis.py:40-42 | a group's values are no more than the rows and each comes from a row of that group |
| Rolling.RollingWindow | dss_sales_inventory/analysis/time_series/time_series_analysis.py:37-43 | a row's window ends with its own value, holds min(position in group, window) values, all from its own group, and its mean lies between their smallest and largest |
| Rolling.RollingWindowOne | dss_sales_inventory/analysis/time_series/time_series_analysis.py:40-42 | with a window of one the rolling mean is the row's own value |
| Rolling.RollingMean | dss_sales_inventory/reporting/outputs/python_dash/enhanced_dashboard.py:101-107 | the transformed column has one rolling mean per row, in row order |
| Rolling.GroupValuesSplit | dss_sales_inventory/reporting/outputs/python_dash/enhanced_dashboard.py:112 | rows split in two contribute their group values in two parts |
| Rolling.GroupValuesAbsent | dss_sales_inventory/reporting/outputs/python_dash/enhanced_dashboard.py:112 | rows of other groups contribute nothing to a group |
| Rolling.CumulativeRunning | dss_sales_inventory/reporting/outputs/python_dash/enhanced_dashboard.py:109-113 | every later row of a group adds its value to the cumulative sum of the group's previous row |
| Rolling.CumulativeFirst | dss_sales_inventory/reporting/outputs/python_dash/enhanced_dashboard.py:109-113 | a group's first row carries its own value |
| Rolling.CumulativeTotal | dss_sales_inventory/reporting/outputs/python_dash/enhanced_dashboard.py:109-113 | the last row of a group carries the group total |
| Rolling.GroupValuesNonNegative | dss_sales_inventory/reporting/outputs/python_dash/enhanced_dashboard.py:112 | non-negative values give non-negative group values |
| Rolling.CumulativeMonotone | dss_sales_inventory/reporting/outputs/python_dash/enhanced_dashboard.py:109-113 | with non-negative revenues the cumulative sum never falls within a group |
| Rolling.CumulativeSum | dss_sales_inventory/reporting/outputs/python_dash/enhanced_dashboard.py:109-113 | the transformed column has one cumulative sum per row, in row order |
| Dashboard.NatToString | dss_sales_inventory/reporting/outputs/python_dash/enhanced_dashboard.py:94 | the decimal digits of a number, at least two from 10 on |
| Dashboard.IntToString | dss_sales_inventory/reporting/outputs/python_dash/enhanced_dashboard.py:94 | a printed id is non-empty and has no space |
| Dashboard.NatToStringInjective | dss_sales_inventory/reporting/outputs/python_dash/enhanced_dashboard.py:94 | distinct numbers print differently |
| Dashboard.SignChar | dss_sales_inventory/reporting/outputs/python_dash/enhanced_dashboard.py:94 | only negative ids print with a leading minus |
| Dashboard.IntToStringInjective | dss_sales_inventory/reporting/outputs/python_dash/enhanced_dashboard.py:94 | distinct product ids print differently |
| Dashboard.FirstSpace | dss_sales_inventory/reporting/outputs/python_dash/enhanced_dashboard.py:94 | the first space of an identifier follows the printed product id |
| Dashboard.IdentifierInjective | dss_sales_inventory/reporting/outputs/python_dash/enhanced_dashboard.py:94-113 | the identifier names its product and region unambiguously, so grouping by identifier is grouping by (product, region) |
| Dashboard.Combos | dss_sales_inventory/reporting/outputs/python_dash/enhanced_dashboard.py:89 | the combinations are exactly the product-region pairs of the rows, each once |
| Dashboard.MinDate | dss_sales_inventory/reporting/outputs/python_dash/enhanced_dashboard.py:88 | the first date is a row's date and no later than any |
| Dashboard.MaxDate | dss_sales_inventory/reporting/outputs/python_dash/enhanced_dashboard.py:88 | the last date is a row's date and no earlier than any |
| Dashboard.FullIndex | dss_sales_inventory/reporting/outputs/python_dash/enhanced_dashboard.py:88-91 | the full index has days x combinations keys, exactly the days from the first date crossed with the combinations, in day order |
| Dashboard.MergeBlocks | dss_sales_inventory/reporting/outputs/python_dash/enhanced_dashboard.py:92-93 | each key of the index gets its block of matching rows, or one row of zeros |
| Dashboard.FillMissingDates | dss_sales_inventory/reporting/outputs/python_dash/enhanced_dashboard.py:85-86 | an empty frame is returned as it is |
| Dashboard.DaySpan | dss_sales_inventory/reporting/outputs/python_dash/enhanced_dashboard.py:88 | the number of days from the first to the last date, both included |
| Dashboard.KeyIndex | dss_sales_inventory/reporting/outputs/python_dash/enhanced_dashboard.py:92 | the lookup finds no row exactly when no loaded row has the key, and a found row has it |
| Dashboard.CellValues | dss_sales_inventory/reporting/outputs/python_dash/enhanced_dashboard.py:92-94 | a cell carries its day, product, region and identifier, is zero when no loaded row has its key, and otherwise, with unique keys, holds that row's values |
| Dashboard.MatchingUnique | dss_sales_inventory/reporting/outputs/python_dash/enhanced_dashboard.py:92 | the matching rows are empty exactly when no row has the key, and with unique keys are that one row |
| Dashboard.FillCellOne | dss_sales_inventory/reporting/outputs/python_dash/enhanced_dashboard.py:92-93 | with unique keys each key merges to exactly its grid cell |
| Dashboard.FillCellKeys | dss_sales_inventory/reporting/outputs/python_dash/enhanced_dashboard.py:92-94 | the rows of a cell carry its day, combination and identifier |
| Dashboard.MergeKeys | dss_sales_inventory/reporting/outputs/python_dash/enhanced_dashboard.py:92-94 | every merged row carries a key of the index and the identifier of its combination |
| Dashboard.MergeCells | dss_sales_inventory/reporting/outputs/python_dash/enhanced_dashboard.py:92-93 | with unique keys the merge yields exactly one row per key, the grid cell of that key |
| Dashboard.MergeHasCell | dss_sales_inventory/reporting/outputs/python_dash/enhanced_dashboard.py:92-93 | with unique keys the cell of every key is a merged row |
| Dashboard.FillOnGrid | dss_sales_inventory/reporting/outputs/python_dash/enhanced_dashboard.py:80-95 | filled rows lie on the grid: a day between the first and last dates and a loaded combination, with its identifier |
| Dashboard.FillMissingDatesCells | dss_sales_inventory/reporting/outputs/python_dash/enhanced_dashboard.py:80-95 | with unique keys the filled frame has one row per (day, combination) of the full index, in its order, holding the loaded row of that key or zeros |
| Dashboard.FillHasCell | dss_sales_inventory/reporting/outputs/python_dash/enhanced_dashboard.py:80-95 | every cell of the grid is a row of the filled frame |
| Dashboard.FillKeepsRows | dss_sales_inventory/reporting/outputs/python_dash/enhanced_dashboard.py:80-95 | every loaded row survives the filling with its values |
| Dashboard.FillZeroGap | dss_sales_inventory/reporting/outputs/python_dash/enhanced_dashboard.py:88-93 | a grid key that no loaded row has appears as a row of zeros |
| Dashboard.IdDateTotalPreorder | dss_sales_inventory/reporting/outputs/python_dash/enhanced_dashboard.py:103-111 | ordering by identifier, then date, is a total preorder |
| Dashboard.SortByIdDate | dss_sales_inventory/reporting/outputs/python_dash/enhanced_dashboard.py:103-111 | the sorted frame is a permutation of the frame, ordered by identifier, then date |
| Dashboard.RowsOfAttach | dss_sales_inventory/reporting/outputs/python_dash/enhanced_dashboard.py:104-112 | adding a column keeps the rows |
| Dashboard.SameIdBefore | dss_sales_inventory/reporting/outputs/python_dash/enhanced_dashboard.py:103-111 | rows of one identifier in sorted order come in date order |
| Dashboard.BetweenSameId | dss_sales_inventory/reporting/outputs/python_dash/enhanced_dashboard.py:103-111 | a row placed between two rows of an identifier has that identifier |
| Dashboard.Contiguous | dss_sales_inventory/reporting/outputs/python_dash/enhanced_dashboard.py:103-111 | in a frame sorted by identifier the rows of one identifier are contiguous |
| Dashboard.RollingOfWindow | dss_sales_inventory/reporting/outputs/python_dash/enhanced_dashboard.py:104-106 | on a sorted frame a row's rolling revenue is the mean of the last min(k, window) revenues of its identifier dated no later, ending with its own, and lies between their extremes |
| Dashboard.ComputeRollingAvg | dss_sales_inventory/reporting/outputs/python_dash/enhanced_dashboard.py:101-107 | `compute_rolling_avg` as a value; `Dashboard.RollingAvgWindow` and `Dashboard.Contiguous` state its properties |
| Dashboard.RollingAvgWindow | dss_sales_inventory/reporting/outputs/python_dash/enhanced_dashboard.py:101-107 | compute_rolling_avg returns a sorted permutation of the frame whose rolling revenue is that windowed mean |
| Dashboard.CumulativeOfRunning | dss_sales_inventory/reporting/outputs/python_dash/enhanced_dashboard.py:112 | on a sorted frame an identifier's first row carries its own revenue and every later row adds its revenue to the previous row's |
| Dashboard.ComputeCumulativeRevenue | dss_sales_inventory/reporting/outputs/python_dash/enhanced_dashboard.py:109-113 | `compute_cumulative_revenue` as a value; `Dashboard.CumulativeRunningSum`, `Dashboard.CumulativeLastIsTotal` and `Dashboard.CumulativeNonDecreasing` state its properties |
| Dashboard.CumulativeRunningSum | dss_sales_inventory/reporting/outputs/python_dash/enhanced_dashboard.py:109-113 | compute_cumulative_revenue returns a sorted permutation of the frame whose cumulative revenue is the running sum within each identifier |
| Dashboard.CumulativeOfLast | dss_sales_inventory/reporting/outputs/python_dash/enhanced_dashboard.py:112 | on a sorted frame the last row of an identifier carries its total revenue |
| Dashboard.CumulativeLastIsTotal | dss_sales_inventory/reporting/outputs/python_dash/enhanced_dashboard.py:109-113 | the last row of an identifier carries the identifier's total revenue |
| Dashboard.CumulativeNonDecreasing | dss_sales_inventory/reporting/outputs/python_dash/enhanced_dashboard.py:109-113 | with non-negative revenue the cumulative revenue never falls within an identifier |
| MonthOverMonth.TwoDigits | dss_sales_inventory/reporting/outputs/python_dash/enhanced_dashboard.py:127 | a month number is printed with exactly two digits |
| MonthOverMonth.FirstDash | dss_sales_inventory/reporting/outputs/python_dash/enhanced_dashboard.py:127 | the first '-' of a "YYYY-MM" label follows the year |
| MonthOverMonth.YearMonthInjective | dss_sales_inventory/reporting/outputs/python_dash/enhanced_dashboard.py:127 | distinct months get distinct "YYYY-MM" labels |
| MonthOverMonth.GrowthRoundTrip | dss_sales_inventory/reporting/outputs/python_dash/enhanced_dashboard.py:128 | growth is undefined exactly when the previous revenue is zero, and otherwise growing the previous revenue by it gives the current revenue |
| MonthOverMonth.GrowthOfGrown | dss_sales_inventory/reporting/outputs/python_dash/enhanced_dashboard.py:128 | growing a non-zero value by g percent is read back as growth g |
| MonthOverMonth.PctChangeValues | dss_sales_inventory/reporting/outputs/python_dash/enhanced_dashboard.py:128 | the first percentage change is undefined and every later one is the growth over the previous value |
| MonthOverMonth.MonthsOf | dss_sales_inventory/reporting/outputs/python_dash/enhanced_dashboard.py:120-126 | the months of an identifier are exactly the months in which it has a row |
| MonthOverMonth.MinInt | dss_sales_inventory/reporting/outputs/python_dash/enhanced_dashboard.py:123 | the first month is one of the months and no later than any |
| MonthOverMonth.MaxInt | dss_sales_inventory/reporting/outputs/python_dash/enhanced_dashboard.py:123 | the last month is one of the months and no earlier than any |
| MonthOverMonth.MonthColumn | dss_sales_inventory/reporting/outputs/python_dash/enhanced_dashboard.py:123-124 | entry t of a monthly column is the sum over the identifier's rows of month lo + t |
| MonthOverMonth.MonthsOfPresent | dss_sales_inventory/reporting/outputs/python_dash/enhanced_dashboard.py:120-126 | an identifier of the frame has at least one month |
| MonthOverMonth.MonthSpan | dss_sales_inventory/reporting/outputs/python_dash/enhanced_dashboard.py:123 | an identifier spans its months from the first to the last, both included |
| MonthOverMonth.MonthBlock | dss_sales_inventory/reporting/outputs/python_dash/enhanced_dashboard.py:120-128 | an identifier's block has one row per month of its span, holding the monthly sums and the revenue's percentage change |
| MonthOverMonth.IdentifierGroups | dss_sales_inventory/reporting/outputs/python_dash/enhanced_dashboard.py:122 | the groups are exactly the identifiers of the frame |
| MonthOverMonth.IdentifierGroupsAscending | dss_sales_inventory/reporting/outputs/python_dash/enhanced_dashboard.py:122 | the groups come in strictly ascending identifier order, one per identifier |
| MonthOverMonth.MomBlocks | dss_sales_inventory/reporting/outputs/python_dash/enhanced_dashboard.py:120-128 | the monthly frame holds one block per group, in group order |
| MonthOverMonth.CalculateMomGrowth | dss_sales_inventory/reporting/outputs/python_dash/enhanced_dashboard.py:115-129 | `calculate_mom_growth` as a value; `MonthOverMonth.MomColumnsFixed`, `MonthOverMonth.MomFrameRows`, `MonthOverMonth.MomFrameCovers`, `MonthOverMonth.MonthBlockGrowth` and `MonthOverMonth.MonthBlockConserves` state its properties |
| MonthOverMonth.MomColumnsFixed | dss_sales_inventory/reporting/outputs/python_dash/enhanced_dashboard.py:117-129 | empty input gives a frame with no rows, and with or without rows the frame has the same six columns |
| MonthOverMonth.MonthRange | dss_sales_inventory/reporting/outputs/python_dash/enhanced_dashboard.py:123 | the first and last months of an identifier are months in which it has a row, and every row of it falls between them |
| MonthOverMonth.MonthBlockRows | dss_sales_inventory/reporting/outputs/python_dash/enhanced_dashboard.py:120-126 | an identifier's block has one row per month from its first to its last, in order, holding that month's revenue and quantity sums |
| MonthOverMonth.MonthBlockGrowth | dss_sales_inventory/reporting/outputs/python_dash/enhanced_dashboard.py:128 | the first month of a block has no growth and every later month the growth of its revenue over the previous month's |
| MonthOverMonth.MonthColumnTotal | dss_sales_inventory/reporting/outputs/python_dash/enhanced_dashboard.py:123-124 | summing a monthly column over months that hold every row of the identifier gives its total |
| MonthOverMonth.MonthBlockConserves | dss_sales_inventory/reporting/outputs/python_dash/enhanced_dashboard.py:120-126 | monthly resampling loses nothing: an identifier's monthly revenues and quantities add up to its totals |
| MonthOverMonth.BlockRow | dss_sales_inventory/reporting/outputs/python_dash/enhanced_dashboard.py:120-126 | a row of an identifier's block is one of its months with that month's sums |
| MonthOverMonth.MomFrameRows | dss_sales_inventory/reporting/outputs/python_dash/enhanced_dashboard.py:120-129 | for non-empty input every row of the frame is a month of an identifier between its first and last month, with that month's sums |
| MonthOverMonth.MomFrameCovers | dss_sales_inventory/reporting/outputs/python_dash/enhanced_dashboard.py:120-129 | for non-empty input every month of every identifier from its first to its last has a row in the frame |
| MonthOverMonth.BlockHasMonth | dss_sales_inventory/reporting/outputs/python_dash/enhanced_dashboard.py:123 | an identifier's block has a row for every month of its span |
| SqlLayer.Extend | dss_sales_inventory/analysis/run_sql_layer.py:27 | splitting one more character keeps at least one piece |
| SqlLayer.Split | dss_sales_inventory/analysis/run_sql_layer.py:27 | a split always has at least one piece |
| SqlLayer.JoinExtend | dss_sales_inventory/analysis/run_sql_layer.py:27 | joining after one more character appends that character |
| SqlLayer.JoinSplit | dss_sales_inventory/analysis/run_sql_layer.py:27 | joining the pieces with ';' gives the text back |
| SqlLayer.SplitPieces | dss_sales_inventory/analysis/run_sql_layer.py:27 | no piece contains the separator |
| SqlLayer.SplitCount | dss_sales_inventory/analysis/run_sql_layer.py:27 | there is one piece more than there are separators |
| SqlLayer.ExtendConcat | dss_sales_inventory/analysis/run_sql_layer.py:27 | extending a concatenation only touches its last part |
| SqlLayer.SplitSnoc | dss_sales_inventory/analysis/run_sql_layer.py:27 | splitting a text with one more character extends its split |
| SqlLayer.SplitAt | dss_sales_inventory/analysis/run_sql_layer.py:27 | splitting at one separator gives the pieces of each side |
| SqlLayer.StripLeftMeaning | dss_sales_inventory/analysis/run_sql_layer.py:27 | lstrip cuts a whitespace prefix and leaves a suffix that does not start with whitespace |
| SqlLayer.StripRightMeaning | dss_sales_inventory/analysis/run_sql_layer.py:27 | rstrip cuts a whitespace suffix and leaves a prefix that does not end with whitespace |
| SqlLayer.StripMeaning | dss_sales_inventory/analysis/run_sql_layer.py:27 | strip returns the infix left after cutting exactly the whitespace at both ends |
| SqlLayer.StripEmpty | dss_sales_inventory/analysis/run_sql_layer.py:27 | a piece strips to nothing exactly when it is all whitespace |
| SqlLayer.StripKeeps | dss_sales_inventory/analysis/run_sql_layer.py:27 | strip adds no character |
| SqlLayer.StatementsConcat | dss_sales_inventory/analysis/run_sql_layer.py:27 | the statements of two runs of pieces are those of the first followed by those of the second |
| SqlLayer.QueriesAt | dss_sales_inventory/analysis/run_sql_layer.py:27 | at any ';' the statements of a text are those before it followed by those after it |
| SqlLayer.QueriesSingle | dss_sales_inventory/analysis/run_sql_layer.py:27 | a text without ';' is one statement, or none when it is all whitespace |
| SqlLayer.SingleSplit | dss_sales_inventory/analysis/run_sql_layer.py:27 | a text without the separator splits into itself |
| SqlLayer.StatementsLength | dss_sales_inventory/analysis/run_sql_layer.py:27 | the filter keeps at most as many statements as there are pieces |
| SqlLayer.StrippedStatement | dss_sales_inventory/analysis/run_sql_layer.py:27 | a stripped non-empty piece without ';' is a statement |
| SqlLayer.StatementsShape | dss_sales_inventory/analysis/run_sql_layer.py:27 | the statements of pieces without ';' are non-empty, contain no ';' and neither start nor end with whitespace |
| SqlLayer.QueriesShape | dss_sales_inventory/analysis/run_sql_layer.py:27 | every statement is non-empty, stripped and free of ';', and there are at most as many as ';' plus one |
| SqlLayer.RunSqlFile | dss_sales_inventory/analysis/run_sql_layer.py:23-34 | run_sql_file returns one result per statement, the result of executing that statement, in statement order |
| SqlLayer.Outputs | dss_sales_inventory/analysis/run_sql_layer.py:43-48 | the export succeeds exactly when there are at least three results and then writes the first three under their file names; otherwise it fails at the first missing index |
| SqlLayer.RunSqlLayer | dss_sales_inventory/analysis/run_sql_layer.py:37-48 | main succeeds exactly when the SQL file has at least three statements, and then exports the results of the first three statements under their file names |

## Left out

- All reading and writing of CSV, Excel, SQLite and Markdown files, path constants, directory creation, logging and correlation ids. Each stage starts from its loaded tables. Whether an input file exists is a boolean input of the ingestion model.
- Loading the tables into SQLite and the SQL engine itself. `SqlLayer` takes the database as a function from a statement to its result table.
- Random draws of `run_monte_carlo`. The sampled demand, cost and lead time are inputs, so only per-sample facts are proved and no distributional claim is made.
- numpy `percentile`, `std` and `polyfit`, and pandas `quantile`. VaR, the confidence bounds, the stock-ratio quartiles, the slope and the standard deviation are given reals. For the trend, the least-squares slope is computed exactly, and the standard deviation is related through its square.
- IEEE floating point, inf and NaN propagation. Numbers are exact reals and NaN is `None`.
- Scenarios.SimulateScenarioTotals: `round(x, 2)` of the reported figures is not modelled, so the exact values are stated.
- Forecast.FitModel: the initial alpha 0.3 and beta 0.1 before any candidate is scored are unreachable, because the first grid pair always replaces them. They are not modelled.
- pandas `sort_values` with its default quicksort is not stable. The model sorts stably, so the order of rows with equal keys is not captured.
- Date conversion (`to_datetime`), `strftime` of dim_date and the cleaning and ingestion stages' date parsing. Dates are day numbers. Calendar months (`resample("M")`) are given by a function from a day to its month.
- Star schema: the duplicate-date check of dim_date (`build_star_schema.py` lines 106-108) is not modelled. Ids are built over distinct dates, so it cannot fire.
- Decision brief: the SQLite financial figures, the date range, the timestamp and the floating-point formatting of sections 1-5 of the Markdown export are not modelled; section 5 takes each intervention's formatted figures as input. The regex parsing of the trend file (`read_trend_insights`) is not modelled; its up and down counts are inputs, and a missing count is not modelled.
- Time series: plots, the report text and the synthetic dates are not modelled. Each product's rows are taken in the given order, already sorted by product and date. An exact line of 70 or more points is classified stable, because its slope never exceeds 5% of its standard deviation. This follows from the threshold rule and is proved, not corrected.
- Dashboard: the SQL load, the Streamlit page, its filters and charts are not modelled. `prepare_time_charts` only applies the three transforms to copies of one frame. It is covered by `Dashboard.RollingAvgWindow`, `Dashboard.CumulativeRunningSum` and `MonthOverMonth.CalculateMomGrowth`.
- MonthOverMonth: the month-end `date` column of the resampled frame is represented by the month number, and its "YYYY-MM" label by `YearMonth`.
- pandas merge validation and `to_numeric` coercion. Inputs are taken as already numeric and keyed.
- Kpis.RunKpiLayer: the steps before the merge are not modelled. These are: keeping each product's latest-dated inventory-view row, the four `drop_duplicates` on product_id, summing each product's forecast rows, and the three left merges (kpi_definitions.py lines 209-293). The layer starts from the merged rows and the column names of each table.
- Risk.RunRiskSimulation: the forecast rows come already grouped by product. The column check is modelled on the given column names.

## Findings

| source | as written | input that shows it | evidently intended | confidence | as-written member | corrected member |
|---|---|---|---|---|---|---|
| dss_sales_inventory/analysis/sensitivity/sensitivity_analysis.py:244-247 | on an exception, the handler writes `original_values` back into `df[var]` even when `var` is not a column. The values it writes are the stale copy from the previous variable, so the missing variable becomes a column and its second ratio reports a row. Within this repository the bug is latent: `run_sensitivity_analysis` passes `get_candidate_variables(df_clean)` (sensitivity_analysis.py line 428), which returns only existing columns. The stale restore is reachable only when some other caller passes a variable that is not a column. | variables `["price", "discount"]` on a table that has a `price` column but no `discount` column | restore only a column that was actually perturbed, and leave the table's columns unchanged | not executed | Sensitivity.StaleRestoreAddsColumn | Sensitivity.Frame.RunOatAnalysis |
