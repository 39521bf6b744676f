# Dynamic agricultural monitoring: a verified model of the risk engine

This project models the core of a field-monitoring back end for crop fields. The back end builds a per-ISO-week NDVI/NDMI baseline for each field from past satellite imagery. When it builds the baseline, it leaves out fallow ("nadas") periods: runs of at least 8 consecutive low-NDVI weeks. It then scores the field's current state against that baseline with a rule-based risk engine and, when one is present, an optional classifier. The model covers the following parts:

- the baseline service:
  - fallow detection;
  - weekly mean and standard deviation with a sigma fallback and floor;
  - the z-score;
  - the least-squares trend over the last three values;
- the rule-based risk score:
  - its capped 0–100 total;
  - its three labels, Düşük/Orta/Yüksek (`Low`/`Medium`/`High`);
  - its ordered list of factors;
- the ten-entry feature vector for the classifier and the fusion of the two into a final level;
- what the imagery service does with the rows it fetched:
  - choosing the current observation;
  - stitching the baseline years together;
- the `/baseline` and `/risk` endpoints over their module-level baseline cache;
- the `/fields` registry.

Numbers are exact reals. Square root, sine, cosine and the feature-level deviation percentage are parameters (`Numeric.FloatOps`), with no properties assumed. A date is given as its (year, ISO week) pair, and a sequence's order is date order. Imperative parts of the source are Dafny methods with loops, proved equal to a specification function:

- fallow scanning;
- removing the fallow periods;
- building the baseline;
- accumulating the score;
- concatenating the years;
- listing the fields.

The properties that the source promises are proved as lemmas about those functions. Endpoints that mutate state are classes:

- `RiskRoutes.RiskService` holds the baseline cache. Its `mode` selects the emptiness check. `AsWritten` is the source as it stands: an empty baseline raises and is answered with 500, and so is a `/baseline` reply listing a fallow period, whose year cannot be encoded as JSON. `Intended` is the corrected behaviour, which answers 404 and 200 respectively (see Findings);
- `FieldRoutes.FieldRegistry` holds the field table.

Each of their methods is tied to a pure function of the old state.

Files:

- `wrappers.dfy`: `Option`.
- `numeric.dfy`: sums, means, sample variance and sorted sequences.
- `observations.dfy`: imagery rows, configuration constants and row filters.
- `fallow.dfy`: fallow periods.
- `baseline.dfy`: baseline building and the z-score.
- `trend.dfy`: the trend and its algebra.
- `risk_engine.dfy`: scoring, features and fusion.
- `imagery.dfy`: choosing the current row and concatenating the years.
- `risk_routes.dfy`: the `/baseline` and `/risk` endpoints.
- `field_routes.dfy`: the `/fields` endpoints.

## Model

| member | source | states |
|---|---|---|
| Observations.QualityFilter | backend/app/services/baseline_service.py:77 | keeps exactly the rows whose clear-pixel ratio is strictly above 0.5, and is empty iff no row is clear |
| Observations.QualityFilterCounts | backend/app/services/baseline_service.py:77 | each clear row keeps its multiplicity and every other row has none, as boolean indexing does |
| Observations.QualityFilterAppend | backend/app/services/baseline_service.py:77 | filtering a concatenation concatenates the filtered parts, so the rows kept stay in their order |
| Observations.InYearCounts | backend/app/services/baseline_service.py:37 | the rows of one year keep their multiplicity; rows of other years have none |
| Observations.InYearAppend | backend/app/services/baseline_service.py:37 | selecting a year distributes over concatenation, keeping row order |
| Observations.AtWeekCounts | backend/app/services/baseline_service.py:103-113 | the rows of one week keep their multiplicity; rows of other weeks have none |
| Observations.AtWeekAppend | backend/app/services/baseline_service.py:103-113 | selecting a week distributes over concatenation, keeping row order |
| Observations.DistinctYears | backend/app/services/baseline_service.py:36 | the distinct years present, strictly ascending, as a groupby over years visits them |
| Observations.DistinctWeeks | backend/app/services/baseline_service.py:103 | the distinct weeks present, strictly ascending, as the weekly groupby emits them |
| Observations.YearsInOrder | backend/app/services/baseline_service.py:127 | the distinct years of the contributing rows, without duplicates, in first-appearance order (`unique()`): a row of each listed year comes before every row of each later-listed year |
| Fallow.WeeksOfYear | backend/app/services/baseline_service.py:36-38 | the weeks with data in one year, strictly ascending, and exactly those |
| Fallow.LowFlags | backend/app/services/baseline_service.py:38-40 | one flag per week with data: the week's mean NDVI is below the threshold |
| Fallow.RunEnd | backend/app/services/baseline_service.py:45-54 | the end of the run of low weeks starting at a position: all weeks up to it are low, and the week at it is not |
| Fallow.DetectFallowPeriods | backend/app/services/baseline_service.py:16-56 | the per-year scan loop returns exactly `FallowPeriods` of the series |
| Fallow.ScanYear | backend/app/services/baseline_service.py:43-54 | the inner loop over one year's week flags returns the runs `RunsFrom` describes |
| Fallow.RunsFromSound | backend/app/services/baseline_service.py:45-54 | every period reported for a year is a maximal run of low weeks of at least the minimum length |
| Fallow.RunsFromComplete | backend/app/services/baseline_service.py:45-54 | every maximal run of low weeks of at least the minimum length is reported |
| Fallow.FallowPeriodIffMaximalRun | backend/app/services/baseline_service.py:16-56 | a period is detected iff it is a maximal run of consecutive below-threshold weeks of length at least the minimum in its year (both directions) |
| Fallow.FallowPeriodWellFormed | backend/app/services/baseline_service.py:47-52 | a detected period has start <= end, a duration of at least the minimum and at most end - start + 1, and its start week has data in that year |
| Fallow.FallowPeriodsOrdered | backend/app/services/baseline_service.py:32-54 | periods come out ordered by year, then by week within a year, without overlap |
| Fallow.YearWithoutDataHasNoPeriods | backend/app/services/baseline_service.py:36-38 | a year without rows contributes no period |
| Fallow.FallowOfYearsMembership | backend/app/services/baseline_service.py:36-54 | a period is reported iff its year is among the years scanned and its year's scan reports it |
| Baseline.DropPeriod | backend/app/services/baseline_service.py:91-97 | removing one period's mask keeps exactly the rows outside that year and week range |
| Baseline.ExcludeFallow | backend/app/services/baseline_service.py:86-97 | keeps exactly the rows in no detected period; it is empty iff every row is in one, and it is strictly shorter when some row is in one |
| Baseline.DropPeriodCounts | backend/app/services/baseline_service.py:91-97 | a row inside the period's mask has no copy left; every other row keeps its multiplicity |
| Baseline.DropPeriodAppend | backend/app/services/baseline_service.py:91-97 | dropping a period distributes over concatenation, keeping row order |
| Baseline.ExcludeFallowCounts | backend/app/services/baseline_service.py:86-97 | a row in any detected period has no copy left; every other row keeps its multiplicity |
| Baseline.ExcludeFallowAppend | backend/app/services/baseline_service.py:86-97 | excluding the periods distributes over concatenation, keeping row order |
| Baseline.DropPeriods | backend/app/services/baseline_service.py:91-97 | the mask loop computes `ExcludeFallow` |
| Baseline.Sigma | backend/app/services/baseline_service.py:106-121 | a weekly sigma is at least the floor 0.03, and a single-sample week gets the fallback 0.05 |
| Baseline.WeekRow | backend/app/services/baseline_service.py:103-121 | a row carries its week, its sample count, the mean NDVI and NDMI of that week's rows, and sigmas that are 0.05 for one sample and max(sample std, 0.03) from two samples on |
| Baseline.WeeklyRows | backend/app/services/baseline_service.py:103-121 | one row per distinct week, in ascending week order, each being that week's `WeekRow`: its count, its NDVI and NDMI means, and floored sigmas |
| Baseline.CalculateBaseline | backend/app/services/baseline_service.py:59-131 | the imperative builder returns exactly `BaselineFor`: nothing for empty, all-cloudy or all-fallow data, else the weekly table |
| Baseline.BaselineEmptyIff | backend/app/services/baseline_service.py:73-100 | no baseline iff there is no data, no row is clear, or every clear row lies in an excluded period |
| Baseline.ContributingRows | backend/app/services/baseline_service.py:77-97 | the rows used are exactly the clear rows outside excluded periods; without exclusion they are the clear rows |
| Baseline.ExclusionShrinksSamples | backend/app/services/baseline_service.py:86-97 | excluding fallow never adds samples and, when any period is found, strictly removes some |
| Baseline.WeeklyCountsSumToRows | backend/app/services/baseline_service.py:103-113 | the weekly sample counts add up to the number of rows grouped |
| Baseline.BaselineRowsPartitionSamples | backend/app/services/baseline_service.py:103-129 | a built baseline has rows; their weeks are strictly ascending and exactly the weeks of the used rows; counts add up to `total_samples`, which equals the rows used; `years_used` has no duplicates and is exactly the years of the used rows |
| Baseline.BaselineRowStatistics | backend/app/services/baseline_service.py:103-121 | every row of a built baseline holds, for its week, the mean NDVI and NDMI of the contributing rows of that week, and from two samples on the sigmas max(sample std, 0.03) |
| Baseline.BaselineSigmaFloor | backend/app/services/baseline_service.py:116-121 | every row of a built baseline has sigmas of at least 0.03, and 0.05 when it has a single sample |
| Baseline.FindWeek | backend/app/services/baseline_service.py:147-150 | none iff no row has the requested week; otherwise a row of that week with no row of that week before it (`.values[0]`) |
| Baseline.ZScore | backend/app/services/baseline_service.py:134-160 | none iff the week is missing or its sigma is 0; otherwise z·sigma = value − mu |
| Baseline.ZScoreLocal | backend/app/services/baseline_service.py:147 | the z-score depends only on the rows of the requested week |
| Baseline.ZScoreOnBuiltBaseline | backend/app/services/baseline_service.py:103-160 | on a built baseline a z-score exists iff some contributing row falls in that week |
| Trend.CalculateTrend | backend/app/services/baseline_service.py:163-206 | fewer than `window` values give no direction with slope and confidence 0; otherwise the slope and the confidence are `Slope` and `RSquared` of the last `window` values, the direction is Decreasing/Increasing/Stable exactly as the slope is below −0.03, above 0.03, or within the band, and the confidence lies in [0, 1] |
| Trend.SlopeSolvesNormalEquations | backend/app/services/baseline_service.py:184-188 | `np.polyfit(x, y, 1)`: the slope, with the intercept ȳ − b·x̄, leaves residuals that sum to zero and are orthogonal to the positions (the least-squares normal equations) |
| Trend.NormalEquationsDetermineSlope | backend/app/services/baseline_service.py:184-188 | over two or more positions any line whose residuals satisfy the normal equations has exactly that slope |
| Trend.TrendIsLeastSquaresFit | backend/app/services/baseline_service.py:181-188 | the trend's slope solves the normal equations of the window, and no other slope does |
| Trend.DotCombination | backend/app/services/baseline_service.py:199-200 | the squared norm of p·a − q·b expanded in terms of a·a, b·b and a·b |
| Trend.CauchySchwarz | backend/app/services/baseline_service.py:199-200 | (a·b)² ≤ (a·a)(b·b), the fact behind a correlation coefficient of at most 1 |
| Trend.RSquaredBounds | backend/app/services/baseline_service.py:199-200 | the squared correlation of positions and values is in [0, 1], constant series included |
| Trend.TrendAffine | backend/app/services/baseline_service.py:188-200 | shifting and scaling the values by a + b·y scales the cross moment, the spread and the slope by b |
| Trend.LinearWindow | backend/app/services/baseline_service.py:188-200 | on values on an exact line the fitted slope is the line's slope, with confidence 1, or 0 when the line is flat |
| Trend.OnlyTheWindowMatters | backend/app/services/baseline_service.py:181 | values older than the last `window` do not affect the trend |
| Trend.TrendShiftInvariant | backend/app/services/baseline_service.py:188-200 | adding a constant to every value leaves slope, direction and confidence unchanged |
| Trend.LinearTrend | backend/app/services/baseline_service.py:181-200 | a window on a line of slope b reports slope b, confidence 1 (0 if flat) and the direction of b relative to the ±0.03 band |
| Trend.BandEdgeIsStable | backend/app/services/baseline_service.py:191-196 | 0.50, 0.47, 0.44 has slope exactly −0.03 and is Stable, since the band's edges are inclusive |
| RiskEngine.Cap | backend/app/services/ml_service.py:146 | `min(score, 100)`: at most 100, and the raw score whenever it is at most 100 |
| RiskEngine.AccumulateScore | backend/app/services/ml_service.py:103-162 | the rule-by-rule accumulation, clamp and labelling compute `Assess` |
| RiskEngine.CalculateRuleBasedRisk | backend/app/services/ml_service.py:89-162 | returns `RuleRisk` (z-score of the current NDVI for the week, trend over the series), with a score of at most 100, and no factor iff score 0 |
| RiskEngine.ScoreIsWeightOfFactors | backend/app/services/ml_service.py:103-146 | the raw score is the sum of the points of the listed factors, and the score is its cap |
| RiskEngine.ScoreBounds | backend/app/services/ml_service.py:103-146 | the raw score never exceeds 40+30+25+15 = 110 and the reported score lies in [0, 100] |
| RiskEngine.FactorsEmptyIffZeroScore | backend/app/services/ml_service.py:103-146 | the factor list is empty iff the score is 0 |
| RiskEngine.FactorsInRuleOrder | backend/app/services/ml_service.py:106-143 | at most one factor per rule, listed in the order NDVI, deviation, decline, water stress |
| RiskEngine.NdviTier | backend/app/services/ml_service.py:106-111 | the critical-NDVI factor appears iff NDVI < 0.20, and the low-NDVI factor iff 0.20 ≤ NDVI < 0.30 |
| RiskEngine.DeviationTier | backend/app/services/ml_service.py:114-127 | without a z-score no deviation factor; otherwise severe iff \|z\| > 3, marked iff 2 < \|z\| ≤ 3, slight iff 1.5 < \|z\| ≤ 2 |
| RiskEngine.DeclineTier | backend/app/services/ml_service.py:130-138 | the rapid-decline factor appears iff the trend decreases with slope < −0.05, and the decline factor iff it decreases with slope ≥ −0.05 |
| RiskEngine.WaterStressTier | backend/app/services/ml_service.py:141-143 | the water-stress factor appears iff NDMI < −0.2 |
| RiskEngine.LevelMonotone | backend/app/services/ml_service.py:149-154 | a higher score never gets a lower label |
| RiskEngine.ScoreMonotoneInZ | backend/app/services/ml_service.py:114-127 | a larger \|z\| never lowers the score or the label, and a missing z-score scores lowest |
| RiskEngine.CapMatters | backend/app/services/ml_service.py:146 | NDVI 0.10, NDMI −0.30, z 4 and a rapid decline reach a raw 110, reported as 100, High |
| RiskEngine.BoundaryNdviScenario | backend/app/services/ml_service.py:106-127 | NDVI 0.20 in a week whose baseline is mu 0.45, sigma 0.03 scores 25 + 30 = 55, Medium, as low NDVI (0.20 is not below 0.20) plus a severe deviation |
| RiskEngine.PrepareFeatures | backend/app/services/ml_service.py:25-86 | each of the ten features pinned, in order: current NDVI and NDMI, the NDVI and NDMI z-scores (0 when there is none, the `or 0`), \|NDVI z\|, the deviation of the current NDVI from the week's mean, the trend slope, the week's sine and cosine, and the clear ratio (0.8 when absent); without a baseline row for the week both z-scores, \|z\| and the deviation are 0 |
| RiskEngine.ZeroSigmaFeatures | backend/app/services/ml_service.py:43-48 | a week whose baseline row has NDVI sigma 0 gets a zero z-score feature and a zero absolute z-score |
| RiskEngine.RiskLabel | backend/app/services/ml_service.py:22 | classes 0, 1, 2 map to Low, Medium, High, and no other class has a label |
| RiskEngine.MlPredict | backend/app/services/ml_service.py:190-213 | no model, or a model whose scaling or prediction fails, gives no prediction; a prediction's level is the label of its class |
| RiskEngine.PredictRisk | backend/app/services/ml_service.py:176-220 | the report carries the rule-based assessment; the final level is the classifier's when it predicted, the rules' otherwise |
| RiskEngine.FallbackToRules | backend/app/services/ml_service.py:190-218 | without a model, or when scaling or prediction fails, the final level is the rule-based level |
| RiskEngine.ModelDecides | backend/app/services/ml_service.py:199-218 | when the model predicts a class in 0..2, that class decides the final level |
| Imagery.BestClearIndex | backend/app/services/gee_service.py:146-152 | none iff no row is clear; otherwise the first clear row with the largest clear ratio |
| Imagery.LeastCloudIndex | backend/app/services/gee_service.py:148-150 | the first row with the smallest cloud percentage |
| Imagery.CurrentStatus | backend/app/services/gee_service.py:133-154 | nothing iff the last month is empty; otherwise a row of the series that is the clearest clear row, or, if none is clear, the least cloudy row |
| Imagery.TagYear | backend/app/services/gee_service.py:172-176 | every row of one year's fetch is labelled with that year, order and count kept |
| Imagery.GetBaselineData | backend/app/services/gee_service.py:157-183 | the year loop returns the tagged rows of each year in order, defaulting to 2021, 2022, 2023 |
| Imagery.ConcatYearsMembership | backend/app/services/gee_service.py:168-183 | a row is in the result iff it is the tagged copy of a row fetched for one of the years |
| Imagery.ConcatYearsEmpty | backend/app/services/gee_service.py:168-181 | the result is empty iff every year's fetch is empty |
| Imagery.ConcatYearsTagged | backend/app/services/gee_service.py:168-183 | every row of the result carries one of the requested years |
| RiskRoutes.CurrentOf | backend/app/routes/risk.py:85-113 | the risk engine reads the current row's NDVI, NDMI and clear ratio |
| RiskRoutes.BaselineCheckAsWritten | backend/app/routes/risk.py:39 | as written, the check raises exactly on an empty baseline (an empty DataFrame has no truth value) |
| RiskRoutes.BaselineCheck | backend/app/routes/risk.py:39-43 | as intended, the check passes exactly a baseline with rows and never raises |
| RiskRoutes.CheckDiscrepancy | backend/app/routes/risk.py:39-43 | the written and intended checks differ exactly on the empty baseline: 500 instead of 404 |
| RiskRoutes.EmptyImageryRaisesAsWritten | backend/app/routes/risk.py:37-43 | a location with no imagery rows gets no baseline, which the written check turns into a raise and the intended one into a 404 |
| RiskRoutes.ComputedBaselinePasses | backend/app/routes/risk.py:37-43 | every baseline the service builds has rows, so both checks pass it |
| RiskRoutes.RiskService.constructor | backend/app/routes/risk.py:11 | the cache starts empty, under the chosen check mode |
| RiskRoutes.RiskService.PostBaseline | backend/app/routes/risk.py:14-58 | the reply and the new cache are those of `BaselineEndpoint` on the old cache under the service's mode: 400, then 500 (as written) or 404 (as intended) for an empty baseline, else a cache write when a field id is given, followed by 200, or, as written, by 500 when a fallow period was detected |
| RiskRoutes.RiskService.PostRisk | backend/app/routes/risk.py:61-125 | the reply and the new cache are those of `RiskEndpoint` on the old cache under the service's mode: 400, 404 without a current row, the cached or fresh baseline (cached on a miss before its check), 500 (as written) or 404 (as intended) for an empty one, else 200 with the risk report |
| RiskRoutes.BaselineModesDiffer | backend/app/routes/risk.py:37-58 | for `/baseline` the source and its correction leave the same cache and give the same reply, except exactly where the source answers 500; there the correction answers 404 for an empty baseline and 200 with the baseline for one with a detected fallow period |
| RiskRoutes.RiskModesDiffer | backend/app/routes/risk.py:94-125 | the same for `/risk`: same cache, same reply, except exactly the source's 500, which the correction answers with 404 |
| RiskRoutes.MissingCoordinates | backend/app/routes/risk.py:30-34 | without coordinates both endpoints answer 400 and leave the cache alone |
| RiskRoutes.BaselineWritesWhenBuilt | backend/app/routes/risk.py:37-58 | the cache changes only when coordinates are given, a baseline was built and a field id is given, and then stores exactly that baseline; the answer is 200 with it iff it was built and its reply encodes, which as written fails (500) when it lists a fallow period; an empty baseline answers 500 as written, 404 as intended |
| RiskRoutes.DetectedPeriodRaisesAsWritten | backend/app/routes/risk.py:45-58 | a built baseline that lists a fallow period is cached, then answered with 500 as written and with 200 and the baseline as intended |
| RiskRoutes.NoCurrentObservation | backend/app/routes/risk.py:85-91 | with no row in the last month `/risk` answers 404 and leaves the cache alone |
| RiskRoutes.RiskCacheHit | backend/app/routes/risk.py:94-95 | on a cache hit the cached baseline is used, the cache stays as it was, and the answer is 200 iff that baseline passes the check |
| RiskRoutes.RiskCacheMiss | backend/app/routes/risk.py:96-105 | on a miss with a field id the freshly computed baseline is cached before the check, an empty one included, which then answers 500 as written (404 as intended) |
| RiskRoutes.RiskUsesRawSeries | backend/app/routes/risk.py:85-113 | a 200 reports the current row chosen from the last month, and a trend over the same month's rows, clear or not |
| FieldRoutes.NatToString | backend/app/routes/fields.py:30 | `str(n)`: decimal digits without a leading zero whose value is n |
| FieldRoutes.NatToStringInjective | backend/app/routes/fields.py:30 | two counts give the same id iff they are equal |
| FieldRoutes.NextId | backend/app/routes/fields.py:30 | the new id denotes the number of stored records plus one |
| FieldRoutes.NewField | backend/app/routes/fields.py:32-38 | the new record carries the id, the coordinates as sent (a JSON null included) and `created_at`, has no baseline yet, and carries the name as sent (null included), or "Tarla <id>" when the key is absent |
| FieldRoutes.Without | backend/app/routes/fields.py:72 | removing a key from the insertion order keeps exactly the other keys |
| FieldRoutes.WithoutKeepsDistinct | backend/app/routes/fields.py:72 | removing a key keeps the listed keys distinct |
| FieldRoutes.FieldRegistry.constructor | backend/app/routes/fields.py:7 | the registry starts empty |
| FieldRoutes.FieldRegistry.ListFields | backend/app/routes/fields.py:10-16 | the records in insertion order, exactly the stored ones |
| FieldRoutes.FieldRegistry.CreateField | backend/app/routes/fields.py:19-45 | 400 with no change without a body or without a `coordinates` key; otherwise (a null value included) 201 and the record stored under `str(len + 1)`, overwriting any record with that id |
| FieldRoutes.FieldRegistry.GetField | backend/app/routes/fields.py:48-60 | 200 with the stored record for a known id, 404 otherwise |
| FieldRoutes.FieldRegistry.DeleteField | backend/app/routes/fields.py:63-77 | 404 with no change for an unknown id; otherwise 200, and exactly that record leaves the table and the order |
| FieldRoutes.IdReuseAfterDelete | backend/app/routes/fields.py:30 | after creating "1" and "2" and deleting "1", the next id is "2" again, which is still live |

## Left out

- Fetching satellite imagery and computing its per-image statistics are not modelled. This covers the geometry, the cloud mask, the index formulas and the scene filters. `get_timeseries` is a parameter that returns date-sorted rows.
- Floating point is not modelled. Numbers are exact reals, and NaN handling (`fillna`, `pd.isna`, `np.isnan`) appears only where it decides a branch.
- Square root, sine, cosine and the baseline's deviation percentage are uninterpreted parameters (`FloatOps`).
- The classifier's internals are a parameter: the scaler and the scikit-learn model. A failure inside the `try` of `predict_risk` is modelled as "no prediction": scaling, prediction or the label lookup.
- Loading the model with `pickle` happens before that `try`. A model file that exists but cannot be read or unpickled therefore raises out of `predict_risk`, and `/risk` answers 500. This load failure is not modelled. A classifier is either absent or loaded.
- The clock is not modelled. The current ISO week is a parameter shared by the rule-based score and the features, and the report's timestamp is left out.
- `/risk` fetches the last 30 days twice. The model has both fetches return the same rows.
- Missing coordinates and an empty coordinate list both reach the same 400 branch and are both the empty sequence.
- A request without a JSON body fails before the handlers' `try` blocks. This is left out.
- Exceptions raised by the imagery service, which become 500 responses, are left out. The two exceptions the routes raise themselves are modelled: `AsWritten` mode answers 500 for an empty baseline and for a `/baseline` reply listing a fallow period (see Findings).
- JSON values of the wrong type in a `/fields` body are left out, for example a number as the name. Absent keys and null values are modelled.
- Trend.CalculateTrend: with a window of one value, the least-squares slope is taken as 0. That is the minimum-norm solution of the fit, which numpy returns only up to rounding.
- One `year` field stands for two source columns: the year a row was fetched for (`df['year'] = int(year)`, backend/app/services/gee_service.py:172-176) and the calendar year of its date (backend/app/services/baseline_service.py:29, 93, 127). They agree because each yearly fetch is bounded by that year's dates; the model assumes they agree.
- The model training script, the analysis routes, the application factory and the front end are not part of this model.

## Findings

| source | as written | input that shows it | evidently intended | confidence | as-written member | corrected member |
|---|---|---|---|---|---|---|
| backend/app/routes/risk.py:39 and backend/app/routes/risk.py:101 | `not baseline` is evaluated on the empty DataFrame that `calculate_baseline` returns when it has no data, and pandas raises on that, so the handler answers 500 | coordinates for which the imagery has no row in 2021–2023 (or only cloudy or fallow rows) | answer 404 "not enough data" | not executed | RiskRoutes.BaselineCheckAsWritten, RiskRoutes.EmptyImageryRaisesAsWritten, RiskRoutes.RiskCacheMiss | RiskRoutes.BaselineCheck, RiskRoutes.BaselineModesDiffer, RiskRoutes.RiskModesDiffer |
| backend/app/services/baseline_service.py:50 and backend/app/routes/risk.py:49 | a fallow period's `year` is the numpy integer taken from `weekly['year'].unique()`; `jsonify` cannot encode it, so `/baseline` raises after writing the cache and answers 500 | coordinates whose clear rows in a baseline year have at least 8 consecutive weeks of mean NDVI below 0.15, plus one clear row outside them | answer 200 with the baseline, the period's year as a plain integer | not executed | RiskRoutes.DetectedPeriodRaisesAsWritten, RiskRoutes.BaselineWritesWhenBuilt | RiskRoutes.BaselineModesDiffer |
