# AutoRootCauseX aggregation layer in Dafny

AutoRootCauseX groups vehicle complaint records (NHTSA-style rows with an
ODI number, a free-text summary, a failure date, a state, a VIN and an
optional severity) into clusters of similar complaints. It then reports
KPIs over those clusters. This project models the deterministic part of
that pipeline:

- **Clustering stage** (`label_complaint_clusters`). It writes each
  complaint's cluster label and its first two reduced coordinates into the
  table. It also builds the per-cluster summary: the first three summaries
  joined with `" | "`, and the count of ODI numbers. The sentence embedder
  and UMAP/HDBSCAN are passed in as functions, and the model states only
  what their output must look like.
- **Scalar KPI engine** (`calculate_advanced_kpis`). It computes:
  - Root Cause Density Index;
  - Repeating Complaint Ratio;
  - Mean Time to Root Cause;
  - Geo-Failure Spread Index;
  - VIN Concentration Score.
- **Per-cluster KPIs**:
  - `failure_trend_velocity`: the least-squares slope of monthly counts;
  - `recurrence_density`;
  - `geo_risk_scoring`: per (cluster, state) pair;
  - `severity_weighted_impact`.

The DataFrame is a `Frames.Frame` object holding a `Table`. A table is the
set of columns it has, plus its rows. A stage that writes into the frame is
a method that `modifies` it. Each method is proved equal to a
specification function of the old table, and the properties are proved
about those functions. Reading a column the table lacks gives
`Err(MissingColumn(c))`, which models pandas' `KeyError`. The error comes at
the point the source first touches that column. Any column writes made
before that point stay in the frame.

Modules:

| module | file | models |
|---|---|---|
| `Wrappers` | `wrappers.dfy` | `Option` (a NaN/NaT cell) and `Result` |
| `Grouping` | `grouping.dfy` | the pandas building blocks: `unique`, group selection, `dropna`, `sum`, `duplicated`, `min`/`max`, sorted group keys, with partition lemmas |
| `Frames` | `frames.dfy` | columns, records, tables, the mutable frame, date coercion |
| `Regression` | `regression.dfy` | the one-feature OLS slope, exact over the reals |
| `KpiGenerator` | `kpi_generator.dfy` | `calculate_advanced_kpis` |
| `AdvancedKpis` | `advanced_kpis.dfy` | the four per-cluster KPIs |
| `Clustering` | `clustering.dfy` | `label_complaint_clusters` |

In these places the code behaves differently from what its names and
comments suggest; the model follows the code:

- **Mean Time to Root Cause.** A cluster with no valid date has a NaN delta,
  and `mean()` skips NaN, so the cluster does not contribute 0. The KPI is
  NaN when no row has a valid date. A cluster with a single valid date does
  contribute 0 (`KpiGenerator.ClusterDelta`).
- **Cluster summary.** `NumComplaints` counts the rows with a non-missing
  ODI number. Its total equals the number of records only when no ODI
  number is missing (`Clustering.NumComplaintsTotal`).
- **Geo risk.** `groupby([Cluster, State])` drops rows without a state. A
  cluster's pair counts therefore add up to its rows that have a state
  (`AdvancedKpis.PairCountsSumToCluster`).
- **Trend velocity.** `failure_trend_velocity` parses dates without
  `errors='coerce'`. Unparsable text raises an error
  (`Err(UnparsableDate)`) instead of being dropped.
- **Recurrence density.** A population of 0 on a non-empty table divides a
  Python `int` by zero (`Err(DivisionByZero)`).
- **Registrations.** `grouped.items()` yields Python `int` counts. A
  state listed with 0 registrations therefore makes `count / reg` raise
  `ZeroDivisionError` (`Err(DivisionByZero)`, `AdvancedKpis.ZeroRegistrationRaises`);
  it does not give `inf`.

## Model

| member | source | states |
|---|---|---|
| `Frames.CoerceDates` | utils/kpi_generator.py:20 | coercion keeps every row and every valid date, turns unparsable text into NaT and changes nothing else in a row |
| `Grouping.Distinct` | utils/kpi_generator.py:12 | `unique()` has no repeats and has exactly the values of the column, so it is never longer than the column |
| `Grouping.Members` | kpi/advanced_kpis.py:10 | the boolean-mask selection `df[df[key] == k]` holds exactly the rows whose key is k, and is never longer than the table |
| `Grouping.Present` | utils/kpi_generator.py:21-23 | `dropna()` is never longer than the column, is empty exactly when every cell is missing, and contains every non-missing value (`PresentHas`) and no other value (`PresentOnly`) |
| `Grouping.PresentOnly` | utils/kpi_generator.py:21-23 | every value left after `dropna()` is the cell of some row of the column |
| `Grouping.Keys` | utils/kpi_generator.py:12 | selecting a column gives one cell per row, index-aligned with the rows, so every row's cell is in it |
| `Grouping.Count` | kpi/advanced_kpis.py:11 | the number of occurrences of a value is at most the length of the column, and is positive exactly when the value occurs |
| `Grouping.Tabulate` | kpi/advanced_kpis.py:39-41 | a dictionary filled key by key, as the geo-risk loop and the trend loop (kpi/advanced_kpis.py:9-23) fill theirs, has exactly those keys, each mapped to its own computed value |
| `Grouping.Weight` | kpi/advanced_kpis.py:49 | a column's `sum()` is non-negative when every cell is; `WeightAppend` and `PartitionWeight` relate it to its parts and to its groups |
| `Grouping.MaxOf` | utils/kpi_generator.py:21 | the `max` of a non-empty column is one of its values and no value exceeds it |
| `Grouping.MinOf` | utils/kpi_generator.py:21 | the `min` of a non-empty column is one of its values and no value is below it |
| `Frames.IsEmpty` | utils/kpi_generator.py:5 | `df.empty`: the table has no rows or no columns; `AdvancedKpis` and `Annotate` return early exactly when it holds or a needed column is missing |
| `Grouping.SortedKeys` | nlp/clustering.py:34 | the group keys are strictly ascending and are exactly the values of the column |
| `Grouping.DuplicatesAndDistinct` | utils/kpi_generator.py:16 | the rows that repeat an earlier value plus the distinct values make up all the rows |
| `Grouping.DuplicateCount` | utils/kpi_generator.py:16 | `duplicated().sum()` is below the row count for a non-empty column, since the first row is never a duplicate; `DuplicatesAndDistinct` and `NoDuplicateCount` characterise it |
| `Grouping.NoDuplicateCount` | utils/kpi_generator.py:16 | no row is flagged by `duplicated()` exactly when the column has no repeated value |
| `Grouping.DuplicateCountExample` | utils/kpi_generator.py:16 | A, A, A, B, C, D, E, F, G, H has exactly two duplicated rows |
| `Grouping.KeySumAppend` | kpi/advanced_kpis.py:49 | appending a row adds its weight to the total of exactly one group, its own, when its key is listed |
| `Grouping.PartitionWeight` | kpi/advanced_kpis.py:49 | when the group keys list every row's key once, the group totals of a column add up to the column's total |
| `Grouping.PartitionCount` | kpi/advanced_kpis.py:28 | under the same condition, the group sizes add up to the number of rows |
| `KpiGenerator.ClusterCount` | utils/kpi_generator.py:12 | `nunique()` of the cluster column is at most the row count, and is 0 only for an empty table |
| `KpiGenerator.Rcdi` | utils/kpi_generator.py:11-13 | RCDI lies between 1 and the row count; it equals the row count exactly when there is one cluster, and 1 exactly when every complaint is its own cluster |
| `KpiGenerator.RcdiPerCluster` | utils/kpi_generator.py:11-13 | RCDI times the number of clusters gives back the number of complaints |
| `KpiGenerator.RcdiExample` | utils/kpi_generator.py:11-13 | twelve complaints in three clusters give an RCDI of 4 |
| `KpiGenerator.QuotientBounds` | utils/kpi_generator.py:13 | n / k lies in [1, n] for 1 <= k <= n, with the two ends reached exactly at k = 1 and k = n |
| `KpiGenerator.RepeatRatio` | utils/kpi_generator.py:16-17 | the repeating ratio is a percentage below 100, and is 0 exactly when no two complaints share a summary |
| `KpiGenerator.RepeatRatioExample` | utils/kpi_generator.py:16-17 | ten complaints summarised A, A, A, B, ..., H give a 20% repeating ratio |
| `KpiGenerator.Span` | utils/kpi_generator.py:21-22 | `max - min` is the greatest difference between two of the days, and two days attain it |
| `KpiGenerator.ClusterDelta` | utils/kpi_generator.py:21-22 | a cluster's delta is NaN exactly when it has no valid date, is never negative, and is 0 for a single valid date |
| `KpiGenerator.DeltaAttained` | utils/kpi_generator.py:21-22 | a cluster's delta is the difference between the valid dates of two complaints of that cluster |
| `KpiGenerator.DeltaExample` | utils/kpi_generator.py:21-22 | a cluster whose valid dates are 30 days apart has delta 30 |
| `KpiGenerator.DatedClusters` | utils/kpi_generator.py:23 | no cluster counts towards the mean exactly when none of them has a valid date |
| `KpiGenerator.Mttr` | utils/kpi_generator.py:19-23 | MTTR is NaN exactly when no complaint has a valid date, and is otherwise non-negative; its value is pinned down by `MttrTimesDated`, `MttrBetween` and `MttrOfOneCluster` |
| `KpiGenerator.Average` | utils/kpi_generator.py:23 | `mean()` of k values adding up to t is non-negative; `AverageTimes` states that times k it gives back t |
| `KpiGenerator.AverageTimes` | utils/kpi_generator.py:23 | the mean of k values adding up to t, times k, gives back t |
| `KpiGenerator.MttrTimesDated` | utils/kpi_generator.py:21-23 | MTTR is the mean of the deltas of the clusters that have a valid date: times their number it gives their total |
| `KpiGenerator.MttrBetween` | utils/kpi_generator.py:21-23 | any bounds that hold for every defined cluster delta hold for MTTR, so MTTR lies between the smallest and the largest cluster delta |
| `KpiGenerator.MttrOfOneCluster` | utils/kpi_generator.py:19-23 | when every complaint is in one cluster and some date is valid, MTTR is that cluster's delta |
| `KpiGenerator.AllInCluster` | utils/kpi_generator.py:21 | when every complaint carries one label, that label's group is the whole table |
| `KpiGenerator.OneLabel` | utils/kpi_generator.py:12 | when every complaint of a non-empty table carries one label, `unique()` of the cluster column is that label alone |
| `KpiGenerator.NoneInClusters` | utils/kpi_generator.py:21 | a column is empty in every cluster exactly when it is empty in every row |
| `KpiGenerator.DistinctTotal` | utils/kpi_generator.py:26 | the per-cluster distinct counts add up to at most the number of rows |
| `KpiGenerator.DistinctAtMostRows` | utils/kpi_generator.py:26 | a cluster has no more distinct values than rows, and none exactly when the column is empty there |
| `KpiGenerator.DistinctTotalZero` | utils/kpi_generator.py:26 | the distinct counts add up to 0 exactly when the column is empty in every cluster |
| `KpiGenerator.MeanDistinct` | utils/kpi_generator.py:26 | the mean distinct count per cluster lies between 0 and RCDI, and is 0 exactly when the column is empty; its value is pinned down by `MeanDistinctTimesClusters`, `MeanDistinctBetween` and `SpreadOfOneCluster` |
| `KpiGenerator.MeanDistinctTimesClusters` | utils/kpi_generator.py:26 | the score is the mean, over every cluster, of the cluster's distinct count: times the number of clusters it gives their total |
| `KpiGenerator.MeanDistinctBetween` | utils/kpi_generator.py:26 | any bounds that hold for every cluster's distinct count hold for the score, so it lies between the smallest and the largest of them |
| `KpiGenerator.SpreadOfOneCluster` | utils/kpi_generator.py:26 | with a single cluster, the score is the column's number of distinct non-missing values |
| `KpiGenerator.CoerceKeepsLabels` | utils/kpi_generator.py:11-20 | coercing the dates leaves the cluster labels, and so RCDI, unchanged |
| `KpiGenerator.ScoresAtMostRcdi` | utils/kpi_generator.py:11-30 | the spread and VIN scores, computed after the coercion, lie between 0 and the RCDI computed before it |
| `KpiGenerator.FirstMissing` | utils/kpi_generator.py:16-30 | an absent required column such that every column before it, in the order Summary, FailureDate, State, VIN, is present; none exactly when all four are present |
| `KpiGenerator.KpiValues` | utils/kpi_generator.py:8-33 | every non-empty table gets exactly the five KPI keys |
| `KpiGenerator.AdvancedKpis` | utils/kpi_generator.py:4-33 | an empty table, or one without clusters, gives `{}`; otherwise the call fails exactly when a required column is missing, naming the first one; and succeeds with the five KPIs |
| `KpiGenerator.CalculateAdvancedKpis` | utils/kpi_generator.py:4-33 | the method returns `AdvancedKpis` of the old table, and leaves the date column coerced exactly when the table passes the guard and has both the summary and the date column, whatever happens after that |
| `KpiGenerator.DatedKpis` | utils/kpi_generator.py:20-33 | after the coercion, the result is `AdvancedKpis` of the old table |
| `KpiGenerator.AfterCoercion` | utils/kpi_generator.py:20-33 | once the summary and date columns are present, the call raises the `State` KeyError, then the VIN KeyError, or returns the dictionary filled key by key |
| `Regression.SumOfDivided` | kpi/advanced_kpis.py:29 | dividing every term by p divides the sum by p |
| `Regression.SxxPositive` | kpi/advanced_kpis.py:21 | two different x values make the squared deviations add up to a positive number |
| `Regression.Slope` | kpi/advanced_kpis.py:21-22 | the fitted slope solves the normal equation slope * Sxx == Sxy, and is 0 when every x is the same |
| `Regression.SlopeOfLine` | kpi/advanced_kpis.py:21-22 | points exactly on y = a + b x, with two different x, have fitted slope b |
| `Regression.SlopeOfConstant` | kpi/advanced_kpis.py:21-22 | equal y values have fitted slope 0 |
| `AdvancedKpis.MonthAxis` | kpi/advanced_kpis.py:6-11 | each month with a valid date, once, and no other month |
| `AdvancedKpis.MonthlyCounts` | kpi/advanced_kpis.py:11 | one count per month of the axis, and each is the number of complaints in that month |
| `AdvancedKpis.ClusterTrend` | kpi/advanced_kpis.py:17-19 | a cluster with fewer than two months has trend 0 |
| `AdvancedKpis.TrendOfLinearCounts` | kpi/advanced_kpis.py:13-23 | monthly counts on the line a + b * month, over two or more months, give trend b |
| `AdvancedKpis.TrendOfFlatCounts` | kpi/advanced_kpis.py:13-23 | months with equal counts give trend 0 |
| `AdvancedKpis.TrendVelocity` | kpi/advanced_kpis.py:4-25 | the call succeeds exactly when the date column is present and parses and the cluster column is present; it then has one entry per cluster label, and 0 for clusters with fewer than two months |
| `AdvancedKpis.ClusterTrends` | kpi/advanced_kpis.py:9-23 | the loop builds the trend of every unique cluster, keyed by the cluster |
| `AdvancedKpis.FailureTrendVelocity` | kpi/advanced_kpis.py:4-25 | the method returns `TrendVelocity` of the old table and adds `YearMonth` exactly when the dates parse |
| `AdvancedKpis.AfterTrend` | kpi/advanced_kpis.py:5-6 | the rows are unchanged, and the only column that can be added is `YearMonth`, added exactly when the date column is present and parses |
| `AdvancedKpis.ClusterSize` | kpi/advanced_kpis.py:28 | a `value_counts()` entry is at most the row count, and is positive exactly when the label occurs in the cluster column |
| `AdvancedKpis.Densities` | kpi/advanced_kpis.py:28-29 | one density per cluster label, and no other key |
| `AdvancedKpis.RecurrenceDensity` | kpi/advanced_kpis.py:27-30 | the call fails exactly when the cluster column is missing, or the population is 0 on a non-empty table; otherwise it is keyed by exactly the cluster labels |
| `AdvancedKpis.DefaultPopulationNeverDivides` | kpi/advanced_kpis.py:27-29 | with the default population of 1000000, the call fails exactly when the cluster column is missing |
| `AdvancedKpis.DensitiesSumToTotal` | kpi/advanced_kpis.py:28-29 | the densities add up to the number of complaints over the population |
| `AdvancedKpis.Quotient` | kpi/advanced_kpis.py:41 | for a non-zero registration count, the score times the registrations gives back the group's count |
| `AdvancedKpis.Registration` | kpi/advanced_kpis.py:33-40 | a listed state's own count is used; an unlisted state, or a missing mapping, falls back to 100000 |
| `AdvancedKpis.Lookup` | kpi/advanced_kpis.py:40 | `.get(state, 100000)`; `Registration` states its two cases |
| `AdvancedKpis.Stated` | kpi/advanced_kpis.py:37 | `groupby` drops the rows whose state is missing: the kept rows are exactly the rows with a state, and never more than the table |
| `AdvancedKpis.GroupSizes` | kpi/advanced_kpis.py:37 | one group per (cluster, state) pair present in the table, each with its row count |
| `AdvancedKpis.GeoRisk` | kpi/advanced_kpis.py:32-43 | the call fails on a missing cluster column, then on a missing state column, then with a division by zero when some group's state has 0 registrations; it succeeds exactly otherwise, keyed by exactly the groups, each score being the pair's count over its state's non-zero registrations |
| `AdvancedKpis.ZeroRegistrationRaises` | kpi/advanced_kpis.py:40-41 | one complaint in a state listed with 0 registrations makes the call raise a division by zero |
| `AdvancedKpis.PairCount` | kpi/advanced_kpis.py:37 | a group's size is at most the row count, and is positive exactly when some complaint has that cluster and that non-missing state |
| `AdvancedKpis.PairKeys` | kpi/advanced_kpis.py:37 | the group keys have no repeats; `PairKeysAreStatedPairs` states which pairs they are |
| `AdvancedKpis.PairKeysAreStatedPairs` | kpi/advanced_kpis.py:37 | a pair is a group exactly when some complaint has that cluster and that non-missing state |
| `AdvancedKpis.ScoreGroups` | kpi/advanced_kpis.py:39-41 | the loop raises a division by zero exactly when some group's state has 0 registrations, and otherwise produces exactly the dictionary of every group's risk |
| `AdvancedKpis.GeoRiskScoring` | kpi/advanced_kpis.py:32-43 | the method returns `GeoRisk` of its inputs |
| `AdvancedKpis.PairCountInCluster` | kpi/advanced_kpis.py:37 | a pair's count is how often that state occurs among the cluster's rows that have a state |
| `AdvancedKpis.PairCountsSumToCluster` | kpi/advanced_kpis.py:37 | a cluster's pair counts add up to its rows that have a state, and to its size when no state is missing |
| `AdvancedKpis.FillSeverity` | kpi/advanced_kpis.py:46-47 | every row gets severity 1 and nothing else changes |
| `AdvancedKpis.WithDefaultSeverity` | kpi/advanced_kpis.py:46-47 | afterwards the table has a severity column; a table that had one is unchanged, and otherwise every row gets severity 1 and nothing else changes |
| `AdvancedKpis.SeverityImpact` | kpi/advanced_kpis.py:49 | one impact per cluster label, and no other key |
| `AdvancedKpis.SeverityWeightedImpact` | kpi/advanced_kpis.py:45-50 | the method adds a severity column of 1s when there is none, fails when the cluster column is missing, and otherwise returns the per-cluster sums of the new table |
| `AdvancedKpis.FilledClusterWeight` | kpi/advanced_kpis.py:46-49 | once filled with 1s, a cluster's severity sum is its size |
| `AdvancedKpis.DefaultImpactIsClusterSize` | kpi/advanced_kpis.py:45-50 | without a severity column, each cluster's impact is its number of complaints |
| `AdvancedKpis.ImpactsSumToTotal` | kpi/advanced_kpis.py:49 | the cluster impacts add up to the table's total severity |
| `Clustering.Texts` | nlp/clustering.py:26 | the text list has one summary per complaint, in row order |
| `Clustering.Conforms` | nlp/clustering.py:28 | the shape promised of the oracle's output: one label of at least -1 and one point per complaint; `ClustersAttached` and `SummaryClustersValid` assume exactly this |
| `Clustering.Join` | nlp/clustering.py:35 | joining nothing gives the empty string; joining one part gives that part; a join always starts with its first part |
| `Clustering.JoinLength` | nlp/clustering.py:35 | the joined text's length is the parts' total length plus three characters per separator |
| `Clustering.JoinAppend` | nlp/clustering.py:35 | joining one more part appends the separator and that part |
| `Clustering.Sample` | nlp/clustering.py:35 | `head(3)` is the first min(3, size) summaries of the cluster, in table order |
| `Clustering.SummaryRows` | nlp/clustering.py:34-37 | one summary row per key, in key order |
| `Clustering.SummaryFor` | nlp/clustering.py:34-37 | a cluster's row carries its label, and a complaint count at most the cluster's size, equal to it exactly when no complaint of the cluster lacks an ODI number |
| `Clustering.ClusterSummary` | nlp/clustering.py:34-37 | the summary is empty exactly when the table is, and every row is a label of the table whose count is at most that cluster's size |
| `Clustering.SummaryKeyedByLabels` | nlp/clustering.py:34-37 | the summary has one row per cluster label, noise included, in strictly ascending label order, each holding that cluster's summary |
| `Clustering.SampleFromCluster` | nlp/clustering.py:35 | every sampled text is the summary of a complaint in that cluster |
| `Clustering.SmallClusterSample` | nlp/clustering.py:35 | a cluster of at most three complaints lists all of its summaries |
| `Clustering.NumComplaintsTotal` | nlp/clustering.py:36-37 | the NumComplaints column adds up to the complaints that have an ODI number, which is all complaints when none is missing |
| `Clustering.WithLabels` | nlp/clustering.py:30 | each row gets its own label, index-aligned, and nothing else changes |
| `Clustering.WithFirstAxis` | nlp/clustering.py:31 | each row gets coordinate 0 of its own point, and nothing else changes |
| `Clustering.WithSecondAxis` | nlp/clustering.py:32 | each row gets coordinate 1 of its own point, and nothing else changes |
| `Clustering.Annotate` | nlp/clustering.py:23-32 | the stage is skipped exactly when the frame is empty or has no summary column |
| `Clustering.ClusteringResult` | nlp/clustering.py:22-39 | an empty frame, or one without summaries, gives an empty summary; a successful call on any other frame gives the `ClusterSummary` of the frame's rows after `AfterClustering` |
| `Clustering.AfterClustering` | nlp/clustering.py:23-32 | an empty frame, or one without summaries, is left as it was; otherwise the frame keeps its rows and columns; the only columns added are `Cluster`, `UMAP1` and `UMAP2`, and no field other than those three changes in any complaint |
| `Clustering.ClustersAttached` | nlp/clustering.py:26-32 | with an oracle that gives one label and one point per complaint, the three columns are added, and each complaint gets its label and its first two coordinates with nothing else changed |
| `Clustering.SummaryOfValidLabels` | nlp/clustering.py:34-37 | labels that are cluster numbers or -1 give summary rows that are too |
| `Clustering.SummaryClustersValid` | nlp/clustering.py:22-39 | with such an oracle, the call fails exactly when there is no ODI-number column; otherwise every summary row is a cluster number or -1 |
| `Clustering.LabelComplaintClusters` | nlp/clustering.py:22-39 | the method returns `ClusteringResult` of the old table and leaves the frame as `AfterClustering` describes |

## Left out

- The sentence embedder (nlp/clustering.py:10-11) and the UMAP reduction plus HDBSCAN clustering (nlp/clustering.py:13-20) are not modelled. They are function parameters, and only their promised shape is stated: one label of at least -1 and one 5-dimensional point per complaint.
- Floating point: KPI values are exact reals. `round(..., 2)` is not modelled, and neither is numpy's rounding in the least-squares fit.
- The least-squares slope is stated as Sxy / Sxx, with 0 when Sxx is 0. The loop only fits clusters with two or more distinct months, so Sxx is never 0 there.
- Date parsing is not modelled. A date cell arrives already classified as missing, unparsable, or a day ordinal with its month ordinal.
- The month axis is kept in order of first appearance, not sorted as `groupby` sorts it. The slope does not depend on the order of the points.
- Failure dates are taken to be dates without a time of day: a parsed date is a whole day ordinal. With a time of day, `(max - min).dt.days` (utils/kpi_generator.py:22) rounds each gap down to whole days, so a cluster's delta, and MTTR, can be up to one day lower than the model's.
- RCDI's `(num_clusters or 1)` fallback (utils/kpi_generator.py:13) cannot be reached in the model. The guard at utils/kpi_generator.py:5 has already returned for an empty table, and a cluster label is an integer, never NaN, so a non-empty table has at least one cluster (`KpiGenerator.ClusterCount`). A label column holding only NaN is not modelled.
- Registration counts are taken to be Python `int`s, as the fallback 100000 is. A mapping holding numpy numbers would make a zero count give `inf` instead of raising; that case is not modelled.
- Dictionary insertion order is not modelled: result dictionaries are Dafny maps.
- The column-name parameters of the per-cluster KPIs are fixed to their defaults: `FailureDate`, `Cluster`, `State` and `Severity`.
- `astype(str)` is not modelled. Summaries are strings already, and cluster labels, ODI numbers and severities are integers.
- `calculate_advanced_kpis` returns `{}` for an empty table, and `label_complaint_clusters` returns `(df, {})` where a DataFrame is expected later. The model gives `Ok(map[])` and `Ok([])`.
- `AdvancedKpis.Densities`: its contract states the keys only. Each value is the cluster's count over the population; that is given by the function's definition and by `DensitiesSumToTotal`, not by a per-key ensures.
- `KpiGenerator.GeoSpread` and `KpiGenerator.VinScore` have no contract of their own. Both are `MeanDistinct` over one column, and their properties are those of `MeanDistinct` (with `MeanDistinctTimesClusters` and `MeanDistinctBetween`) and of `ScoresAtMostRcdi`.
- The rest of the repository (`app.py`, `data/data_fetcher.py`, `utils/visuals.py`) is not part of this model: it is the web front end, the HTTP fetch and the plotting.
