# Malawi user-engagement data: a Dafny model

This project models the three scripts of a small research-methods repository:

- **generate_data.py** writes a synthetic table of mobile-app usage in Malawi. It creates 3000 users, each with an age, a gender, a district or city, a device and a telecom network. It then writes one record per user per day for 30 days, with clicks, session duration, a feature version (A/B), an optional feedback score, a retention flag and the data used.
- **run_analysis.py** (`optimized_complete_analysis`) and **generate_report.py** (`analyze_user_engagement` and `generate_detailed_report`) read that table. They compute KPIs, the A/B retention difference, per-network, per-device, per-age-band and per-location retention, and the high- and low-engagement segments, and return a dictionary of headline results.

The model is organised as follows:

- `engagement_types.dfy`: the user and record entities.
- `weighted_choice.dfy`: `np.random.choice` with a probability vector, where the draw is an input in hundredths.
- `generate_data.dfy`: the generator. Its two loops are methods with loop invariants, proved against the function `MakeRecord`.
- `aggregation.dfy`: the pandas operations both report scripts use:
  - boolean masks;
  - exact means, with NaN as `None`;
  - `pd.cut`;
  - `groupby`, with sorted keys and missing keys dropped;
  - `idxmax` and `idxmin`, each returning the first extreme;
  - `max`;
  - `sort_values`;
  - `nlargest`.
- `metrics.dfy`: metrics shared by both scripts. It also states what `idxmax` and `idxmin` mean for the rows of the table, through `IsBestKey` and `IsWorstKey`.
- `data_frame.dfy`: the caller's DataFrame, as a class. Both scripts add the column `df['age_group'] = ...` to it in place.
- `run_analysis.dfy` and `generate_report.dfy`: the two report functions and their returned dictionaries.
- `pipeline.dfy`: what the reports yield on any table the generator can write, and the proof that the two scripts agree on every dictionary entry they share.

Randomness is an input:

- a `UserDraw` per user;
- a `DayDraw` per record. It carries the Poisson and normal samples as functions of the distribution parameters, so that the device-dependent choice of parameters stays in the model.

Two facts about the generator's code that the model keeps exactly:

- **Clamping truncates:** clicks and durations are scaled and then converted with `int(...)`, which truncates toward zero and does not round (generate_data.py:64-65). `GenerateData.Truncate` models the truncation.
- **Android is listed three times:** the device labels are `["Android", "Android", "Android", "iOS", "KaiOS", "Feature Phone"]` with weights `[0.65, 0.20, 0.08, 0.05, 0.01, 0.01]` (generate_data.py:24, 35). So Android is drawn with probability 0.65 + 0.20 + 0.08 = 0.93, iOS with 0.05, and KaiOS and Feature Phone with 0.01 each. `GenerateData.DeviceEffectiveWeights` proves these frequencies.

Group keys are ordered as pandas orders a `groupby` index: numbers before strings (only one kind occurs per column), and strings character by character. The age-group column is categorical in pandas, ordered by its labels; the five labels "18-25" < "26-35" < "36-45" < "46-55" < "55+" are already in string order (`Aggregation.AgeLabelsInCategoryOrder`), so the two orders coincide.

## Model

| member | source | states |
|---|---|---|
| WeightedChoice.Choose | generate_data.py:33-36 | a weighted categorical draw always yields one of the listed labels |
| WeightedChoice.ChoiceFrequency | generate_data.py:33-36 | among the equally likely draws below the total weight, a label is picked exactly as often as the sum of its weights at all positions where it is listed |
| WeightedChoice.AbsentLabelWeight | generate_data.py:33-36 | a label not in the list has weight 0, so it is never drawn |
| GenerateData.WeightsSumToOne | generate_data.py:33-68 | every probability vector of the generator (gender, device, network, version, feedback, retention) sums to exactly 1 |
| GenerateData.DeviceWeightOf | generate_data.py:24-35 | the effective weight of each device name: Android 93, iOS 5, KaiOS 1, Feature Phone 1 and any other name 0, in hundredths |
| GenerateData.DeviceEffectiveWeights | generate_data.py:24-35 | of 100 equally likely draws, 93 give Android, 5 iOS and 1 each KaiOS and Feature Phone, because "Android" is listed three times |
| GenerateData.MakeUser | generate_data.py:30-37 | user `id` has age in [18, 64] and takes its gender, location, device and network from their catalogues |
| GenerateData.GenerateUsers | generate_data.py:27-37 | the user loop builds exactly 3000 users, and user i has id i and is built from the i-th draws |
| GenerateData.ParamsForDevices | generate_data.py:44-52 | Android gets Poisson(6)/Normal(320, 60), iOS gets Poisson(7)/Normal(350, 50), and every other device, KaiOS and Feature Phone included, gets Poisson(3)/Normal(180, 40) |
| GenerateData.MultiplierCases | generate_data.py:55-59 | the multiplier is 6/5 exactly for Lilongwe, Blantyre and Mzuzu, the first three catalogue places, and 4/5 for every other location |
| GenerateData.Truncate | generate_data.py:64-65 | `int()` of a float truncates toward zero: the largest integer not above a non-negative value, and the smallest integer not below a negative value |
| GenerateData.ScaledClicks | generate_data.py:64 | clicks are never negative, and equal the scaled Poisson sample truncated |
| GenerateData.ScaledDuration | generate_data.py:65 | the duration is at least 30 s; it equals the truncated scaled sample when that is at least 30, and exactly 30 when the scaled sample is below 31 |
| GenerateData.Decimal | generate_data.py:63 | decimal digits without leading zeros: one digit below 10 and two digits for 10..99 |
| GenerateData.ParseDecimalOfDecimal | generate_data.py:63 | reading the digits back gives the number |
| GenerateData.DateLabelShape | generate_data.py:63 | the date label is "2025-11-" followed by day+1 in exactly two zero-padded digits, and the day can be read back from it |
| GenerateData.DateLabelsDistinct | generate_data.py:42-63 | the 30 days get 30 distinct labels, from 2025-11-01 to 2025-11-30 |
| GenerateData.MakeRecord | generate_data.py:61-70 | a record copies its user unchanged, is dated with its day, has clicks >= 0, duration >= 30 s and data used >= 0, and takes version, feedback and retention from their catalogues |
| GenerateData.ExpandDays | generate_data.py:40-70 | the nested loop writes exactly 30 records per user, in user-major, day-minor order; record k is user k / 30 on day k % 30 |
| GenerateData.Generate | generate_data.py:27-73 | the generator writes exactly 90000 rows; row k is the record of user k / 30 on day k % 30, and the table satisfies the whole generated-data shape |
| Aggregation.SegmentsDisjoint | run_analysis.py:46-47 | no row is both high and low engagement, and a row is not low exactly when it has at least 3 clicks and at least 150 s |
| Aggregation.SegmentBoundaries | run_analysis.py:46-47 | the thresholds are inclusive for high engagement (5 clicks, 300 s) and strict for low engagement (3 clicks, 150 s) |
| Aggregation.Cut | run_analysis.py:50-51 | `pd.cut` gives a label only for a value inside that label's bucket (bins[j], bins[j+1]] |
| Aggregation.CutRightClosed | run_analysis.py:50-51 | with increasing bins and distinct labels, a value gets label i if and only if it lies in (bins[i], bins[i+1]] |
| Aggregation.CutFindsBucket | run_analysis.py:50-51 | with increasing bins, a value in (bins[i], bins[i+1]] gets label i |
| Aggregation.CutOutside | run_analysis.py:50-51 | values at or below the first edge, or above the last edge, get NaN |
| Aggregation.AgeBinsIncreasing | run_analysis.py:50-51 | the age bins [0, 25, 35, 45, 55, 100] are strictly increasing and the five labels are distinct |
| Aggregation.AgeLabelsInCategoryOrder | run_analysis.py:50-51 | the five band labels, in their categorical order, are strictly increasing in string order |
| Aggregation.AgeGroupBands | run_analysis.py:50-51 | each age band is exactly its right-closed interval (0-25, 25-35, 35-45, 45-55, 55-100), and ages outside (0, 100] get NaN |
| Aggregation.AgeGroupEdges | run_analysis.py:50-51 | 25 falls in "18-25", 55 in "46-55" and 56 in "55+"; every generated age 18..64 gets a band |
| Aggregation.KeyLessTotal | run_analysis.py:31-36 | the group-key order is total: two different keys are always ordered one way or the other |
| Aggregation.InsertKey | run_analysis.py:31-36 | inserting a key keeps the key list strictly sorted, and its elements are the old ones plus the new key |
| Aggregation.Keys | run_analysis.py:31-36 | the keys `groupby` produces: strictly sorted, and exactly the keys some row has (missing keys dropped) |
| Aggregation.Filter | run_analysis.py:46-47 | a boolean mask keeps exactly the rows of the table that satisfy it, and never more rows than the table has |
| Aggregation.FilterEmpty | run_analysis.py:46-47 | a mask selects nothing exactly when no row satisfies it |
| Aggregation.FilterAppend | run_analysis.py:46-47 | a mask keeps the order and multiplicity of the rows it selects: masking a concatenation masks each part |
| Aggregation.FilterSingle | run_analysis.py:46-47 | a single row is kept exactly when it satisfies the mask |
| Aggregation.FilterNested | run_analysis.py:279 | masking the masked rows with a condition that implies the first mask is the same as masking once |
| Aggregation.AtRiskBounds | run_analysis.py:279 | the at-risk rows are exactly the low-engagement rows that were not retained; together with the retained low rows they fit within the low segment, which fits within the table |
| Aggregation.FilterSplitUpper | run_analysis.py:279 | the not-retained and the retained rows of a segment together are at most the segment |
| Aggregation.Mean | run_analysis.py:20-22 | a column mean is NaN exactly when there are no rows |
| Aggregation.SumOfFlags | run_analysis.py:20 | with 0/1 flags, the sum of the retention flags is the number of retained rows |
| Aggregation.RetentionRate | run_analysis.py:20 | retention times 100 is NaN exactly for no rows |
| Aggregation.RetentionRateIsRetainedShare | run_analysis.py:20 | with 0/1 flags, the retention rate is 100 times the share of retained rows, and lies in [0, 100] |
| Aggregation.Difference | run_analysis.py:28 | a difference of means is NaN when either side is NaN; otherwise adding the subtrahend gives back the minuend |
| Aggregation.AvgFeedback | run_analysis.py:23 | average feedback is NaN exactly when no row has a score |
| Aggregation.AvgFeedbackIgnoresMissing | run_analysis.py:23 | rows without a score change neither the list of scores nor their mean |
| Aggregation.TotalUsers | run_analysis.py:19 | `nunique()` of the user ids is at most the number of rows, and positive exactly when there are rows |
| Aggregation.UserIdsBound | run_analysis.py:19 | there are at most as many distinct ids as rows |
| Aggregation.GroupBy | run_analysis.py:31-35 | one group per present key, in key order; each group is the size and exact means of the rows with that key |
| Aggregation.GroupByCovers | run_analysis.py:31-35 | every row that has a key falls in some group |
| Aggregation.GroupByIgnoresMissingKeys | generate_report.py:126 | `groupby` drops rows with a missing key: grouping only the keyed rows gives the same groups |
| Aggregation.KeysIgnoreMissing | generate_report.py:126 | the keys of the keyed rows are the keys of the whole table |
| Aggregation.SelectIgnoresMissing | generate_report.py:126 | selecting a key from the keyed rows gives the same rows as selecting it from the whole table |
| Aggregation.SortedUnique | run_analysis.py:31-36 | two strictly sorted key lists with the same elements are equal, so the sorted groupby index is unique |
| Aggregation.GroupRetentionBounds | run_analysis.py:31-36 | with 0/1 flags, every group's mean retention lies in [0, 1] |
| Aggregation.GroupSizesPartition | run_analysis.py:271 | each group's size is the number of rows with its key and is positive; the sizes add up to the number of keyed rows |
| Aggregation.SegmentCountsBound | run_analysis.py:46-47 | the high and low segments together have at most as many rows as the table |
| Aggregation.IdxMax | run_analysis.py:36 | `idxmax` picks a group with the highest retention, and every group before it has strictly lower retention (the first maximum) |
| Aggregation.IdxMin | run_analysis.py:294 | `idxmin` picks a group with the lowest retention, and every group before it has strictly higher retention (the first minimum) |
| Aggregation.MaxRetention | generate_report.py:160 | `max()` is an upper bound of the group retentions, and some group attains it |
| Aggregation.BestKey | run_analysis.py:36 | None exactly for an empty series; otherwise the key of a group with maximal retention |
| Aggregation.WorstKey | run_analysis.py:294 | None exactly for an empty series; otherwise the key of a group with minimal retention |
| Aggregation.BestRateOfBestKey | generate_report.py:159-160 | `max() * 100` is exactly 100 times the retention of the group `idxmax` names, and bounds every group's rate |
| Aggregation.InsertRanked | generate_report.py:99-102 | inserting a group into a ranking keeps it ranked (retention descending) and adds exactly that group |
| Aggregation.SortByRetention | generate_report.py:99-102 | the device table sorted by retention is a permutation of the groups, ranked by descending retention |
| Aggregation.RankedNonIncreasing | generate_report.py:99-102 | in a ranking, retention never increases along the sequence |
| Aggregation.NLargestProperties | run_analysis.py:56 | `nlargest(n)` (keep='first') returns min(n, groups) groups taken from the series, in non-increasing order, each ranked before every group left out: higher retention, or equal retention and an earlier key |
| Metrics.FeatureRetention | run_analysis.py:26-27 | a version's retention is NaN exactly when no row has that version |
| Metrics.FeatureRetentionShare | run_analysis.py:26-27 | with 0/1 flags, a version's retention is 100 times the share of its rows that were retained, and lies in [0, 100] |
| Metrics.FeatureAdvantage | run_analysis.py:28 | the advantage exists exactly when both versions have rows |
| Metrics.FeatureAdvantageBounds | run_analysis.py:26-28 | the advantage is A's retention minus B's and lies in [-100, 100] |
| Metrics.GroupRateIsFilterRate | run_analysis.py:140-144 | the two spellings in the scripts agree by construction: a key's group in `groupby(col)` has, times 100, the retention of the masked rows `df[df[col] == key]` |
| Metrics.SegmentRetention | generate_report.py:167-172 | a segment's retention is NaN exactly when no row is in the segment |
| Metrics.SegmentRetentionBounds | run_analysis.py:277-278 | with 0/1 flags, a segment's retention lies in [0, 100] |
| Metrics.GroupOfKey | run_analysis.py:31-36 | every key that has rows has a group |
| Metrics.NoGroupsIffNoKeys | run_analysis.py:31-36 | the grouping is empty exactly when no row has a key |
| Metrics.BestKeyUnique | run_analysis.py:36 | at most one key is the first maximum |
| Metrics.WorstKeyUnique | run_analysis.py:294 | at most one key is the first minimum |
| Metrics.BestKeyIsMaximal | run_analysis.py:36 | `idxmax` is None exactly when no row has a key, and returns k if and only if k is the first key whose rows have maximal mean retention |
| Metrics.WorstKeyIsMinimal | run_analysis.py:294 | `idxmin` returns k if and only if k is the first key whose rows have minimal mean retention |
| Metrics.MeanLowerBound | run_analysis.py:21 | a mean is at least any lower bound of its values, so `avg_session` is at least 30 s when every session is |
| DataFrame.AgeGroupColumn | run_analysis.py:50-51 | the added column has one entry per row, and entry i is the `pd.cut` band of row i's age (`Aggregation.AgeGroupBands` gives each band its interval): a band exactly for ages in (0, 100], and every band one of the five labels |
| DataFrame.LabelCountIsBandCount | run_analysis.py:271 | counting a band in the added column is counting the rows whose age falls in that band |
| DataFrame.Frame.constructor | run_analysis.py:332 | a frame read from CSV holds the rows and no derived column |
| DataFrame.Frame.AddAgeGroup | run_analysis.py:50-51 | the caller's frame gains the age-band column matching its rows; the rows are unchanged |
| RunAnalysis.TopLocationsProperties | run_analysis.py:56 | exactly min(5, number of locations) locations, strictly ranked and so distinct, in non-increasing retention, each the mean of that location's rows, and each ranked before every location left out (a tie at the cut-off goes to the first name) |
| RunAnalysis.FeatureMetricsMatchAB | run_analysis.py:140-147 | agree by construction: each row of `feature_metrics` has, times 100, the A/B retention computed by masking |
| RunAnalysis.GenderRetentionRates | run_analysis.py:164 | each gender's rate lies in [0, 1] and comes from a positive number of that gender's rows, and every row's gender has a group |
| RunAnalysis.AgeRows | run_analysis.py:271 | the age table has one row per band present, with that band's rate times 100; on the added column, each user count is the band's group size and is positive |
| RunAnalysis.AgeBandCounts | run_analysis.py:271 | the count of a band in the added column equals its group size |
| RunAnalysis.AgeBandCount | run_analysis.py:271 | the count of one present band in the added column is the number of rows with that band |
| RunAnalysis.Segments | run_analysis.py:276-279 | high + low <= rows; at-risk + retained-low <= low; a segment's rate is NaN exactly when the segment is empty |
| RunAnalysis.LocationRows | run_analysis.py:285 | the location table has at most five rows, each the location's rate times 100 and its positive row count |
| RunAnalysis.WorstNetworkIsMinimal | run_analysis.py:294 | the network to improve is absent exactly for an empty table; otherwise it is the first network with the lowest retention |
| RunAnalysis.Results | run_analysis.py:318-329 | the advantage is A minus B; total users <= rows; the overall retention rate and the best network and device are NaN exactly for an empty table; the best age band exists exactly when some age is in (0, 100]; high + low <= rows |
| RunAnalysis.ResultsBestKeys | run_analysis.py:36-53 | the best network, device and age band are exactly the first maxima of the table, and the engagement counts are the segment sizes |
| RunAnalysis.ResultsRatesBounded | run_analysis.py:20-28 | with 0/1 flags, the overall, A and B retention lie in [0, 100] and the advantage in [-100, 100] |
| RunAnalysis.OptimizedCompleteAnalysis | run_analysis.py:13-329 | the analysis leaves the rows unchanged, leaves the age-band column in the caller's frame, and returns the results of those rows |
| GenerateReport.KpisOf | generate_report.py:24-35 | total users <= rows and positive exactly for a non-empty table; each mean KPI is NaN exactly for an empty table |
| GenerateReport.KpiBounds | generate_report.py:24-27 | with 0/1 flags, sessions >= 30 s and clicks >= 0, retention lies in [0, 100], the average session is >= 30 and the average click count >= 0 |
| GenerateReport.RatesOfGroups | generate_report.py:43 | `groupby(col)['retention_flag'].mean() * 100` as a series: entries in strictly increasing key order, each entry the retention of the masked rows of its key, and with 0/1 flags each in [0, 100] |
| GenerateReport.RateEntry | generate_report.py:43 | agree by construction: every entry of a rate series is the retention of the masked rows of its key |
| GenerateReport.RateEntryBounds | generate_report.py:43 | with 0/1 flags, every entry of a rate series lies in [0, 100] |
| GenerateReport.RetentionByFeatureMatchesAB | generate_report.py:43 | agree by construction: each entry of `retention_by_feature` equals the A/B retention of that version |
| GenerateReport.FeedbackIgnoresMissing | generate_report.py:126 | rows without a feedback score change neither the feedback rates nor the average feedback |
| GenerateReport.FeedbackKeysPresent | generate_report.py:126 | every feedback-rate key is a score some row has |
| GenerateReport.NetworkRatesCover | generate_report.py:243 | every row's network appears in the network list, and each entry is that network's retention |
| GenerateReport.DeviceAnalysisOrdered | generate_report.py:99-102 | the device table holds exactly the device groups, in non-increasing order of retention |
| GenerateReport.DeviceRetention | generate_report.py:248-249 | the Android and iOS rates are NaN exactly when no row has that device |
| GenerateReport.BestRateIsBestKeyRate | generate_report.py:159-164 | `max() * 100` exists exactly when `idxmax` does, is the retention of the masked rows of the best key, and no key's rows have a higher rate |
| GenerateReport.LowShare | generate_report.py:228 | the low-engagement share is absent exactly for an empty table (where Python divides by zero), otherwise in [0, 100] |
| GenerateReport.EngagementGap | generate_report.py:255 | the engagement gap exists exactly when both segments have rows |
| GenerateReport.EngagementGapBounds | generate_report.py:255 | the gap is high minus low retention and lies in [-100, 100] |
| GenerateReport.DetailedMetricsOf | generate_report.py:153-177 | advantage and gap are the differences beside them; each best rate exists exactly with its best key and equals the retention of that key's masked rows; the low share is absent exactly for an empty table |
| GenerateReport.ReportResultsOf | generate_report.py:300-308 | the advantage is A minus B; high + low <= rows; each count is positive exactly when some row is in the segment |
| GenerateReport.NonEmptyFilter | generate_report.py:167-168 | a segment count is positive exactly when some row satisfies the mask |
| GenerateReport.GenerateDetailedReport | generate_report.py:148-308 | the report leaves the rows unchanged, leaves the age-band column in the caller's frame, and returns the dictionary of those rows |
| GenerateReport.AnalyzeUserEngagement | generate_report.py:13-146 | the same holds for the report entry point that computes the KPIs first |
| Pipeline.IdRange | generate_data.py:29-31 | the ids 0..n-1 form a set of exactly n elements |
| Pipeline.GeneratedUserIds | generate_data.py:29-31 | on generated data the distinct user ids are exactly 0..2999, so `nunique()` is 3000 |
| Pipeline.GeneratedFlagsBinary | generate_data.py:68 | every generated retention flag is 0 or 1 |
| Pipeline.GeneratedKpis | generate_report.py:24-27 | on generated data there are 3000 users, retention is in [0, 100], the average session is >= 30 s and the average click count is >= 0 |
| Pipeline.GeneratedAgeGroupsPartition | generate_data.py:32 | every generated age has a band, so the age groups together hold all 90000 rows |
| Pipeline.GeneratedResults | run_analysis.py:318-329 | on generated data the results report 3000 users and a retention percentage |
| Pipeline.GeneratedBestKeys | run_analysis.py:36-53 | on generated data a best network, device and age band always exist, and the segments fit in the 90000 rows |
| Pipeline.ScriptsAgree | generate_report.py:300-308 | agree by construction: on any table, the two scripts return the same A and B retention, advantage, best network and device, and engagement counts |

## Left out

- Plotting (matplotlib/seaborn), the HTML templates and their f-string number formatting, `datetime.now()`, printing, CSV/JSON file I/O and the metadata dictionary: they only present or store values the model computes.
- The random generators and their seeding (`np.random.seed`, `Faker.seed`): every sample is an input draw. The model does not state the distributions of `poisson`, `normal` or `randint`, only the ranges the code relies on.
- Floating point: means, rates and the multiplier are exact reals. IEEE rounding of `1.2`, `0.8` and the means is not modelled.
- GenerateData.MakeRecord: states only `data_used_mb >= 0` (the clamp of generate_data.py:69), since the normal sample is an input.
- RunAnalysis.AgeRows: lists only the bands present in the table. Pandas' categorical `groupby` (observed=False) also lists empty bands with a NaN rate, and those rows of the age table are not modelled. `idxmax` skips NaN, so the best band is the same.
- GenerateReport.LowShare: on an empty table the source raises ZeroDivisionError at `len(low_engagement)/len(df)` (generate_report.py:228), and already earlier at the `idxmax` of generate_report.py:159; the model returns None instead.
- Aggregation.BestKey, Aggregation.WorstKey, RunAnalysis.WorstNetworkIsMinimal: when there are no groups, pandas' `idxmax` / `idxmin` raise instead of returning a key (run_analysis.py:294 for `idxmin`); the model returns None. On an empty table run_analysis.py already raises earlier, at the `idxmax` of line 36.
- The `KeyError` of `feature_metrics.loc['A']` (run_analysis.py:146) when a version has no rows is not modelled; that line only feeds a chart.
- Aggregation.SortByRetention: ties are kept in key order. Pandas' default quicksort does not guarantee an order between ties, so only "permutation, in non-increasing retention" is claimed (GenerateReport.DeviceAnalysisOrdered).
- The `kpis` parameter of `generate_detailed_report` is used only inside the HTML, so it does not affect the returned dictionary.
- The per-network session and click means are modelled inside `GroupStat`, but no property beyond their definition is stated about them.
- pandas' `read_csv` typing, such as feedback scores becoming floats with NaN, is modelled directly as `Option<int>`.
