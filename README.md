# MCC conversion-tracking monitor — a Dafny model

A Google Ads manager-account (MCC) script reads a list of rules from a settings sheet. Each rule names one account, a
conversion action (or `TELJES FIÓK`, the whole account), a measurement type, a look-back window in days and two
minimum thresholds. For every account the manager can reach, the script:

1. fetches the conversion catalog and one metrics report per distinct window size;
2. aggregates the enabled conversion actions by name;
3. compares each rule's actual conversions and value against its thresholds;
4. writes OK / BELOW_CONVERSIONS / BELOW_VALUE / BELOW_BOTH / ERROR rows;
5. lists the accounts it could not reach.

An optional trend report sums each rule's resources per day over a fixed window. When the minimum daily conversion
count is zero, it analyses the runs of zero-conversion days and derives a conservative and a sensitivity threshold
recommendation.

The model is split into modules that follow the script's own parts:

| file | module | models |
|---|---|---|
| `base.dfy` | `Base` | `Option`, the insertion-ordered dictionary `Dict` that stands for a JavaScript plain object, and JavaScript `trim` |
| `metrics.dfy` | `Metrics` | the four measurement types, the eight-field metric point, `pickMetricPair`, and the conversion catalog entry |
| `validation.dfy` | `RuleValidator` | settings-row parsing: `validateDays` with an exact `parseInt`, `parseNonNegativeNumberField`, `parseYesNo`, `normalizeId` and `formatId`, and the rule record |
| `aggregation.dfy` | `WindowAggregator` | the row fold of `fetchMetrics`, `aggregate`, `buildNameIndex`, `buildEnabledResourcesByName`, `uniqueDays`, and the per-window cache |
| `evaluation.dfy` | `ThresholdEvaluator` | `compare`, the per-rule evaluation block of `main` lifted into `EvaluateRule`, and the account's result, error and deviation lists |
| `gaps.dfy` | `GapAnalyzer` | `calculateSlidingWindowMin` and `analyzeConversionGaps`, each against a brute-force specification |
| `trend.dfy` | `TrendReport` | `resolveResourcesForRule`, `buildDailySeries`, the per-rule trend block, trend sheet-name sanitising, and the trend account filter |
| `monitor.dfy` | `Monitor` | `groupByAccount`, the first-seen account order, the reachable/unreachable split, the rows for unreachable accounts, and the checks of one account |

Where the script changes state step by step, the model does too: a loop method for each of fetchMetrics, aggregate,
the index builders, the cache fill, the rule loop, the daily series, the sliding window, the gap scan and the account
order. Each method is proved equal to a specification function, and the script's promises are proved as lemmas
about those functions. Metric numbers are `real`, and window sizes and gap lengths are integers.

## Model

| member | source | states |
|---|---|---|
| Base.Put | MCC-conversion-tracking-monitoring/mcc-conversion-tracking-monitoring.js:548-552 | writing a key into an object stores the value, leaves all other keys as they were, and appends the key to the enumeration order only when it is new |
| Base.Trim | MCC-conversion-tracking-monitoring/mcc-conversion-tracking-monitoring.js:546 | the result is the slice of the input that starts at its first non-space character; everything after it is whitespace, it neither starts nor ends with whitespace, and it is empty iff the input is all whitespace |
| Base.TrimSurroundingSpace | MCC-conversion-tracking-monitoring/mcc-conversion-tracking-monitoring.js:885 | trimming a padded cell gives back the clean text |
| Metrics.NormalizeMeasurementType | MCC-conversion-tracking-monitoring/mcc-conversion-tracking-monitoring.js:858-869 | a recognised type is the one whose label equals the input exactly; no type is returned iff no label matches |
| Metrics.NormalizeLabel | MCC-conversion-tracking-monitoring/mcc-conversion-tracking-monitoring.js:858-869 | every label normalises back to its own measurement type |
| Metrics.PickAdditive | MCC-conversion-tracking-monitoring/mcc-conversion-tracking-monitoring.js:1469-1480 | projecting a sum of metric points is the sum of the projections, and the zero point projects to the zero pair |
| Metrics.DisplayName | MCC-conversion-tracking-monitoring/mcc-conversion-tracking-monitoring.js:635 | an unnamed action is shown as `(névtelen)`, never as the empty name; a named one keeps its name |
| RuleValidator.ValidateDays | MCC-conversion-tracking-monitoring/mcc-conversion-tracking-monitoring.js:877-900 | an empty cell is missing (days 7), `"0"` is valid with 7 days, and invalid means no digits or a value outside 1..90; a valid result lies in 1..90 |
| RuleValidator.ParseIntIgnoresSuffix | MCC-conversion-tracking-monitoring/mcc-conversion-tracking-monitoring.js:981 | `parseInt` reads only the leading digit run: text after it that is not a digit changes nothing |
| RuleValidator.ValidateDaysZero | MCC-conversion-tracking-monitoring/mcc-conversion-tracking-monitoring.js:880-890 | examples: blank is missing, `"0"` gives 7 days, `"00"` is invalid |
| RuleValidator.ValidateDaysAboveLimit | MCC-conversion-tracking-monitoring/mcc-conversion-tracking-monitoring.js:892-896 | example: 91 is above the 90-day limit and invalid |
| RuleValidator.ParseIntTrailingUnit | MCC-conversion-tracking-monitoring/mcc-conversion-tracking-monitoring.js:981 | example: `"30 nap"` parses as 30 |
| RuleValidator.ValidateDaysNegative | MCC-conversion-tracking-monitoring/mcc-conversion-tracking-monitoring.js:892-896 | example: `"-5"` is invalid |
| RuleValidator.ValidateDaysNoDigits | MCC-conversion-tracking-monitoring/mcc-conversion-tracking-monitoring.js:892-896 | example: `"abc"` is invalid |
| RuleValidator.ParseNonNegativeNumberField | MCC-conversion-tracking-monitoring/mcc-conversion-tracking-monitoring.js:907-920 | empty gives (0, valid); the field is invalid iff the number does not parse or is negative; a valid field carries the parsed value; the value is never negative |
| RuleValidator.TokensDisjoint | MCC-conversion-tracking-monitoring/mcc-conversion-tracking-monitoring.js:995-996 | no token is both a yes and a no token |
| RuleValidator.ParseYesNo | MCC-conversion-tracking-monitoring/mcc-conversion-tracking-monitoring.js:992-998 | empty gives the default, a yes token gives true, a no token gives false, and the result differs from the default only for one of those tokens |
| RuleValidator.NormalizeId | MCC-conversion-tracking-monitoring/mcc-conversion-tracking-monitoring.js:978 | the result consists of digits only and is no longer than the input |
| RuleValidator.NormalizeIdOfNonDigits | MCC-conversion-tracking-monitoring/mcc-conversion-tracking-monitoring.js:978 | text without a digit normalises to the empty string, so non-digits are removed rather than replaced |
| RuleValidator.NormalizeIdConcat | MCC-conversion-tracking-monitoring/mcc-conversion-tracking-monitoring.js:978 | normalising distributes over concatenation |
| RuleValidator.NormalizeIdOfDigits | MCC-conversion-tracking-monitoring/mcc-conversion-tracking-monitoring.js:978 | a digit string is its own normal form |
| RuleValidator.NormalizeIdIdempotent | MCC-conversion-tracking-monitoring/mcc-conversion-tracking-monitoring.js:978 | normalising twice equals normalising once |
| RuleValidator.FormatId | MCC-conversion-tracking-monitoring/mcc-conversion-tracking-monitoring.js:979 | the formatted id is two characters longer than the digits and has hyphens after the third and sixth digits (or at the end when there are fewer) |
| RuleValidator.FormatIdNormalizes | MCC-conversion-tracking-monitoring/mcc-conversion-tracking-monitoring.js:978-979 | round trip: normalising a formatted id gives the normalised id back |
| RuleValidator.ParseRuleRow | MCC-conversion-tracking-monitoring/mcc-conversion-tracking-monitoring.js:813-853 | a row is skipped iff its id cell is empty or its measurement type is unknown; a kept row carries the normalised id, the customer-name cell, the trimmed action name, `validateDays`' days and flags, the two threshold values and their combined invalid flag, and the enabled flag |
| RuleValidator.ReadRules | MCC-conversion-tracking-monitoring/mcc-conversion-tracking-monitoring.js:813-856 | the loop over the settings rows returns the rules of the kept rows, in order |
| WindowAggregator.FoldRowsKeys | MCC-conversion-tracking-monitoring/mcc-conversion-tracking-monitoring.js:540-564 | the folded map has an entry for exactly the non-empty trimmed action names of the rows |
| WindowAggregator.FoldRowsSums | MCC-conversion-tracking-monitoring/mcc-conversion-tracking-monitoring.js:540-564 | each entry of the folded map is the sum of that action's rows, and an absent or empty key reads as zero |
| WindowAggregator.FetchMetrics | MCC-conversion-tracking-monitoring/mcc-conversion-tracking-monitoring.js:540-564 | the row loop computes the fold, and so the per-action sums of `FoldRowsSums` |
| WindowAggregator.Aggregate | MCC-conversion-tracking-monitoring/mcc-conversion-tracking-monitoring.js:649-680 | the loop over the metric keys computes the specified by-name and total aggregate |
| WindowAggregator.AggregateStep | MCC-conversion-tracking-monitoring/mcc-conversion-tracking-monitoring.js:653-676 | one pass of the loop extends the aggregate by one metric key: skipped without an ENABLED catalog entry, otherwise added under its display name and to the total |
| WindowAggregator.AggregateAmounts | MCC-conversion-tracking-monitoring/mcc-conversion-tracking-monitoring.js:649-680 | each by-name entry is the sum of the chosen pairs of exactly the ENABLED catalog actions with that display name, and the total the sum over every ENABLED action; other actions add to no amount |
| WindowAggregator.AggregateTotalIsSum | MCC-conversion-tracking-monitoring/mcc-conversion-tracking-monitoring.js:649-680 | the account total equals the sum of all by-name entries |
| WindowAggregator.AggregateNames | MCC-conversion-tracking-monitoring/mcc-conversion-tracking-monitoring.js:655-672 | a name receives an entry iff some metric key is in the catalog, is ENABLED and has that display name |
| WindowAggregator.BuildNameIndex | MCC-conversion-tracking-monitoring/mcc-conversion-tracking-monitoring.js:629-640 | the index is the set of display names of the ENABLED catalog entries |
| WindowAggregator.AggregateNamesIndexed | MCC-conversion-tracking-monitoring/mcc-conversion-tracking-monitoring.js:629-680 | every aggregated name is in the name index |
| WindowAggregator.ResourcesNamed | MCC-conversion-tracking-monitoring/mcc-conversion-tracking-monitoring.js:1242-1253 | every listed resource is an ENABLED catalog entry with the given display name |
| WindowAggregator.ResourcesNamedComplete | MCC-conversion-tracking-monitoring/mcc-conversion-tracking-monitoring.js:1242-1253 | every ENABLED entry with that name is listed, duplicates of a name included |
| WindowAggregator.ResourcesNamedDistinct | MCC-conversion-tracking-monitoring/mcc-conversion-tracking-monitoring.js:1242-1253 | for distinct catalog keys, a name's resource list repeats no resource |
| WindowAggregator.IndexResource | MCC-conversion-tracking-monitoring/mcc-conversion-tracking-monitoring.js:1244-1251 | one pass of the catalog loop keeps the index exact for the keys seen so far: an ENABLED resource is appended under its name, any other changes nothing |
| WindowAggregator.BuildEnabledResourcesByName | MCC-conversion-tracking-monitoring/mcc-conversion-tracking-monitoring.js:1242-1253 | the index has a key for exactly the names with an ENABLED resource, mapped to all of those resources in catalog order |
| WindowAggregator.EnabledResourcesAll | MCC-conversion-tracking-monitoring/mcc-conversion-tracking-monitoring.js:1119 | the list holds only ENABLED catalog entries and each of them |
| WindowAggregator.EnabledResourcesAllDistinct | MCC-conversion-tracking-monitoring/mcc-conversion-tracking-monitoring.js:1119 | for a catalog with distinct keys, no resource is listed twice, so a day sum counts each resource once |
| WindowAggregator.RulesWithValidDays | MCC-conversion-tracking-monitoring/mcc-conversion-tracking-monitoring.js:159 | exactly the rules whose days are neither missing nor invalid are kept |
| WindowAggregator.InsertSortedMembers | MCC-conversion-tracking-monitoring/mcc-conversion-tracking-monitoring.js:928-932 | adding a window size to the key list adds exactly that size and loses none |
| WindowAggregator.InsertSortedKeepsKeys | MCC-conversion-tracking-monitoring/mcc-conversion-tracking-monitoring.js:928-932 | adding a window size to a strictly ascending key list (the sorted keys of the day set) keeps it strictly ascending |
| WindowAggregator.UniqueDays | MCC-conversion-tracking-monitoring/mcc-conversion-tracking-monitoring.js:928-932 | the distinct window sizes, each once, in ascending order as integer object keys enumerate |
| WindowAggregator.FetchWindow | MCC-conversion-tracking-monitoring/mcc-conversion-tracking-monitoring.js:163-168 | one report query, then the four aggregates, give the window's cache entry |
| WindowAggregator.CacheWindow | MCC-conversion-tracking-monitoring/mcc-conversion-tracking-monitoring.js:162-169 | caching one window adds exactly that key and keeps every cached entry equal to its window's aggregates |
| WindowAggregator.FillCache | MCC-conversion-tracking-monitoring/mcc-conversion-tracking-monitoring.js:161-170 | one report query per distinct window size, in order, and the cache holds exactly those windows with their aggregates |
| ThresholdEvaluator.Compare | MCC-conversion-tracking-monitoring/mcc-conversion-tracking-monitoring.js:970-976 | OK iff neither actual is below its minimum, BELOW_BOTH iff both are, BELOW_CONVERSIONS or BELOW_VALUE iff only that one is; equality passes |
| ThresholdEvaluator.CompareMonotone | MCC-conversion-tracking-monitoring/mcc-conversion-tracking-monitoring.js:970-976 | raising the actuals keeps an OK result OK, and meeting both minima exactly is OK |
| ThresholdEvaluator.EvaluateSkipsDisabled | MCC-conversion-tracking-monitoring/mcc-conversion-tracking-monitoring.js:176 | a rule yields no result row iff it is disabled |
| ThresholdEvaluator.EvaluateChecksInputsFirst | MCC-conversion-tracking-monitoring/mcc-conversion-tracking-monitoring.js:178-288 | missing days, then invalid days, then invalid thresholds each reject the rule before any lookup, in that order |
| ThresholdEvaluator.EvaluateErrorIff | MCC-conversion-tracking-monitoring/mcc-conversion-tracking-monitoring.js:178-332 | an enabled rule is ERROR iff one of its inputs is bad or it names an action that is neither aggregated nor enabled in the catalog |
| ThresholdEvaluator.EvaluateMeasures | MCC-conversion-tracking-monitoring/mcc-conversion-tracking-monitoring.js:300-332 | a resolved rule reads the whole-account total for the keyword, the by-name entry when there is one, and (0, 0) flagged as no data for an enabled name without data; its status is `compare` of those actuals |
| ThresholdEvaluator.AccountTotalIsSumOfNames | MCC-conversion-tracking-monitoring/mcc-conversion-tracking-monitoring.js:300-302 | the whole-account keyword is measured against the sum of the by-name entries of its window |
| ThresholdEvaluator.ResultsOfRules | MCC-conversion-tracking-monitoring/mcc-conversion-tracking-monitoring.js:175-332 | exactly one result row per enabled rule, in configuration order, each carrying that rule's own evaluation; disabled rules get none |
| ThresholdEvaluator.ResultsPartition | MCC-conversion-tracking-monitoring/mcc-conversion-tracking-monitoring.js:364-365 | the error list holds exactly the ERROR rows and the deviation list exactly the BELOW rows; with the OK rows the three lists account for every row |
| ThresholdEvaluator.EvaluateAccount | MCC-conversion-tracking-monitoring/mcc-conversion-tracking-monitoring.js:175-366 | the rule loop produces the specified result rows and their error and deviation lists |
| ThresholdEvaluator.InheritedNameReportedOk | MCC-conversion-tracking-monitoring/mcc-conversion-tracking-monitoring.js:300-306 | as written, a rule for a non-existent action named `toString` is OK; the corrected evaluation reports ERROR |
| ThresholdEvaluator.LookupAgreesOffPrototype | MCC-conversion-tracking-monitoring/mcc-conversion-tracking-monitoring.js:300-332 | for every name that is not an `Object.prototype` property, the as-written lookup and the corrected evaluation give the same status |
| GapAnalyzer.SumRangeSlide | MCC-conversion-tracking-monitoring/mcc-conversion-tracking-monitoring.js:1313-1318 | sliding a window one step subtracts the value leaving and adds the value entering |
| GapAnalyzer.SlidingMinIsLeast | MCC-conversion-tracking-monitoring/mcc-conversion-tracking-monitoring.js:1301-1321 | for a window size in 1..n, the sliding minimum is at most every window sum and equals one of them |
| GapAnalyzer.SlidingWindowMin | MCC-conversion-tracking-monitoring/mcc-conversion-tracking-monitoring.js:1301-1321 | the rolling-sum loop returns the brute-force minimum of all window sums, and 0 when the window size is not positive or exceeds the series |
| GapAnalyzer.TrailingZeros | MCC-conversion-tracking-monitoring/mcc-conversion-tracking-monitoring.js:1339-1357 | the open run is non-empty iff the last day has no conversions |
| GapAnalyzer.GapsPositive | MCC-conversion-tracking-monitoring/mcc-conversion-tracking-monitoring.js:1339-1357 | every recorded gap is at least one day |
| GapAnalyzer.GapsSumToZeroDays | MCC-conversion-tracking-monitoring/mcc-conversion-tracking-monitoring.js:1339-1357 | the gaps add up to the number of zero-conversion days |
| GapAnalyzer.GapsCountRuns | MCC-conversion-tracking-monitoring/mcc-conversion-tracking-monitoring.js:1339-1357 | there is one gap per maximal run of zero days, the trailing run included |
| GapAnalyzer.NoGapsIffNoZeroDay | MCC-conversion-tracking-monitoring/mcc-conversion-tracking-monitoring.js:1339-1357 | there are no gaps iff no day has zero conversions |
| GapAnalyzer.GapsExample | MCC-conversion-tracking-monitoring/mcc-conversion-tracking-monitoring.js:1339-1357 | the series 0,0,3,0,0,0,2,0 has the gaps 2, 3 and 1, the trailing run included |
| GapAnalyzer.ConversionTotalIsPlainSum | MCC-conversion-tracking-monitoring/mcc-conversion-tracking-monitoring.js:1347-1351 | summing conversions over non-zero days equals summing them over all days |
| GapAnalyzer.ValueTotalIgnoresZeroDays | MCC-conversion-tracking-monitoring/mcc-conversion-tracking-monitoring.js:1347-1351 | the value total depends only on the values of non-zero days |
| GapAnalyzer.CollectGaps | MCC-conversion-tracking-monitoring/mcc-conversion-tracking-monitoring.js:1331-1357 | the scan loop returns exactly the specified gaps and the totals over non-zero days |
| GapAnalyzer.MaxNat | MCC-conversion-tracking-monitoring/mcc-conversion-tracking-monitoring.js:1377 | the longest gap bounds every gap and is one of them |
| GapAnalyzer.InsertPermutes | MCC-conversion-tracking-monitoring/mcc-conversion-tracking-monitoring.js:1384 | inserting adds exactly one element |
| GapAnalyzer.InsertSorts | MCC-conversion-tracking-monitoring/mcc-conversion-tracking-monitoring.js:1384 | inserting into a sorted list keeps it sorted |
| GapAnalyzer.SortSorts | MCC-conversion-tracking-monitoring/mcc-conversion-tracking-monitoring.js:1384 | the numeric sort is sorted and a permutation of the gaps |
| GapAnalyzer.MedianBetween | MCC-conversion-tracking-monitoring/mcc-conversion-tracking-monitoring.js:1380-1393 | the median (middle element, or the rounded mean of the two middle elements) lies between the shortest and the longest gap |
| GapAnalyzer.MedianExample | MCC-conversion-tracking-monitoring/mcc-conversion-tracking-monitoring.js:1385-1392 | the median of the sorted gaps 1,2,3,4 is `Math.round(2.5)` = 3 |
| GapAnalyzer.Ceil | MCC-conversion-tracking-monitoring/mcc-conversion-tracking-monitoring.js:1399 | `Math.ceil`: the least integer not below the argument |
| GapAnalyzer.RecommendFor | MCC-conversion-tracking-monitoring/mcc-conversion-tracking-monitoring.js:1396-1422 | a recommendation for d days asks for the least count that is at least one and not below the sliding minimum over d days (max(1, ceil)); it carries a value iff the average value per conversion is positive, equal to that average times the minimum |
| GapAnalyzer.Recommend | MCC-conversion-tracking-monitoring/mcc-conversion-tracking-monitoring.js:1396-1422 | computes the specified recommendation through the sliding-window loop |
| GapAnalyzer.NoZeroDaysNoRecommendation | MCC-conversion-tracking-monitoring/mcc-conversion-tracking-monitoring.js:1366-1374 | without zero days both gap figures are 0 and there is no recommendation |
| GapAnalyzer.ConservativeCoversLongestGap | MCC-conversion-tracking-monitoring/mcc-conversion-tracking-monitoring.js:1376-1413 | with a zero day there is a conservative recommendation whose window is the longest gap plus one, longer than every gap, asking for the least admissible count for that window |
| GapAnalyzer.RecommendedNeedsThreeGaps | MCC-conversion-tracking-monitoring/mcc-conversion-tracking-monitoring.js:1381-1424 | the sensitivity recommendation exists iff there are at least three gaps |
| GapAnalyzer.RecommendedWithinConservative | MCC-conversion-tracking-monitoring/mcc-conversion-tracking-monitoring.js:1380-1424 | the sensitivity window is the median gap plus one, with the median between 1 and the longest gap |
| GapAnalyzer.AnalyzeConversionGaps | MCC-conversion-tracking-monitoring/mcc-conversion-tracking-monitoring.js:1331-1427 | the whole analysis returns the specified gap report |
| TrendReport.ResolvedNamedResources | MCC-conversion-tracking-monitoring/mcc-conversion-tracking-monitoring.js:1287-1292 | for a named rule, a resource is charted iff it is an ENABLED catalog entry with that display name |
| TrendReport.ResolvedAllResources | MCC-conversion-tracking-monitoring/mcc-conversion-tracking-monitoring.js:1287-1292 | for the whole-account keyword, a resource is charted iff it is an ENABLED catalog entry |
| TrendReport.DaySumAppend | MCC-conversion-tracking-monitoring/mcc-conversion-tracking-monitoring.js:1440-1452 | a day's sum over two resource lists is the sum of the two sums |
| TrendReport.DaySumAbsent | MCC-conversion-tracking-monitoring/mcc-conversion-tracking-monitoring.js:1443-1452 | resources missing from the day's bucket contribute nothing |
| TrendReport.ColumnsAt | MCC-conversion-tracking-monitoring/mcc-conversion-tracking-monitoring.js:1145-1146 | the conversions and values columns are read position by position from the rows |
| TrendReport.MinConvIsLeast | MCC-conversion-tracking-monitoring/mcc-conversion-tracking-monitoring.js:1454-1461 | the minimum conversion count is at most every day's count and is attained |
| TrendReport.MinValIsLeast | MCC-conversion-tracking-monitoring/mcc-conversion-tracking-monitoring.js:1454-1461 | the minimum value is at most every day's value and is attained |
| TrendReport.SumDay | MCC-conversion-tracking-monitoring/mcc-conversion-tracking-monitoring.js:1440-1452 | the inner loop computes the day's sum over the listed resources |
| TrendReport.SeriesStep | MCC-conversion-tracking-monitoring/mcc-conversion-tracking-monitoring.js:1439-1458 | one date more: the new row is that day's sum over the listed resources, earlier rows are kept, and the running minima take the new row into account |
| TrendReport.BuildDailySeries | MCC-conversion-tracking-monitoring/mcc-conversion-tracking-monitoring.js:1433-1464 | one row per date in order, each the day's sum over the listed resources; the minima are the minima of the rows, and 0 for an empty date list |
| TrendReport.BuildTrendBlock | MCC-conversion-tracking-monitoring/mcc-conversion-tracking-monitoring.js:1131-1146 | the block's series is the daily series of the rule's resources, and a gap analysis of its two columns is attached iff the minimum daily conversion count is 0 |
| TrendReport.LowVolumeGetsRecommendation | MCC-conversion-tracking-monitoring/mcc-conversion-tracking-monitoring.js:1139-1148 | when a series has a zero-conversion day, its gap analysis carries a conservative recommendation |
| TrendReport.ReplaceForbidden | MCC-conversion-tracking-monitoring/mcc-conversion-tracking-monitoring.js:1094 | each of `* : / \ ? [ ]` becomes a space and every other character is kept |
| TrendReport.SafeSheetName | MCC-conversion-tracking-monitoring/mcc-conversion-tracking-monitoring.js:1094-1101 | the name with forbidden characters replaced and trimmed, cut to what the prefix leaves of 100 characters; the prefixed sheet name fits and holds no forbidden character |
| TrendReport.CleanNameKept | MCC-conversion-tracking-monitoring/mcc-conversion-tracking-monitoring.js:1094-1101 | a short, clean, trimmed account name is used unchanged |
| TrendReport.TrendAccounts | MCC-conversion-tracking-monitoring/mcc-conversion-tracking-monitoring.js:1081-1086 | an account gets a trend sheet iff it is in the account order, reachable, and has an enabled rule |
| Monitor.RulesForBelong | MCC-conversion-tracking-monitoring/mcc-conversion-tracking-monitoring.js:922-926 | an account's group holds only its own rules and is empty iff it has none |
| Monitor.GroupByAccount | MCC-conversion-tracking-monitoring/mcc-conversion-tracking-monitoring.js:922-926 | the grouping has a key for exactly the accounts with a rule, each mapped to that account's rules in configuration order |
| Monitor.FirstIndex | MCC-conversion-tracking-monitoring/mcc-conversion-tracking-monitoring.js:119-124 | the index of the first occurrence of an id |
| Monitor.DedupDistinct | MCC-conversion-tracking-monitoring/mcc-conversion-tracking-monitoring.js:119-124 | the account order lists no account twice and exactly the accounts of the rules |
| Monitor.DedupFirstSeenOrder | MCC-conversion-tracking-monitoring/mcc-conversion-tracking-monitoring.js:119-124 | accounts appear in the order of their first rule |
| Monitor.IdsOf | MCC-conversion-tracking-monitoring/mcc-conversion-tracking-monitoring.js:121 | one normalised id per rule, in order |
| Monitor.AccountOrder | MCC-conversion-tracking-monitoring/mcc-conversion-tracking-monitoring.js:119-124 | the `seen` loop computes the deduplicated id list |
| Monitor.OrderedAccountsHaveRules | MCC-conversion-tracking-monitoring/mcc-conversion-tracking-monitoring.js:119-124 | with parsed (digit-only) ids, every account in the order has a group of rules |
| Monitor.ReachablePartition | MCC-conversion-tracking-monitoring/mcc-conversion-tracking-monitoring.js:138-140 | every account in the order is either processed or reported, never both, and the two lists together are as long as the order |
| Monitor.ReportUnreachable | MCC-conversion-tracking-monitoring/mcc-conversion-tracking-monitoring.js:401-438 | one ERROR row per unreachable account, in order, with the formatted id and the first rule's customer name, or the empty name |
| Monitor.UnreachableIdReadsBack | MCC-conversion-tracking-monitoring/mcc-conversion-tracking-monitoring.js:407 | the id printed on an unreachable row normalises back to the account |
| Monitor.ValidDaysAgree | MCC-conversion-tracking-monitoring/mcc-conversion-tracking-monitoring.js:158-159 | the window sizes collected from the valid rules are exactly the valid rules' days |
| Monitor.CheckAccount | MCC-conversion-tracking-monitoring/mcc-conversion-tracking-monitoring.js:145-366 | one query per distinct valid window size, ascending, and the result rows are the evaluation of the account's rules against the cache of those windows and the catalog's name index |
| Monitor.RuleReadsOwnWindow | MCC-conversion-tracking-monitoring/mcc-conversion-tracking-monitoring.js:293 | a rule with valid days is measured against the aggregate of its own window's report |

## Left out

- Google Sheets input and output are not modelled: the settings sheet, the results sheet, row shading, trend tabs and charts are external services. Settings rows enter as `RawRow` cells and results leave as `ResultRow` values, without timestamps, notes or raw-text columns.
- The Ads API is not modelled: `AdsApp.report`, `AdsManagerApp.select`, account iteration and `reportWithRetry` are foreign calls with retries and sleeps. The conversion catalog and the report rows are parameters (`meta`, `rowsFor`, `daily`), and the set of reachable accounts is a parameter of `Monitor.Reachable`.
- `dateRange` and `buildDateList` are not modelled, because they depend on the clock and time zones. The date list is an input sequence.
- `round2` and floating point are not modelled: numbers are exact reals, so series rows and the gap analysis use unrounded sums. `toNum` (`parseFloat` after the comma-to-point change) is a function parameter `string -> Option<real>`, where `None` stands for NaN. `parseInt` is modelled exactly.
- Email is not modelled: `writeStatusEmail`, `emailBodyTable`, the 200-row email cut-off and the all-clear flag only format and send the lists that `EvaluateAccount` and `ReportUnreachable` build.
- `parseRecommendation` and the recommendation strings are not modelled. Recommendations are records `(days, minConv, Option<value>)`.
- Logging is not modelled.
- The per-account `try/catch`, which turns an API failure into an ERROR row, is not modelled: with API calls as parameters nothing in the model can throw.
- Cells are `Blank` or `Text`: JavaScript `null`, `undefined` and `''` are all `Blank`, and numeric cells enter as their text. Lower-casing covers ASCII only. String lengths count characters, not UTF-16 code units.
- RuleValidator.ParseRuleRow: a numeric `0` or a `FALSE` id cell is falsy in JavaScript, so `if (!r[idx.id]) continue` skips that row; cells are modelled by their text, where `"0"` is not blank, so the model keeps such a row with id `"0"`.
- ThresholdEvaluator.ResultRow: result and e-mail rows show `r.name || acc.getName()` as the customer name; the account's own name comes from the Ads API, so a row carries only the rule and its evaluation, and the fallback is not modelled.
- RuleValidator.ValidateDays: a cell holding only whitespace is invalid, as in the script, because `parseInt` of the empty string is NaN.
- WindowAggregator.Aggregate: JavaScript objects are modelled as dictionaries without a prototype. A conversion action whose display name is an inherited property such as `toString` or `__proto__` (where `by[n]` in `aggregate` finds the inherited value instead of creating an entry), or a rule named after an inherited property in `resolveResourcesForRule` (which returns the inherited function, so `for (const res of resources)` in `buildDailySeries` throws a TypeError and the `try` around `generateTrendReport` abandons the trend report for that rule and every later one), or an ENABLED action whose display name is such a property in `buildEnabledResourcesByName` (where `if (!map[name])` finds the inherited value, so `map[name].push(res)` throws a TypeError and the same `try` abandons the whole trend report), is not modelled. The one such case that reaches a result row is under Findings.
- WindowAggregator.UniqueDays: the ascending order follows from integer-key enumeration of objects; `Object.keys(...).map(Number)` is not modelled as a string round trip.
- GapAnalyzer.AnalyzeConversionGaps: `valueData` may be shorter than the series. Missing values read as 0, matching `|| 0` in the script.
- The trend report's loop over accounts and rules is modelled per rule (`BuildTrendBlock`) plus the account filter (`TrendAccounts`). Sheet writes between blocks are left out.
- The top-level loop over reachable accounts is modelled per account (`Monitor.CheckAccount`). Accounts are independent, since each reads only its own rules, catalog and reports.

## Findings

| source | as written | input that shows it | evidently intended | confidence | as-written member | corrected member |
|---|---|---|---|---|---|---|
| MCC-conversion-tracking-monitoring/mcc-conversion-tracking-monitoring.js:300-306 | `stats.byName[r.convName]` is a plain-object lookup, so a name such as `toString` finds the function inherited from `Object.prototype`; `entry.conv` is then `undefined`, every `<` comparison with it is false, and the rule is reported OK | an enabled rule with valid inputs, conversion name `toString` that the account does not have, and a positive minimum conversion count | a conversion the account does not have is reported as ERROR | not executed | ThresholdEvaluator.InheritedNameReportedOk | ThresholdEvaluator.EvaluateErrorIff |
