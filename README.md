# Defect analytics core, modelled in Dafny

This project models the analytics core of a car-plant defect dashboard. It
covers two source files.

- `src/utils/utils.ts` holds the anomaly detection engine. It has three
  detectors: z-score on `severityRating`, IQR on `resolutionTime`, and
  value frequency on any field. A dispatcher, `autoFlagAnomalies`, selects a
  detector by its catalogue name and turns each flagged record into an
  anomaly observation. The same file holds the chart figures:
  - the five most common defect categories;
  - defect rates per car model, broken down by motor type and by design
    package;
  - each model's, motor type's and design package's share of all defects;
  - the defects of one assembly station.
- `src/utils/metrics.ts` holds `calculateDefectMetrics`. It groups and counts
  a batch of defect records field by field. From those tables it derives
  averages, distributions, the most common defect per station and
  root-cause percentages.

Modules, in dependency order:

- `Tally` (`tally.dfy`) holds the building blocks. These are filtering,
  counting and distinct values. It also holds JavaScript objects used as
  dictionaries, modelled as `Dict`: keys in insertion order plus a map.
  A frequency table (`CountTable`) lives here too.
- `Records` (`records.dfy`) holds the `Defect` and `Anomaly` shapes. It also
  models `defect[field]`, `String(v)`, `Number(s)` and ASCII `toLowerCase`.
- `Stats` (`stats.dfy`) holds mean, population variance and percentages. It
  proves Samuelson's inequality: no value lies more than `sqrt(n - 1)`
  standard deviations from the mean.
- `Sorting` (`sorting.dfy`) has two sorts. The numeric ascending sort is an
  in-place insertion sort on an array. The descending sort orders entries by
  count and is stable.
- `Detectors` (`detectors.dfy`) holds the three detectors and the dispatcher.
- `Charts` (`charts.dfy`) holds the chart figures of `utils.ts`.
- `Metrics` (`metrics.dfy`) holds `calculateDefectMetrics` and its helpers.

The source's loops become methods, each proved equal to a specification
function: `forEach` that fills a frequency map, `reduce` that builds a group
map, `push` loops and the in-place sort. The properties are proved about
those functions.

The frequency detector cannot flag one station that holds 80% of 20 records
spread over four stations with `controlValue = 2`.
`Detectors.FrequencyWideMultiplier` proves that with `m` distinct values and
`k * k >= m - 1`, nothing is flagged. `Detectors.FewValuesDefaultMultiplier`
is the case of at most five values and the default multiplier 2.

## Model

| member | source | states |
|---|---|---|
| Records.Field | src/utils/utils.ts:259 | `defect[field]` is a number exactly for the four numeric fields, a string exactly for the twelve string fields, and `undefined` for any other name |
| Records.Stringify | src/utils/metrics.ts:44 | a string stringifies to itself, and a number to a string that `Number` reads back as that number |
| Records.ToNumber | src/utils/metrics.ts:63 | a string with a non-digit after its first place reads as NaN, and one without a leading minus never reads as a negative number |
| Records.NatToStringRoundTrip | src/utils/utils.ts:259 | reading the decimal digits of a non-negative integer's string gives the integer back |
| Records.IntToStringRoundTrip | src/utils/metrics.ts:60-66 | `Number(String(n))` is `n` for every integer, so a numeric group key reads back as the value it came from |
| Records.IntToStringInjective | src/utils/metrics.ts:42-48 | different integers give different keys, so grouping a numeric field never merges two values |
| Records.Lower | src/utils/metrics.ts:122-125 | the result has the input's length and no upper-case ASCII letter; each character is unchanged or is an upper-case letter moved to lower case |
| Records.LowerIdempotent | src/utils/utils.ts:514-520 | lowering a lowered string changes nothing |
| Records.TextKeys | src/utils/metrics.ts:42-48 | a string field's key is the field's own text |
| Records.NumberKeys | src/utils/metrics.ts:42-48 | a numeric field's key is its decimal string |
| Records.KeysOf | src/utils/metrics.ts:44 | one key per record, in record order, each the stringified field |
| Records.CountPrefixStep | src/utils/utils.ts:168-171 | counting one more record ticks its key's count in the frequency table |
| Records.GroupOfSize | src/utils/metrics.ts:42-48 | the records with a given key number as many as that key's occurrences |
| Records.GroupOfMembers | src/utils/metrics.ts:42-48 | a record is in a key's group iff it is in the batch with that key; the group keeps input order |
| Tally.FilterMembership | src/utils/utils.ts:190-193 | a filter keeps exactly the elements that satisfy the predicate |
| Tally.FilterIsSubsequence | src/utils/utils.ts:190-193 | a filter's result is a subsequence of its input: order kept, nothing added |
| Tally.FilterExtremes | src/utils/utils.ts:138-142 | a predicate no element meets gives `[]`; one every element meets gives the input |
| Tally.FilterShorter | src/utils/utils.ts:138-142 | a predicate some element fails gives a strictly shorter result |
| Tally.FilterOne | src/utils/utils.ts:138-142 | a predicate met only at position `j` gives exactly `[xs[j]]` |
| Tally.SelectIsFilter | src/utils/utils.ts:101-103 | keeping positions by a per-index flag equals filtering by the predicate the flag computes |
| Tally.Count | src/utils/utils.ts:170 | an occurrence count is at most the length and is positive iff the key occurs |
| Tally.Distinct | src/utils/utils.ts:174 | the distinct keys have no duplicate and hold exactly the keys that occur |
| Tally.DistinctSnoc | src/utils/utils.ts:168-171 | a new key goes at the end of the distinct keys; a known key changes nothing |
| Tally.SumCountsDistinct | src/utils/utils.ts:174-178 | the counts of the distinct keys add up to the number of records |
| Tally.SumCountsBound | src/utils/utils.ts:354-379 | the counts of distinct keys add up to at most the number of records, and to exactly that when they cover every key |
| Tally.CountTable | src/utils/utils.ts:165-175 | the frequency table is empty iff the batch is empty |
| Tally.CountTableSnoc | src/utils/utils.ts:168-171 | counting one more key is one `(map[k] \|\| 0) + 1` step |
| Tally.CountTableMeaning | src/utils/utils.ts:165-171 | the table's keys are the distinct keys in first-appearance order, and each count is that key's number of occurrences |
| Tally.Entries | src/utils/utils.ts:285-287 | `Object.entries` lists one entry per key, in key order, with its count |
| Tally.PutNew | src/utils/metrics.ts:45 | storing a new key appends it to the key order |
| Tally.PutTwice | src/utils/metrics.ts:45-46 | storing twice under one key keeps the second value and the first key position |
| Tally.PutSame | src/utils/metrics.ts:53 | storing a key's own value changes nothing |
| Tally.PutAllKeys | src/utils/metrics.ts:94-104 | storing one value under each of a list of distinct keys lists those keys once each, in order |
| Tally.PutAllAt | src/utils/metrics.ts:94-104 | every stored key holds the value computed for it |
| Stats.Mean | src/utils/utils.ts:67-68 | `n` copies of the mean add up to the sum of the `n` values |
| Stats.SumSquaresNonNegative | src/utils/utils.ts:68-70 | a sum of squares is never negative |
| Stats.Variance | src/utils/utils.ts:181-184 | the population variance is never negative, so its square root exists |
| Stats.DeviationsFromMeanCancel | src/utils/utils.ts:67-70 | the deviations from the mean add up to zero |
| Stats.ConstantStatistics | src/utils/utils.ts:72-76 | equal values have their common value as mean and zero variance |
| Stats.Samuelson | src/utils/utils.ts:177-187 | every value's squared deviation from the mean is at most `(n - 1)` times the variance |
| Stats.NoneExceedsWideMultiplier | src/utils/utils.ts:186-192 | when `k * k >= n - 1`, no value lies more than `k` standard deviations above the mean |
| Stats.ExceedsScaledRootAgrees | src/utils/utils.ts:184-192 | the squared comparison the model uses agrees with `d > k * sqrt(variance)` for any non-negative root |
| Stats.AbsExceedsAgrees | src/utils/utils.ts:102 | comparing the squared z-score agrees with `Math.abs(z) > threshold` |
| Stats.PercentBounds | src/utils/utils.ts:435 | `part / whole * 100` lies in [0, 100] when `part <= whole`, and is 0 iff `part` is 0 |
| Stats.PercentAdd | src/utils/utils.ts:435 | the percentages of two parts of one whole add up to the percentage of their sum |
| Stats.MeanBetween | src/utils/metrics.ts:37-40 | the mean lies between any lower and upper bound of the values |
| Sorting.SortAscSpec | src/utils/utils.ts:127 | the numeric sort is ascending and a permutation of its input |
| Sorting.InsertLast | src/utils/utils.ts:127 | one insertion step puts `a[i]` into the sorted prefix and leaves the rest of the array alone |
| Sorting.SortInPlace | src/utils/utils.ts:127 | sorting the array in place leaves the ascending arrangement of its old contents |
| Sorting.SortDescSpec | src/utils/utils.ts:290-291 | the count sort is non-increasing and a permutation of its input |
| Sorting.FirstMax | src/utils/metrics.ts:101 | the chosen index has the largest count, and every earlier entry has a strictly smaller one |
| Sorting.SortDescHead | src/utils/metrics.ts:101 | the stable count sort puts first the earliest entry of largest count |
| Sorting.EntryOfTable | src/utils/utils.ts:284-287 | every listed entry names a key of the batch with its exact count |
| Sorting.TableHasEntry | src/utils/utils.ts:284-287 | every key of the batch is listed with its exact count |
| Sorting.SortedTableSpec | src/utils/utils.ts:284-291 | the sorted table lists each distinct key exactly once, with its count, by non-increasing count; no two entries share a key |
| Detectors.Severities | src/utils/utils.ts:97 | one severity per record, in record order |
| Detectors.ZSquareAgrees | src/utils/utils.ts:78 | the squared z-score equals the square of `(x - mean) / stdDev` |
| Detectors.ZScoreSquares | src/utils/utils.ts:66-79 | one squared z-score per value |
| Detectors.DetectByZScore | src/utils/utils.ts:89-104 | any field other than `severityRating` gives `[]`; at most every record is flagged |
| Detectors.ZScoreAsFilter | src/utils/utils.ts:97-103 | the index-based filter is a filter by "squared z-score above the threshold", so it keeps input order |
| Detectors.ZFlagAgrees | src/utils/utils.ts:102 | the squared test flags a record iff `Math.abs((x - mean) / stdDev) > threshold` |
| Detectors.ZScoreMeaning | src/utils/utils.ts:66-104 | a record is flagged iff it is in the batch and its severity's \|z-score\| exceeds the threshold |
| Detectors.ZScoreUniform | src/utils/utils.ts:72-76 | equal severities are never flagged for a non-negative threshold: all z-scores are 0 |
| Detectors.ResolutionTimes | src/utils/utils.ts:122-124 | one resolution time per record, in record order |
| Detectors.DetectByIQR | src/utils/utils.ts:118-143 | the method computes the IQR outliers: `[]` for another field or an empty batch, otherwise the records whose time lies outside the fences of the sorted times |
| Detectors.FencesAroundQuartiles | src/utils/utils.ts:130-136 | `Q1 <= Q3`, and the fences lie outside `[Q1, Q3]` |
| Detectors.IqrMeaning | src/utils/utils.ts:138-142 | a record is flagged iff it is in the batch and its time lies outside the fences; order is kept |
| Detectors.IqrNeverFlagsAll | src/utils/utils.ts:130-142 | a non-empty batch always keeps at least one record unflagged |
| Detectors.IqrSingleSlowRecord | src/utils/utils.ts:118-143 | nine records at time 5 and one at 500 flag exactly the slow record |
| Detectors.Frequencies | src/utils/utils.ts:174 | one frequency per table key, in key order, each that key's count |
| Detectors.DetectByFrequency | src/utils/utils.ts:160-196 | the method returns the records whose value is more frequent than `mean + k * stdDev` of the frequencies |
| Detectors.FrequenciesAreCounts | src/utils/utils.ts:165-175 | the frequencies are the counts of the distinct values, and they are empty iff the batch is |
| Detectors.FrequencyIsSubsequence | src/utils/utils.ts:190-193 | the flagged records keep input order |
| Detectors.TooFrequentAgrees | src/utils/utils.ts:184-192 | the squared test agrees with `count > mean + k * stdDev` for any non-negative root of the variance |
| Detectors.FrequencyMeaning | src/utils/utils.ts:177-193 | a record is flagged iff it is in the batch and its value's count exceeds `mean + k * stdDev` |
| Detectors.FrequencyUniform | src/utils/utils.ts:177-193 | when all values are equally frequent, nothing is flagged |
| Detectors.UniformNotTooFrequent | src/utils/utils.ts:177-192 | with equally frequent values, each record's count equals the mean count and the variance is 0, so no record is too frequent |
| Detectors.NotTooFrequentWide | src/utils/utils.ts:186-192 | when `k * k >= m - 1`, no record of the batch is too frequent |
| Detectors.FrequencyWideMultiplier | src/utils/utils.ts:177-193 | with `m` distinct values and `k * k >= m - 1`, nothing is flagged |
| Detectors.FewValuesDefaultMultiplier | src/utils/utils.ts:163 | with the default multiplier 2 and at most five distinct values, nothing is flagged |
| Detectors.StrategyNamed | src/utils/utils.ts:222-244 | a name selects the strategy of that name, and no strategy when none has it |
| Detectors.StrategyNamedName | src/pages/defects/components/defectsDataTable.tsx:139-166 | each catalogue entry is selected by its own name |
| Detectors.RunDetector | src/utils/utils.ts:222-238 | runs the selected detector: frequency on the requested field, z-score always on `severityRating`, IQR always on `resolutionTime` |
| Detectors.DescribeAll | src/utils/utils.ts:247-262 | one anomaly per flagged record, in order, each describing its record |
| Detectors.AutoFlagAnomalies | src/utils/utils.ts:212-266 | an unknown name gives no anomalies; otherwise one anomaly per flagged record, in order, each describing its record |
| Detectors.FlaggedIsSubsequence | src/utils/utils.ts:222-238 | whichever detector runs, the flagged records keep input order |
| Detectors.SuspectedValueReadsBack | src/utils/utils.ts:259 | a numeric suspected value reads back, through `Number`, as the record's field value |
| Charts.Top5MostCommonDefects | src/utils/utils.ts:273-295 | the method returns the sorted category table cut after five entries |
| Charts.TopCategoriesSpec | src/utils/utils.ts:284-294 | the result holds `min(5, #categories)` entries by non-increasing count, each with its exact count, and no left-out category outnumbers a kept one; no category is listed twice |
| Charts.TopFiveOfTable | src/utils/utils.ts:290-294 | cutting a sorted frequency table after five entries keeps `min(5, #keys)` entries by non-increasing count, each with its exact count, and no left-out key outnumbers a kept one; no key is listed twice |
| Charts.TablePrefix | src/utils/utils.ts:290-294 | a prefix of a count table that lists every key once, by non-increasing count, keeps those properties and keeps the most frequent keys |
| Charts.DefectRatesPerModel | src/utils/utils.ts:340-402 | one entry per catalogue model, in catalogue order, each that model's rates |
| Charts.RateSumIsRate | src/utils/utils.ts:383-397 | the rates of several catalogue items add up to the rate of their combined count |
| Charts.RateBounds | src/utils/utils.ts:388 | a rate lies in [0, 100], and is 0 for a model with no defects |
| Charts.CatalogueRates | src/utils/utils.ts:387-397 | the rates of distinct catalogue items add up to at most 100 |
| Charts.HavingSize | src/utils/utils.ts:349-351 | the records of a model number as many as that model's occurrences |
| Charts.ThreeCounts | src/utils/utils.ts:354-364 | the counts of three different motor types add up to at most the model's defects |
| Charts.FourCounts | src/utils/utils.ts:367-379 | the counts of four different design packages add up to at most the model's defects |
| Charts.ThreeRates | src/utils/utils.ts:387-391 | three motor-type rates are non-negative and add up to at most 100 |
| Charts.FourRates | src/utils/utils.ts:392-397 | four design-package rates are non-negative and add up to at most 100 |
| Charts.MotorRatesSpec | src/utils/utils.ts:354-391 | each motor-type rate is its count's share of the model's defects, all 0 for no defects, and together at most 100 |
| Charts.PackageRatesSpec | src/utils/utils.ts:367-397 | each design-package rate is its count's share of the model's defects, all 0 for no defects, and together at most 100 |
| Charts.RatesForSpec | src/utils/utils.ts:347-398 | a model's entry names it, totals its defects, and carries its motor-type and design-package rates |
| Charts.ShareOfTotal | src/utils/utils.ts:426-438 | the method returns one point per catalogue item, or `[]` for an empty batch |
| Charts.ModelDefectRate | src/utils/utils.ts:421-439 | shares of the five catalogue car models |
| Charts.MotorTypeDefectRate | src/utils/utils.ts:446-464 | shares of the three motor types |
| Charts.PackageDefectRate | src/utils/utils.ts:471-489 | shares of the four design packages |
| Charts.TotalValueIsRateSum | src/utils/utils.ts:432-437 | the points' values add up to the summed rate of the catalogue |
| Charts.SharesSpec | src/utils/utils.ts:421-439 | an empty batch gives `[]`; otherwise point `i` has id `i`, the `i`th label and that item's percentage of all defects, in [0, 100], and the values add up to at most 100 |
| Charts.ValidStations | src/utils/utils.ts:502-514 | the accepted stations are the eleven station names, lower-cased |
| Charts.Summaries | src/utils/utils.ts:521-526 | one `{ id, resolutionTime }` per record, in order |
| Charts.DefectsPerStation | src/utils/utils.ts:499-529 | the method returns the station report |
| Charts.ReportSpec | src/utils/utils.ts:499-529 | the report echoes the station; an unknown station gets no defects; a known one gets exactly its records, compared ignoring case, in input order |
| Charts.ReportIgnoresCase | src/utils/utils.ts:518-520 | asking in lower case gives the same defects |
| Metrics.Numbers | src/utils/metrics.ts:38 | keeping the numbers never lengthens the list, and keeps nothing exactly when no entry is a number |
| Metrics.Average | src/utils/metrics.ts:37-40 | the average is 0 when no entry is a number |
| Metrics.NumbersOfNumbers | src/utils/metrics.ts:38 | a list of numbers is kept whole, in order |
| Metrics.NumbersBetween | src/utils/metrics.ts:38 | kept numbers stay within the bounds of the input's numbers, and some are kept when the input has one |
| Metrics.AverageSpec | src/utils/metrics.ts:37-40 | the average is 0 when there is no number, and otherwise lies between the numbers' bounds |
| Metrics.Column | src/utils/metrics.ts:58 | one number per record, in order |
| Metrics.ColumnAverage | src/utils/metrics.ts:58 | the average of a non-empty column is the mean of its values |
| Metrics.GroupTable | src/utils/metrics.ts:42-48 | the grouping is empty iff the batch is empty |
| Metrics.GroupPrefixStep | src/utils/metrics.ts:43-47 | grouping one more record appends it to its key's list |
| Metrics.AddToGroup | src/utils/metrics.ts:45-46 | creating the list on first sight and pushing equals appending to the key's list |
| Metrics.GroupBy | src/utils/metrics.ts:42-48 | the method returns the grouping of the batch |
| Metrics.GroupTableKeys | src/utils/metrics.ts:42-48 | the grouping's keys are the distinct values in first-appearance order |
| Metrics.GroupTableGroup | src/utils/metrics.ts:42-48 | each key's list holds the records with that value, in input order |
| Metrics.GroupTableMeaning | src/utils/metrics.ts:42-48 | both of the above at once |
| Metrics.GroupPartition | src/utils/metrics.ts:42-48 | each record is in its own value's group and in no other; groups keep input order |
| Metrics.TotalSizeIsSumCounts | src/utils/metrics.ts:42-48 | the sizes of listed groups add up to the listed keys' counts |
| Metrics.GroupSizesTotal | src/utils/metrics.ts:42-48 | the group sizes add up to the batch length |
| Metrics.ResetThenIncrement | src/utils/metrics.ts:53-54 | resetting a missing or zero count and then incrementing is one tick |
| Metrics.CountOne | src/utils/metrics.ts:52-54 | one count step ticks the value's count |
| Metrics.CountBy | src/utils/metrics.ts:50-56 | the method returns the frequency table of the field |
| Metrics.CountsAreGroupSizes | src/utils/metrics.ts:150-153 | counting a field gives the group sizes: same keys, same order, each count its group's size |
| Metrics.TotalCountIsSumCounts | src/utils/metrics.ts:50-56 | the listed counts add up to the listed keys' occurrences |
| Metrics.CountsTotal | src/utils/metrics.ts:50-56 | the counts add up to the batch length |
| Metrics.Averages | src/utils/metrics.ts:68-87 | one average per group |
| Metrics.AveragesSpec | src/utils/metrics.ts:68-87 | entry `i` names the `i`th distinct value and averages exactly its records, a non-empty group |
| Metrics.SeverityAveragesKeys | src/utils/metrics.ts:61-66 | each entry carries `Number(key)` for its group key, in key order |
| Metrics.SeverityAverages | src/utils/metrics.ts:60-66 | one entry per severity group |
| Metrics.SeverityResolutionSpec | src/utils/metrics.ts:60-66 | each per-severity entry carries the mean resolution time of exactly its severity's records, a non-empty group |
| Metrics.RatingOfKey | src/utils/metrics.ts:60-63 | a severity key is the string of a rating in the batch and reads back as that rating |
| Metrics.KeyOfRating | src/utils/metrics.ts:60-63 | every rating of the batch has a key that reads back as it |
| Metrics.DistinctKeysDistinctRatings | src/utils/metrics.ts:60-63 | two different severity keys read back as two different ratings |
| Metrics.EntriesAreRatings | src/utils/metrics.ts:60-66 | every per-severity entry carries a rating of the batch |
| Metrics.RatingsHaveEntries | src/utils/metrics.ts:60-66 | every rating of the batch has an entry |
| Metrics.EntriesDistinct | src/utils/metrics.ts:60-66 | no rating has two entries |
| Metrics.SeverityKeysReadBack | src/utils/metrics.ts:60-66 | the three above, for the severity grouping of a batch |
| Metrics.ModelAveragesOf | src/utils/metrics.ts:168-174 | one summary per model group |
| Metrics.ModelAveragesSpec | src/utils/metrics.ts:168-174 | summary `i` names the `i`th car model and carries the mean severity and the mean resolution time of exactly that model's records |
| Metrics.MostCommonDefect | src/utils/metrics.ts:97-102 | the method returns the most common defect name of the list |
| Metrics.TopIndexSpec | src/utils/metrics.ts:101 | the chosen name is most frequent, and every name seen before it is strictly less frequent |
| Metrics.TopOfHead | src/utils/metrics.ts:101 | the head of the sorted table is that name |
| Metrics.TopNameSpec | src/utils/metrics.ts:96-102 | "N/A" for no records; otherwise the first-seen name of largest frequency, or "N/A" when that name is empty |
| Metrics.TopNamesStep | src/utils/metrics.ts:96-103 | visiting one more station stores its most common defect |
| Metrics.MostCommonPerStation | src/utils/metrics.ts:94-104 | the method returns the reduce over the station groups |
| Metrics.TopNamesKeys | src/utils/metrics.ts:94-104 | the station map lists the visited stations once each, in order |
| Metrics.TopNamesAt | src/utils/metrics.ts:94-104 | each visited station maps to its group's most common defect |
| Metrics.RootCauseShares | src/utils/metrics.ts:127-137 | one entry per defect-name group |
| Metrics.RootCausePercent | src/utils/metrics.ts:122-125 | the percentage is NaN exactly for an empty batch, and otherwise lies in [0, 100] |
| Metrics.RootCauseSharesSpec | src/utils/metrics.ts:127-137 | one entry per distinct defect name, in first-appearance order, each the share of that name's records answered "yes", in [0, 100] and never NaN |
| Metrics.CohortsSpec | src/utils/metrics.ts:139-148 | the cohorts hold exactly the records answered "yes" and "no", ignoring case; no record is in both |
| Metrics.CalculateDefectMetrics | src/utils/metrics.ts:36-200 | the method returns the metrics of the batch, figure by figure |
| Metrics.ModelSummaryRepeats | src/utils/metrics.ts:168-174 | the per-model summary repeats the per-model severity averages, model by model |
| Metrics.MetricsAgree | src/utils/metrics.ts:150-174 | rates per model equal counts per model, reports per reporter equal the reporter counts, and the model summary repeats the severity averages |
| Metrics.MostCommonPerStationSpec | src/utils/metrics.ts:94-104 | the station map names every station once, in first-appearance order, each with its most common defect |
| Metrics.ExampleYesCohort | src/utils/metrics.ts:139-143 | in the example batch the "yes" cohort is its first two records |
| Metrics.ExampleNoCohort | src/utils/metrics.ts:144-148 | in the example batch the "no" cohort is its last three records |
| Metrics.ExampleYesAverage | src/utils/metrics.ts:139-143 | the example's "yes" average is 3 |
| Metrics.ExampleNoAverage | src/utils/metrics.ts:144-148 | the example's "no" average is 8 |
| Metrics.RootCauseExample | src/utils/metrics.ts:122-148 | answers yes, Yes, no, NO, No with times 2 to 10 give 40 percent identified, 3 and 8 |

## Left out

- `formatDate` is not modelled: dates and the clock are outside the model. `searchDefects` is commented out in the source.
- The fetch APIs, the React pages and `script.js` are not part of this model.
- Detectors.AutoFlagAnomalies: the anomaly's random `id` and its flagging date and time are left out, because they are randomness and the clock. The model returns the list instead of awaiting the callback, and it drops `console.warn`.
- The `console.log` calls in the z-score detector and in `defectsPerStation` are left out.
- Floating point is modelled by exact reals. `Math.sqrt` never appears: each comparison against a standard deviation is stated in squared form. `Stats.ExceedsScaledRootAgrees`, `Stats.AbsExceedsAgrees` and `Detectors.ZFlagAgrees` prove the squared form equal to the square-root form for any non-negative root.
- NaN is modelled only where the source's result can be NaN: `percentRootCauseIdentified` of an empty batch. The z-score and IQR detectors return `[]` for an empty batch at once. The JavaScript reaches the same `[]` by filtering an empty list through NaN bounds.
- Numeric record fields are whole numbers. `String(n)` and `Number(s)` are modelled for decimal integers only.
- `toLowerCase` is modelled for ASCII letters only. `rootCauseIdentified?.` treats a missing answer as in neither cohort; the model's records always carry a string.
- JavaScript enumerates integer-like object keys first, in ascending numeric order. The model keeps every key in insertion order. This changes the order of every table keyed by integer-like values, such as the per-severity entries and `severityDistribution`. Through the stable sorts it can also change two tie-breaks: which of several equally frequent categories survives the cut after five (`src/utils/utils.ts:290-292`), and which of several equally frequent names is the most common defect of a station (`src/utils/metrics.ts:101`).
- Objects used as dictionaries are modelled as empty maps. In the source they inherit from `Object.prototype`, which changes the result for the keys `"__proto__"`, `"constructor"`, `"toString"`, `"valueOf"`, `"hasOwnProperty"` and the other inherited names. `groupBy` (`acc[value].push` on an inherited function) throws a TypeError. `countBy`'s `acc[val]++` gives NaN, and `(map[v] || 0) + 1` (`src/utils/utils.ts:170`, `src/utils/utils.ts:281`, `src/utils/metrics.ts:99`) concatenates a string. `"__proto__"` never becomes a key. The model gives these keys the same counts and groups as any other string. This affects Metrics.GroupBy, Metrics.CountBy, Metrics.MostCommonDefect, Detectors.DetectByFrequency and Charts.Top5MostCommonDefects.
- A `groupBy` or `countBy` on a name that is not a field throws in the source (`undefined.toString()`). `calculateDefectMetrics` only uses declared field names, so that path is not modelled.
- Detectors.DetectByZScore: its own contract states only the field guard and a length bound. What it flags is stated by `Detectors.ZScoreMeaning`.
- Metrics.Averages, Metrics.SeverityAverages, Metrics.ModelAveragesOf and Metrics.RootCauseShares: their own contracts state only the length. What the entries hold is stated by `Metrics.AveragesSpec`, by `Metrics.SeverityKeysReadBack` and `Metrics.SeverityResolutionSpec`, by `Metrics.ModelAveragesSpec`, and by `Metrics.RootCauseSharesSpec`.
- Metrics.Average: its own contract states only the case without numbers. `Metrics.AverageSpec` bounds the other case, and `Metrics.ColumnAverage` makes it the mean.
- Records.ToNumber: its contract states the NaN case and the sign only. `Records.IntToStringRoundTrip` states the value it reads from every string that `String` produces.
