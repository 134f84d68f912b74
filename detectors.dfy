/** The anomaly detection engine: three detectors that each return the records
 *  they judge anomalous, in input order, and the dispatcher that turns the
 *  flagged records of the selected detector into anomaly observations. */
module Detectors {
  import opened Tally
  import opened Records
  import opened Stats
  import opened Sorting

  // ---------------------------------------------------------------------------
  // Z-score detector, hard-wired to `severityRating`
  // ---------------------------------------------------------------------------

  /** `defects.map((defect) => defect.severityRating)` */
  function Severities(defects: seq<Defect>): (xs: seq<real>)
    ensures |xs| == |defects|
    ensures forall i :: 0 <= i < |xs| ==> xs[i] == defects[i].severityRating as real
  {
    seq(|defects|, i requires 0 <= i < |defects| => defects[i].severityRating as real)
  }

  /** The z-score of `x` for mean `m` and standard deviation `s`, and 0 when
   *  `s` is 0 (the reference definition, with the root given). */
  function ZOf(x: real, m: real, s: real): real
  {
    if s == 0.0 then 0.0 else (x - m) / s
  }

  /** The square of the z-score of `x`, from the variance `v` instead of its
   *  root. */
  function ZSquareOf(x: real, m: real, v: real): real
  {
    if v == 0.0 then 0.0 else (x - m) * (x - m) / v
  }

  /** Squaring the reference z-score gives the root-free form. */
  lemma {:induction false} ZSquareAgrees(x: real, m: real, s: real)
    requires s >= 0.0
    ensures ZSquareOf(x, m, s * s) == ZOf(x, m, s) * ZOf(x, m, s)
  {
    if s != 0.0 {
      SquareOfQuotient(x - m, s);
    }
  }

  /** `calculateZScore(values)`, squared: every entry is 0 when the standard
   *  deviation is 0. */
  function ZScoreSquares(values: seq<real>): (zs: seq<real>)
    requires |values| > 0
    ensures |zs| == |values|
  {
    var m, v := Mean(values), Variance(values);
    seq(|values|, i requires 0 <= i < |values| => ZSquareOf(values[i], m, v))
  }

  /** `detectAnomaliesByZScore(defects, field, threshold)`: the records whose
   *  |z-score| of `severityRating` exceeds `threshold`, and none for any other
   *  field. */
  function DetectByZScore(defects: seq<Defect>, field: string, threshold: real): (r: seq<Defect>)
    ensures field != "severityRating" ==> r == []
    ensures |r| <= |defects|
  {
    if field != "severityRating" || |defects| == 0 then []
    else
      var zs := ZScoreSquares(Severities(defects));
      Select(defects, seq(|defects|, i requires 0 <= i < |defects| => AbsExceeds(zs[i], threshold)))
  }

  /** Whether the record's |z-score| exceeds the threshold, stated with the
   *  standard deviation `s` as the source computes it. */
  predicate ZFlag(d: Defect, m: real, s: real, threshold: real)
  {
    var z := ZOf(d.severityRating as real, m, s);
    (if z >= 0.0 then z else -z) > threshold
  }

  /** Whether the record's squared z-score exceeds the threshold, for mean `m`
   *  and variance `v`. */
  predicate ZSquareFlag(d: Defect, m: real, v: real, threshold: real)
  {
    AbsExceeds(ZSquareOf(d.severityRating as real, m, v), threshold)
  }

  /** The indexed filter of the source is a filter on the records themselves:
   *  the result keeps the input order. */
  lemma {:induction false} ZScoreAsFilter(defects: seq<Defect>, threshold: real)
    requires |defects| > 0
    ensures DetectByZScore(defects, "severityRating", threshold)
         == Filter(defects, d => ZSquareFlag(d, Mean(Severities(defects)), Variance(Severities(defects)), threshold))
    ensures IsSubsequence(DetectByZScore(defects, "severityRating", threshold), defects)
  {
    var xs := Severities(defects);
    var m, v := Mean(xs), Variance(xs);
    var zs := ZScoreSquares(xs);
    var keep := seq(|defects|, i requires 0 <= i < |defects| => AbsExceeds(zs[i], threshold));
    var p := d => ZSquareFlag(d, m, v, threshold);
    SelectIsFilter(defects, keep, p);
    FilterIsSubsequence(defects, p);
  }

  /** The root-free flag agrees with the source's `Math.abs(z) > threshold`. */
  lemma {:induction false} ZFlagAgrees(d: Defect, m: real, v: real, s: real, threshold: real)
    requires s >= 0.0 && s * s == v
    ensures ZSquareFlag(d, m, v, threshold) == ZFlag(d, m, s, threshold)
  {
    var x := d.severityRating as real;
    ZSquareAgrees(x, m, s);
    AbsExceedsAgrees(ZOf(x, m, s), threshold);
  }

  /** The z-score detector keeps exactly the records whose |z-score| exceeds
   *  the threshold, for the standard deviation `s` the source computes. */
  lemma {:induction false} ZScoreMeaning(defects: seq<Defect>, threshold: real, s: real)
    requires |defects| > 0
    requires s >= 0.0 && s * s == Variance(Severities(defects))
    ensures forall d :: (d in DetectByZScore(defects, "severityRating", threshold)
                         <==> d in defects && ZFlag(d, Mean(Severities(defects)), s, threshold))
  {
    var xs := Severities(defects);
    var m, v := Mean(xs), Variance(xs);
    var p := d => ZSquareFlag(d, m, v, threshold);
    ZScoreAsFilter(defects, threshold);
    FilterMembership(defects, p);
    forall d
      ensures p(d) == ZFlag(d, m, s, threshold)
    {
      ZFlagAgrees(d, m, v, s, threshold);
    }
  }

  /** When every rating is the same, every z-score is 0 and no threshold
   *  `>= 0` flags anything. */
  lemma {:induction false} ZScoreUniform(defects: seq<Defect>, threshold: real)
    requires threshold >= 0.0
    requires forall i :: 0 <= i < |defects| ==> defects[i].severityRating == defects[0].severityRating
    ensures DetectByZScore(defects, "severityRating", threshold) == []
  {
    if |defects| > 0 {
      var xs := Severities(defects);
      ConstantStatistics(xs, defects[0].severityRating as real);
      var zs := ZScoreSquares(xs);
      var keep := seq(|defects|, i requires 0 <= i < |defects| => AbsExceeds(zs[i], threshold));
      SelectIsFilter(defects, keep, d => false);
      FilterExtremes(defects, d => false);
    }
  }

  // ---------------------------------------------------------------------------
  // Nearest-rank IQR detector, hard-wired to `resolutionTime`
  // ---------------------------------------------------------------------------

  /** `defects.map((defect) => defect.resolutionTime)` */
  function ResolutionTimes(defects: seq<Defect>): (ts: seq<int>)
    ensures |ts| == |defects|
    ensures forall i :: 0 <= i < |ts| ==> ts[i] == defects[i].resolutionTime
  {
    seq(|defects|, i requires 0 <= i < |defects| => defects[i].resolutionTime)
  }

  /** The interval `[Q1 - 1.5 * IQR, Q3 + 1.5 * IQR]` outside which a time is
   *  an outlier. */
  datatype Fences = Fences(lower: real, upper: real)

  /** Q1 and Q3 are the sorted values at indices `floor(n * 0.25)` and
   *  `floor(n * 0.75)`. */
  function QuartileFences(sorted: seq<int>): Fences
    requires |sorted| > 0
  {
    var q1 := sorted[|sorted| / 4] as real;
    var q3 := sorted[3 * |sorted| / 4] as real;
    Fences(q1 - 1.5 * (q3 - q1), q3 + 1.5 * (q3 - q1))
  }

  predicate Outside(f: Fences, d: Defect)
  {
    (d.resolutionTime as real) < f.lower || (d.resolutionTime as real) > f.upper
  }

  /** `defects.filter((defect) => defect.resolutionTime < lowerBound ||
   *  defect.resolutionTime > upperBound)` */
  function OutsideFences(defects: seq<Defect>, f: Fences): seq<Defect>
  {
    Filter(defects, d => Outside(f, d))
  }

  /** What `detectAnomaliesByIQR(defects, field)` returns. */
  function IqrOutliers(defects: seq<Defect>, field: string): seq<Defect>
  {
    if field != "resolutionTime" || |defects| == 0 then []
    else OutsideFences(defects, QuartileFences(SortAsc(ResolutionTimes(defects))))
  }

  /** `detectAnomaliesByIQR(defects, field)`: copies the times into an array,
   *  sorts it in place and keeps the records outside the fences. */
  method DetectByIQR(defects: seq<Defect>, field: string) returns (r: seq<Defect>)
    ensures r == IqrOutliers(defects, field)
  {
    if field != "resolutionTime" || |defects| == 0 {
      return [];
    }
    var values := new int[|defects|](i requires 0 <= i < |defects| => defects[i].resolutionTime);
    assert values[..] == ResolutionTimes(defects);
    SortInPlace(values);
    var n := values.Length;
    var q1 := values[n / 4];
    var q3 := values[3 * n / 4];
    var iqr := q3 - q1;
    var lowerBound := q1 as real - 1.5 * iqr as real;
    var upperBound := q3 as real + 1.5 * iqr as real;
    r := OutsideFences(defects, Fences(lowerBound, upperBound));
  }

  /** Q1 never exceeds Q3, so the lower fence lies at or below Q1 and the
   *  upper fence at or above Q3. */
  lemma {:induction false} FencesAroundQuartiles(sorted: seq<int>)
    requires |sorted| > 0 && Ascending(sorted)
    ensures sorted[|sorted| / 4] <= sorted[3 * |sorted| / 4]
    ensures QuartileFences(sorted).lower <= sorted[|sorted| / 4] as real
    ensures sorted[3 * |sorted| / 4] as real <= QuartileFences(sorted).upper
  {
  }

  /** The IQR detector keeps exactly the records outside the fences computed
   *  from the sorted times, in input order. */
  lemma {:induction false} IqrMeaning(defects: seq<Defect>)
    requires |defects| > 0
    ensures IsSubsequence(IqrOutliers(defects, "resolutionTime"), defects)
    ensures forall d :: (d in IqrOutliers(defects, "resolutionTime")
                         <==> d in defects && Outside(QuartileFences(SortAsc(ResolutionTimes(defects))), d))
  {
    var f := QuartileFences(SortAsc(ResolutionTimes(defects)));
    FilterIsSubsequence(defects, d => Outside(f, d));
    FilterMembership(defects, d => Outside(f, d));
  }

  /** The record whose time is Q1 is never flagged, so the IQR detector never
   *  flags a whole non-empty batch. */
  lemma {:induction false} IqrNeverFlagsAll(defects: seq<Defect>)
    requires |defects| > 0
    ensures |IqrOutliers(defects, "resolutionTime")| < |defects|
  {
    var ts := ResolutionTimes(defects);
    var sorted := SortAsc(ts);
    var f := QuartileFences(sorted);
    SortAscSpec(ts);
    FencesAroundQuartiles(sorted);
    var q1 := sorted[|sorted| / 4];
    assert q1 in multiset(ts) by {
      assert q1 in multiset(sorted);
    }
    var i :| 0 <= i < |ts| && ts[i] == q1;
    FilterShorter(defects, d => Outside(f, d), defects[i]);
  }

  /** Nine records resolved in 5 and one in 500: Q1 = Q3 = 5, both fences are
   *  5, and exactly the slow record is flagged, wherever it stands. */
  lemma {:induction false} IqrSingleSlowRecord(defects: seq<Defect>, j: int)
    requires |defects| == 10 && 0 <= j < 10
    requires defects[j].resolutionTime == 500
    requires forall i :: 0 <= i < 10 && i != j ==> defects[i].resolutionTime == 5
    ensures IqrOutliers(defects, "resolutionTime") == [defects[j]]
  {
    var ts := ResolutionTimes(defects);
    var sorted := SortAsc(ts);
    SortAscSpec(ts);
    TwoValuesSorted(ts, sorted, j);
    var f := QuartileFences(sorted);
    assert f == Fences(5.0, 5.0);
    FilterOne(defects, d => Outside(f, d), j);
  }

  /** The sorted times of that batch hold 5 at the quartile indices 2 and 7. */
  lemma {:induction false} TwoValuesSorted(ts: seq<int>, sorted: seq<int>, j: int)
    requires |ts| == 10 && |sorted| == 10 && 0 <= j < 10
    requires ts[j] == 500
    requires forall i :: 0 <= i < 10 && i != j ==> ts[i] == 5
    requires Ascending(sorted) && multiset(sorted) == multiset(ts)
    ensures sorted[2] == 5 && sorted[7] == 5
  {
    forall k | 0 <= k < 10
      ensures sorted[k] == 5 || sorted[k] == 500
    {
      assert sorted[k] in multiset(ts);
    }
    assert multiset(ts)[500] == 1 by {
      assert ts == ts[..j] + [500] + ts[j + 1..];
      assert 500 !in ts[..j];
      assert 500 !in ts[j + 1..];
    }
    assert sorted == sorted[..8] + [sorted[8], sorted[9]];
    assert multiset(sorted) == multiset(sorted[..8]) + multiset([sorted[8], sorted[9]]);
  }

  // ---------------------------------------------------------------------------
  // Frequency-outlier detector over any field
  // ---------------------------------------------------------------------------

  /** `Object.values(frequencyMap)`: the counts in key order, as numbers. */
  function Frequencies(t: Dict<int>): (fs: seq<real>)
    ensures |fs| == |t.keys|
    ensures forall i :: 0 <= i < |fs| ==> fs[i] == CountAt(t, t.keys[i]) as real
  {
    seq(|t.keys|, i requires 0 <= i < |t.keys| => CountAt(t, t.keys[i]) as real)
  }

  /** `frequencyMap[defect[field]] > mean + stdDevMultiplier * stdDev`, with
   *  the mean `m` and variance `v` of the counts, without the root. */
  predicate TooFrequent(t: Dict<int>, field: string, k: real, m: real, v: real, d: Defect)
  {
    ExceedsScaledRoot(CountAt(t, KeyOf(d, field)) as real - m, k, v)
  }

  /** The final `defects.filter` of the frequency detector. */
  function FrequentRecords(defects: seq<Defect>, t: Dict<int>, field: string, k: real, m: real, v: real): seq<Defect>
  {
    Filter(defects, d => TooFrequent(t, field, k, m, v, d))
  }

  /** The per-value counts of a batch, in first-occurrence order of the values. */
  function FrequenciesOf(defects: seq<Defect>, field: string): seq<real>
  {
    Frequencies(CountTable(KeysOf(defects, field)))
  }

  /** What `detectAnomaliesByFrequency(defects, field, k)` returns. */
  function FrequencyOutliers(defects: seq<Defect>, field: string, k: real): seq<Defect>
  {
    var t := CountTable(KeysOf(defects, field));
    var fs := Frequencies(t);
    if |fs| == 0 then [] else FrequentRecords(defects, t, field, k, Mean(fs), Variance(fs))
  }

  /** `detectAnomaliesByFrequency(defects, field, stdDevMultiplier)`: counts
   *  every value of `field` in a frequency table, then keeps the records
   *  whose value is more frequent than `mean + stdDevMultiplier * stdDev`. */
  method DetectByFrequency(defects: seq<Defect>, field: string, stdDevMultiplier: real) returns (r: seq<Defect>)
    ensures r == FrequencyOutliers(defects, field, stdDevMultiplier)
  {
    var frequencyMap := EmptyDict();
    for i := 0 to |defects|
      invariant frequencyMap == CountTable(KeysOf(defects[..i], field))
    {
      CountPrefixStep(defects, field, i);
      frequencyMap := Tick(frequencyMap, KeyOf(defects[i], field));
    }
    assert defects[..|defects|] == defects;
    var frequencies := Frequencies(frequencyMap);
    if |frequencies| == 0 {
      return [];
    }
    var mean := Mean(frequencies);
    var variance := Variance(frequencies);
    r := FrequentRecords(defects, frequencyMap, field, stdDevMultiplier, mean, variance);
  }

  /** The counts are those of the distinct values, in first-occurrence order;
   *  there are none exactly when the batch is empty. */
  lemma {:induction false} FrequenciesAreCounts(defects: seq<Defect>, field: string)
    ensures var ks := KeysOf(defects, field);
            && |FrequenciesOf(defects, field)| == |Distinct(ks)|
            && (|FrequenciesOf(defects, field)| == 0 <==> |defects| == 0)
            && forall i :: 0 <= i < |Distinct(ks)| ==> FrequenciesOf(defects, field)[i] == Count(ks, Distinct(ks)[i]) as real
  {
    var ks := KeysOf(defects, field);
    CountTableMeaning(ks);
    if |defects| > 0 {
      assert ks[0] in Distinct(ks);
    }
  }

  /** The frequency detector keeps the input order. */
  lemma {:induction false} FrequencyIsSubsequence(defects: seq<Defect>, field: string, k: real)
    ensures IsSubsequence(FrequencyOutliers(defects, field, k), defects)
  {
    var t := CountTable(KeysOf(defects, field));
    var fs := Frequencies(t);
    if |fs| > 0 {
      FilterIsSubsequence(defects, d => TooFrequent(t, field, k, Mean(fs), Variance(fs), d));
    }
  }

  /** The root-free test agrees with `count > mean + k * stdDev`, and the
   *  table's count of a record's value is the number of its occurrences. */
  lemma {:induction false} TooFrequentAgrees(ks: seq<string>, field: string, k: real, m: real, v: real, s: real, d: Defect)
    requires s >= 0.0 && s * s == v
    ensures TooFrequent(CountTable(ks), field, k, m, v, d) <==> Count(ks, KeyOf(d, field)) as real > m + k * s
  {
    CountTableMeaning(ks);
    ExceedsScaledRootAgrees(CountAt(CountTable(ks), KeyOf(d, field)) as real - m, k, v, s);
  }

  /** A record is flagged exactly when its value occurs more often than
   *  `mean + k * stdDev` of the per-value counts, for the standard deviation
   *  `s`. */
  lemma {:induction false} FrequencyMeaning(defects: seq<Defect>, field: string, k: real, s: real)
    requires |defects| > 0
    requires s >= 0.0 && s * s == Variance(FrequenciesOf(defects, field))
    ensures forall d :: (d in FrequencyOutliers(defects, field, k)
                         <==> d in defects
                              && Count(KeysOf(defects, field), KeyOf(d, field)) as real
                                 > Mean(FrequenciesOf(defects, field)) + k * s)
  {
    var ks := KeysOf(defects, field);
    var t := CountTable(ks);
    var fs := Frequencies(t);
    var m, v := Mean(fs), Variance(fs);
    var p := d => TooFrequent(t, field, k, m, v, d);
    FilterMembership(defects, p);
    forall d
      ensures p(d) <==> Count(ks, KeyOf(d, field)) as real > m + k * s
    {
      TooFrequentAgrees(ks, field, k, m, v, s, d);
    }
  }

  /** Equally frequent values make every entry of the count list the same. */
  lemma {:induction false} UniformFrequencies(ks: seq<string>)
    requires |ks| > 0
    requires forall a, b :: a in ks && b in ks ==> Count(ks, a) == Count(ks, b)
    ensures forall i :: 0 <= i < |Frequencies(CountTable(ks))| ==> Frequencies(CountTable(ks))[i] == Count(ks, ks[0]) as real
    ensures forall key :: key in ks ==> CountAt(CountTable(ks), key) as real == Count(ks, ks[0]) as real
  {
    CountTableMeaning(ks);
    var t := CountTable(ks);
    forall i | 0 <= i < |t.keys|
      ensures CountAt(t, t.keys[i]) == Count(ks, ks[0])
    {
      assert t.keys[i] in ks;
    }
  }

  /** When every value of the field occurs equally often, nothing is flagged,
   *  whatever the multiplier. */
  lemma {:induction false} FrequencyUniform(defects: seq<Defect>, field: string, k: real)
    requires forall a, b :: a in KeysOf(defects, field) && b in KeysOf(defects, field)
               ==> Count(KeysOf(defects, field), a) == Count(KeysOf(defects, field), b)
    ensures FrequencyOutliers(defects, field, k) == []
  {
    var ks := KeysOf(defects, field);
    var t := CountTable(ks);
    var fs := Frequencies(t);
    if |fs| > 0 {
      var p := d => TooFrequent(t, field, k, Mean(fs), Variance(fs), d);
      forall d | d in defects
        ensures !p(d)
      {
        assert KeyOf(d, field) in ks;
        UniformNotTooFrequent(ks, field, k, d);
      }
      FilterExtremes(defects, p);
    }
  }

  /** With equally frequent values, the count of a record's value is the mean
   *  count and the variance is 0, so the record is not too frequent. */
  lemma {:induction false} UniformNotTooFrequent(ks: seq<string>, field: string, k: real, d: Defect)
    requires forall a, b :: a in ks && b in ks ==> Count(ks, a) == Count(ks, b)
    requires KeyOf(d, field) in ks
    ensures var fs := Frequencies(CountTable(ks));
            |fs| > 0 && !TooFrequent(CountTable(ks), field, k, Mean(fs), Variance(fs), d)
  {
    var t := CountTable(ks);
    var fs := Frequencies(t);
    var c := Count(ks, ks[0]) as real;
    UniformFrequencies(ks);
    ConstantStatistics(fs, c);
    assert CountAt(t, KeyOf(d, field)) as real - Mean(fs) == 0.0;
    NoExcessAtZero(k);
  }

  lemma NoExcessAtZero(k: real)
    ensures !ExceedsScaledRoot(0.0, k, 0.0)
  {
  }

  /** No value is too frequent under a multiplier `k >= 0` with
   *  `k * k >= m - 1`, for `m` distinct values. */
  lemma {:induction false} NotTooFrequentWide(ks: seq<string>, field: string, k: real, d: Defect)
    requires k >= 0.0 && k * k >= |Distinct(ks)| as real - 1.0
    requires KeyOf(d, field) in ks
    ensures var fs := Frequencies(CountTable(ks));
            !TooFrequent(CountTable(ks), field, k, Mean(fs), Variance(fs), d)
  {
    var t := CountTable(ks);
    var fs := Frequencies(t);
    CountTableMeaning(ks);
    AsRealIsCast(|fs|);
    var j :| 0 <= j < |t.keys| && t.keys[j] == KeyOf(d, field);
    NoneExceedsWideMultiplier(fs, j, k);
  }

  /** Samuelson's inequality for the frequency detector: with `m` distinct
   *  values, a multiplier `k >= 0` with `k * k >= m - 1` flags nothing. */
  lemma {:induction false} FrequencyWideMultiplier(defects: seq<Defect>, field: string, k: real)
    requires k >= 0.0 && k * k >= |Distinct(KeysOf(defects, field))| as real - 1.0
    ensures FrequencyOutliers(defects, field, k) == []
  {
    var ks := KeysOf(defects, field);
    var t := CountTable(ks);
    var fs := Frequencies(t);
    if |fs| > 0 {
      var p := d => TooFrequent(t, field, k, Mean(fs), Variance(fs), d);
      forall d | d in defects
        ensures !p(d)
      {
        NotTooFrequentWide(ks, field, k, d);
      }
      FilterExtremes(defects, p);
    }
  }

  /** A batch spread over at most five distinct values with the default
   *  multiplier 2 has nothing flagged: `2 * 2 >= 5 - 1`. */
  lemma {:induction false} FewValuesDefaultMultiplier(defects: seq<Defect>, field: string)
    requires |Distinct(KeysOf(defects, field))| <= 5
    ensures FrequencyOutliers(defects, field, 2.0) == []
  {
    var n := |Distinct(KeysOf(defects, field))|;
    assert n as real - 1.0 <= 2.0 * 2.0;
    FrequencyWideMultiplier(defects, field, 2.0);
  }

  // ---------------------------------------------------------------------------
  // The dispatcher
  // ---------------------------------------------------------------------------

  datatype Option<T> = None | Some(value: T)

  /** The three entries of the strategy catalogue. */
  datatype Strategy = ByFrequency | ByZScore | ByIQR
  {
    /** The strategy's `name`, which selects it in the dispatcher. */
    function Name(): string
    {
      match this
      case ByFrequency => "detectAnomaliesByFrequency"
      case ByZScore => "detectAnomaliesByZScore"
      case ByIQR => "detectAnomaliesByIQR"
    }

    /** The strategy's `possibleFields`. */
    function PossibleFields(): seq<string>
    {
      match this
      case ByFrequency => ["any"]
      case ByZScore => ["severityRating"]
      case ByIQR => ["resolutionTime"]
    }
  }

  /** The strategy a name selects, if any: the inverse of `Name`. */
  function StrategyNamed(name: string): (s: Option<Strategy>)
    ensures s.Some? ==> s.value.Name() == name
    ensures s.None? ==> forall t: Strategy :: t.Name() != name
  {
    if name == "detectAnomaliesByFrequency" then Some(ByFrequency)
    else if name == "detectAnomaliesByZScore" then Some(ByZScore)
    else if name == "detectAnomaliesByIQR" then Some(ByIQR)
    else None
  }

  /** Every strategy is selected by its own name. */
  lemma StrategyNamedName(t: Strategy)
    ensures StrategyNamed(t.Name()) == Some(t)
  {
  }

  /** The records the selected detector flags: the z-score detector always on
   *  `severityRating` and the IQR detector always on `resolutionTime`,
   *  whatever field is asked for. */
  function Flagged(defects: seq<Defect>, name: string, field: string, controlValue: real): seq<Defect>
  {
    match StrategyNamed(name)
    case None => []
    case Some(ByFrequency) => FrequencyOutliers(defects, field, controlValue)
    case Some(ByZScore) => DetectByZScore(defects, "severityRating", controlValue)
    case Some(ByIQR) => IqrOutliers(defects, "resolutionTime")
  }

  /** The anomaly the dispatcher records for a flagged record. */
  predicate Describes(a: Anomaly, d: Defect, field: string, name: string)
  {
    && a.status == "under review"
    && a.note == field + " anomaly calculated by " + name
    && a.defectId == d.id
    && a.flaggedBy == "system"
    && a.suspectedValue == Stringify(Field(d, field))
    && a.suspectedField == field
  }

  /** Runs the detector that `name` selects: the `if` chain of
   *  `autoFlagAnomalies`, the z-score detector on `severityRating` and the IQR
   *  detector on `resolutionTime` whatever field is asked for. */
  method RunDetector(defects: seq<Defect>, name: string, field: string, controlValue: real)
    returns (identifiedDefects: seq<Defect>)
    ensures identifiedDefects == Flagged(defects, name, field, controlValue)
  {
    if name == "detectAnomaliesByFrequency" {
      identifiedDefects := DetectByFrequency(defects, field, controlValue);
    } else if name == "detectAnomaliesByZScore" {
      identifiedDefects := DetectByZScore(defects, "severityRating", controlValue);
    } else if name == "detectAnomaliesByIQR" {
      identifiedDefects := DetectByIQR(defects, "resolutionTime");
    } else {
      identifiedDefects := [];
    }
  }

  /** The anomalies for a list of flagged records, one per record, in order. */
  method DescribeAll(identifiedDefects: seq<Defect>, field: string, name: string)
    returns (anomalies: seq<Anomaly>)
    ensures |anomalies| == |identifiedDefects|
    ensures forall i :: 0 <= i < |anomalies| ==> Describes(anomalies[i], identifiedDefects[i], field, name)
  {
    anomalies := [];
    for i := 0 to |identifiedDefects|
      invariant |anomalies| == i
      invariant forall j :: 0 <= j < i ==> Describes(anomalies[j], identifiedDefects[j], field, name)
    {
      var defect := identifiedDefects[i];
      anomalies := anomalies + [Anomaly(
        "under review",
        field + " anomaly calculated by " + name,
        defect.id,
        "system",
        Stringify(Field(defect, field)),
        field)];
    }
  }

  /** `autoFlagAnomalies(defects, algorithm, field, controlValue, callback)`:
   *  the anomalies handed to the callback, one per flagged record and in the
   *  same order; none for an unknown algorithm name. */
  method AutoFlagAnomalies(defects: seq<Defect>, name: string, field: string, controlValue: real)
    returns (anomalies: seq<Anomaly>)
    ensures StrategyNamed(name).None? ==> anomalies == []
    ensures |anomalies| == |Flagged(defects, name, field, controlValue)|
    ensures forall i :: 0 <= i < |anomalies| ==> Describes(anomalies[i], Flagged(defects, name, field, controlValue)[i], field, name)
  {
    var identifiedDefects := RunDetector(defects, name, field, controlValue);
    anomalies := DescribeAll(identifiedDefects, field, name);
  }

  /** Whichever strategy runs, the flagged records are a subsequence of the
   *  batch: the anomalies refer to batch records, in batch order. */
  lemma {:induction false} FlaggedIsSubsequence(defects: seq<Defect>, name: string, field: string, controlValue: real)
    ensures IsSubsequence(Flagged(defects, name, field, controlValue), defects)
  {
    match StrategyNamed(name)
    case None =>
    case Some(ByFrequency) =>
      FrequencyIsSubsequence(defects, field, controlValue);
    case Some(ByZScore) =>
      if |defects| > 0 {
        ZScoreAsFilter(defects, controlValue);
      }
    case Some(ByIQR) =>
      if |defects| > 0 {
        IqrMeaning(defects);
      }
  }

  /** The suspected value of a numeric field reads back, through `Number`, as
   *  the field's value. */
  lemma {:induction false} SuspectedValueReadsBack(a: Anomaly, d: Defect, field: string, name: string)
    requires Describes(a, d, field, name) && Field(d, field).Num?
    ensures ToNumber(a.suspectedValue) == Finite(Field(d, field).n as real)
  {
    IntToStringRoundTrip(Field(d, field).n);
  }
}
