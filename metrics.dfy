/** The summary metrics of a batch of defects (`calculateDefectMetrics`): the
 *  three local helpers `average`, `groupBy` and `countBy`, the most common
 *  defect of each station, the root-cause percentages, and the record that
 *  collects every derived figure. */
module Metrics {
  import opened Tally
  import opened Records
  import opened Stats
  import opened Sorting

  // ---------------------------------------------------------------------------
  // average
  // ---------------------------------------------------------------------------

  /** The numeric entries, as reals: `arr.filter((n) => typeof n === "number")`. */
  function Numbers(vs: seq<Value>): (ns: seq<real>)
    ensures |ns| <= |vs|
    ensures |ns| == 0 <==> forall i :: 0 <= i < |vs| ==> !vs[i].Num?
  {
    if |vs| == 0 then []
    else Numbers(vs[..|vs| - 1]) + (if vs[|vs| - 1].Num? then [vs[|vs| - 1].n as real] else [])
  }

  /** `average(arr)`: the sum of the numeric entries over their number, or 0
   *  when there are none. */
  function Average(vs: seq<Value>): (r: real)
    ensures (forall i :: 0 <= i < |vs| ==> !vs[i].Num?) ==> r == 0.0
  {
    var valid := Numbers(vs);
    if |valid| > 0 then Mean(valid) else 0.0
  }

  /** Entries that are all numbers are kept in order. */
  lemma {:induction false} NumbersOfNumbers(vs: seq<Value>)
    requires forall i :: 0 <= i < |vs| ==> vs[i].Num?
    ensures |Numbers(vs)| == |vs|
    ensures forall i :: 0 <= i < |vs| ==> Numbers(vs)[i] == vs[i].n as real
  {
    if |vs| > 0 {
      NumbersOfNumbers(vs[..|vs| - 1]);
    }
  }

  /** Every kept number is a numeric entry between the bounds of the numeric
   *  entries, and one numeric entry is enough to keep something. */
  lemma {:induction false} NumbersBetween(vs: seq<Value>, lo: real, hi: real)
    requires forall i :: 0 <= i < |vs| && vs[i].Num? ==> lo <= vs[i].n as real <= hi
    ensures forall j :: 0 <= j < |Numbers(vs)| ==> lo <= Numbers(vs)[j] <= hi
    ensures (exists i :: 0 <= i < |vs| && vs[i].Num?) ==> |Numbers(vs)| > 0
  {
    if |vs| > 0 {
      NumbersBetween(vs[..|vs| - 1], lo, hi);
      assert forall i :: 0 <= i < |vs| - 1 ==> vs[..|vs| - 1][i] == vs[i];
    }
  }

  /** The average is 0 without numeric entries; otherwise it is the mean of the
   *  numeric entries, and lies between any bounds they respect. */
  lemma {:induction false} AverageSpec(vs: seq<Value>, lo: real, hi: real)
    requires forall i :: 0 <= i < |vs| && vs[i].Num? ==> lo <= vs[i].n as real <= hi
    ensures (forall i :: 0 <= i < |vs| ==> !vs[i].Num?) ==> Average(vs) == 0.0
    ensures (exists i :: 0 <= i < |vs| && vs[i].Num?) ==> lo <= Average(vs) <= hi
  {
    NumbersBetween(vs, lo, hi);
    if |Numbers(vs)| > 0 {
      MeanBetween(Numbers(vs), lo, hi);
    }
  }

  /** The resolution time of a record (`e.resolutionTime`). */
  function ResolutionOf(d: Defect): int
  {
    d.resolutionTime
  }

  /** The severity of a record (`e.severityRating`). */
  function SeverityOf(d: Defect): int
  {
    d.severityRating
  }

  /** `list.map((e) => e.<metric>)` */
  function Column(xs: seq<Defect>, metric: Defect -> int): (vs: seq<Value>)
    ensures |vs| == |xs|
    ensures forall i :: 0 <= i < |xs| ==> vs[i] == Num(metric(xs[i]))
  {
    seq(|xs|, i requires 0 <= i < |xs| => Num(metric(xs[i])))
  }

  /** The average of a column is the mean of its values. */
  lemma ColumnAverage(xs: seq<Defect>, metric: Defect -> int)
    requires |xs| > 0
    ensures |Numbers(Column(xs, metric))| == |xs|
    ensures Average(Column(xs, metric)) == Mean(Numbers(Column(xs, metric)))
    ensures forall i :: 0 <= i < |xs| ==> Numbers(Column(xs, metric))[i] == metric(xs[i]) as real
  {
    NumbersOfNumbers(Column(xs, metric));
  }

  // ---------------------------------------------------------------------------
  // groupBy and countBy
  // ---------------------------------------------------------------------------

  /** `acc[k]` of a grouping object, with no records for a missing key. */
  function GroupAt(t: Dict<seq<Defect>>, k: string): seq<Defect>
  {
    if k in t.at then t.at[k] else []
  }

  /** The grouping that `groupBy` has built after the records of `xs`. */
  function GroupTable(xs: seq<Defect>, field: string): (t: Dict<seq<Defect>>)
    ensures |t.keys| == 0 <==> |xs| == 0
  {
    if |xs| == 0 then EmptyDict()
    else
      var t := GroupTable(xs[..|xs| - 1], field);
      var k := KeyOf(xs[|xs| - 1], field);
      t.Put(k, GroupAt(t, k) + [xs[|xs| - 1]])
  }

  lemma GroupPrefixStep(xs: seq<Defect>, field: string, i: int)
    requires 0 <= i < |xs|
    ensures var t := GroupTable(xs[..i], field);
            var k := KeyOf(xs[i], field);
            GroupTable(xs[..i + 1], field) == t.Put(k, GroupAt(t, k) + [xs[i]])
  {
    assert xs[..i + 1][..i] == xs[..i];
  }

  /** `(acc[value] ||= []).push(obj)`: creates the list under `value` on first
   *  sight, then appends `obj` to it. */
  method AddToGroup(acc: Dict<seq<Defect>>, value: string, obj: Defect) returns (r: Dict<seq<Defect>>)
    ensures r == acc.Put(value, GroupAt(acc, value) + [obj])
  {
    r := acc;
    if value !in r.at {
      r := r.Put(value, []);
      PutTwice(acc, value, [], [obj]);
    }
    r := r.Put(value, r.at[value] + [obj]);
  }

  /** `groupBy(arr, key)`: appends each record to the list under its
   *  stringified field value, creating the list on first sight. */
  method GroupBy(arr: seq<Defect>, key: string) returns (acc: Dict<seq<Defect>>)
    ensures acc == GroupTable(arr, key)
  {
    acc := EmptyDict();
    for i := 0 to |arr|
      invariant acc == GroupTable(arr[..i], key)
    {
      GroupPrefixStep(arr, key, i);
      acc := AddToGroup(acc, KeyOf(arr[i], key), arr[i]);
    }
    assert arr[..|arr|] == arr;
  }

  /** The grouping's keys are the distinct values, in first-occurrence order. */
  lemma {:induction false} GroupTableKeys(xs: seq<Defect>, field: string)
    ensures GroupTable(xs, field).Valid()
    ensures GroupTable(xs, field).keys == Distinct(KeysOf(xs, field))
  {
    if |xs| > 0 {
      var init, x := xs[..|xs| - 1], xs[|xs| - 1];
      assert xs == init + [x];
      GroupTableKeys(init, field);
      KeysOfSnoc(init, x, field);
      DistinctSnoc(KeysOf(init, field), KeyOf(x, field));
    }
  }

  /** Under each value the grouping holds the records with that value, in
   *  input order. */
  lemma {:induction false} GroupTableGroup(xs: seq<Defect>, field: string, k: string)
    ensures GroupAt(GroupTable(xs, field), k) == GroupOf(xs, field, k)
  {
    if |xs| > 0 {
      var init, x := xs[..|xs| - 1], xs[|xs| - 1];
      assert xs == init + [x];
      GroupTableGroup(init, field, k);
      FilterSnoc(init, x, d => KeyOf(d, field) == k);
    }
  }

  /** The grouping lists the distinct values in first-occurrence order, and
   *  under each the records with that value, in input order. */
  lemma GroupTableMeaning(xs: seq<Defect>, field: string)
    ensures GroupTable(xs, field).Valid()
    ensures GroupTable(xs, field).keys == Distinct(KeysOf(xs, field))
    ensures forall k :: GroupAt(GroupTable(xs, field), k) == GroupOf(xs, field, k)
  {
    GroupTableKeys(xs, field);
    forall k
      ensures GroupAt(GroupTable(xs, field), k) == GroupOf(xs, field, k)
    {
      GroupTableGroup(xs, field, k);
    }
  }

  /** The groups partition the batch: each record sits in the group of its own
   *  value and in no other, and each group keeps the input order. */
  lemma {:induction false} GroupPartition(xs: seq<Defect>, field: string)
    ensures forall d, k :: d in xs ==> (d in GroupAt(GroupTable(xs, field), k) <==> k == KeyOf(d, field))
    ensures forall d, k :: d in GroupAt(GroupTable(xs, field), k) ==> d in xs
    ensures forall k :: IsSubsequence(GroupAt(GroupTable(xs, field), k), xs)
  {
    GroupTableMeaning(xs, field);
    forall k
      ensures forall d :: d in GroupOf(xs, field, k) <==> d in xs && KeyOf(d, field) == k
      ensures IsSubsequence(GroupOf(xs, field, k), xs)
    {
      GroupOfMembers(xs, field, k);
    }
  }

  /** The total size of the groups listed in `ks`. */
  function TotalSize(t: Dict<seq<Defect>>, ks: seq<string>): int
  {
    if |ks| == 0 then 0 else |GroupAt(t, ks[0])| + TotalSize(t, ks[1..])
  }

  lemma {:induction false} TotalSizeIsSumCounts(xs: seq<Defect>, field: string, ds: seq<string>)
    ensures TotalSize(GroupTable(xs, field), ds) == SumCounts(ds, KeysOf(xs, field))
  {
    if |ds| > 0 {
      GroupTableMeaning(xs, field);
      GroupOfSize(xs, field, ds[0]);
      TotalSizeIsSumCounts(xs, field, ds[1..]);
    }
  }

  /** The group sizes add up to the batch length. */
  lemma GroupSizesTotal(xs: seq<Defect>, field: string)
    ensures TotalSize(GroupTable(xs, field), GroupTable(xs, field).keys) == |xs|
  {
    GroupTableMeaning(xs, field);
    TotalSizeIsSumCounts(xs, field, Distinct(KeysOf(xs, field)));
    SumCountsDistinct(KeysOf(xs, field));
  }

  /** `if (!acc[val]) acc[val] = 0; acc[val]++` ticks the count of `val`. */
  lemma ResetThenIncrement(acc: Dict<int>, val: string)
    ensures var reset := if val !in acc.at || acc.at[val] == 0 then acc.Put(val, 0) else acc;
            reset.Put(val, reset.at[val] + 1) == Tick(acc, val)
  {
    if val !in acc.at || acc.at[val] == 0 {
      PutTwice(acc, val, 0, 1);
    } else {
      PutSame(acc, val);
    }
  }

  /** `if (!acc[val]) acc[val] = 0; acc[val]++`: one count step. */
  method CountOne(acc: Dict<int>, val: string) returns (r: Dict<int>)
    ensures r == Tick(acc, val)
  {
    ResetThenIncrement(acc, val);
    r := acc;
    if val !in r.at || r.at[val] == 0 {
      r := r.Put(val, 0);
    }
    r := r.Put(val, r.at[val] + 1);
  }

  /** `countBy(arr, key)`: starts the count of a value at 0 when it is missing
   *  (or 0), then increments it. */
  method CountBy(arr: seq<Defect>, key: string) returns (acc: Dict<int>)
    ensures acc == CountTable(KeysOf(arr, key))
  {
    acc := EmptyDict();
    for i := 0 to |arr|
      invariant acc == CountTable(KeysOf(arr[..i], key))
    {
      CountPrefixStep(arr, key, i);
      acc := CountOne(acc, KeyOf(arr[i], key));
    }
    assert arr[..|arr|] == arr;
  }

  /** The number of records of each group (`Object.fromEntries` over the
   *  groups with `list.length`). */
  function Sizes(t: Dict<seq<Defect>>): Dict<int>
  {
    Dict(t.keys, map k | k in t.at :: |t.at[k]|)
  }

  /** Counting a field gives the sizes of the groups of that field: the same
   *  keys in the same order, and each count the size of its group. */
  lemma {:induction false} CountsAreGroupSizes(xs: seq<Defect>, field: string)
    ensures CountTable(KeysOf(xs, field)) == Sizes(GroupTable(xs, field))
  {
    var ks := KeysOf(xs, field);
    CountTableMeaning(ks);
    GroupTableMeaning(xs, field);
    var c, g := CountTable(ks), GroupTable(xs, field);
    forall k | k in c.at
      ensures c.at[k] == |g.at[k]|
    {
      GroupOfSize(xs, field, k);
      assert CountAt(c, k) == c.at[k];
    }
    assert c.at == Sizes(g).at;
  }

  /** The total of the counts listed in `ks`. */
  function TotalCount(t: Dict<int>, ks: seq<string>): int
  {
    if |ks| == 0 then 0 else CountAt(t, ks[0]) + TotalCount(t, ks[1..])
  }

  lemma {:induction false} TotalCountIsSumCounts(ks: seq<string>, ds: seq<string>)
    ensures TotalCount(CountTable(ks), ds) == SumCounts(ds, ks)
  {
    if |ds| > 0 {
      CountTableMeaning(ks);
      TotalCountIsSumCounts(ks, ds[1..]);
    }
  }

  /** The counts of `countBy` add up to the batch length. */
  lemma CountsTotal(xs: seq<Defect>, field: string)
    ensures TotalCount(CountTable(KeysOf(xs, field)), CountTable(KeysOf(xs, field)).keys) == |xs|
  {
    CountTableMeaning(KeysOf(xs, field));
    TotalCountIsSumCounts(KeysOf(xs, field), Distinct(KeysOf(xs, field)));
    SumCountsDistinct(KeysOf(xs, field));
  }

  // ---------------------------------------------------------------------------
  // Per-group figures
  // ---------------------------------------------------------------------------

  /** A group's name with a figure about it (`{ defectName, averageResolutionTime }`,
   *  `{ station, averageSeverity }`, `{ reporterName, avgSeverity }`, ...). */
  datatype Keyed = Keyed(key: string, value: real)

  /** `Object.entries(groups).map(([name, list]) => ({ name, average(list.map(metric)) }))` */
  function Averages(g: Dict<seq<Defect>>, metric: Defect -> int): (r: seq<Keyed>)
    ensures |r| == |g.keys|
  {
    seq(|g.keys|, i requires 0 <= i < |g.keys| => Keyed(g.keys[i], Average(Column(GroupAt(g, g.keys[i]), metric))))
  }

  /** Each per-group average names a distinct value of the field, in
   *  first-occurrence order, and averages exactly the records with that
   *  value, none of which is left out. */
  lemma {:induction false} AveragesSpec(xs: seq<Defect>, field: string, metric: Defect -> int)
    ensures var r := Averages(GroupTable(xs, field), metric);
            var ds := Distinct(KeysOf(xs, field));
            && |r| == |ds|
            && forall i :: 0 <= i < |r| ==>
                 && r[i].key == ds[i]
                 && |GroupOf(xs, field, ds[i])| > 0
                 && r[i].value == Mean(Numbers(Column(GroupOf(xs, field, ds[i]), metric)))
  {
    GroupTableMeaning(xs, field);
    var ds := Distinct(KeysOf(xs, field));
    forall i | 0 <= i < |ds|
      ensures |GroupOf(xs, field, ds[i])| > 0
      ensures Average(Column(GroupOf(xs, field, ds[i]), metric)) == Mean(Numbers(Column(GroupOf(xs, field, ds[i]), metric)))
    {
      GroupOfSize(xs, field, ds[i]);
      ColumnAverage(GroupOf(xs, field, ds[i]), metric);
    }
  }

  /** `{ severityRating: Number(key), averageResolutionTime }` */
  datatype SeverityAverage = SeverityAverage(severityRating: JsNumber, averageResolutionTime: real)

  function SeverityAverages(g: Dict<seq<Defect>>): (r: seq<SeverityAverage>)
    ensures |r| == |g.keys|
  {
    seq(|g.keys|, i requires 0 <= i < |g.keys| =>
      SeverityAverage(ToNumber(g.keys[i]), Average(Column(GroupAt(g, g.keys[i]), ResolutionOf))))
  }

  /** Each entry carries `Number(key)` for its key, in key order. */
  lemma SeverityAveragesKeys(g: Dict<seq<Defect>>)
    ensures |SeverityAverages(g)| == |g.keys|
    ensures forall i :: 0 <= i < |g.keys| ==> SeverityAverages(g)[i].severityRating == ToNumber(g.keys[i])
  {
  }

  /** Each per-severity entry carries the mean resolution time of exactly the
   *  records of its severity group, which is never empty. */
  lemma {:induction false} SeverityResolutionSpec(xs: seq<Defect>, g: Dict<seq<Defect>>)
    requires g == GroupTable(xs, "severityRating")
    ensures var r := SeverityAverages(g);
            var ds := Distinct(KeysOf(xs, "severityRating"));
            && |r| == |ds|
            && forall i :: 0 <= i < |r| ==>
                 && |GroupOf(xs, "severityRating", ds[i])| > 0
                 && r[i].averageResolutionTime
                    == Mean(Numbers(Column(GroupOf(xs, "severityRating", ds[i]), ResolutionOf)))
  {
    GroupTableMeaning(xs, "severityRating");
    var ds := Distinct(KeysOf(xs, "severityRating"));
    forall i | 0 <= i < |ds|
      ensures |GroupOf(xs, "severityRating", ds[i])| > 0
      ensures Average(Column(GroupOf(xs, "severityRating", ds[i]), ResolutionOf))
              == Mean(Numbers(Column(GroupOf(xs, "severityRating", ds[i]), ResolutionOf)))
    {
      GroupOfSize(xs, "severityRating", ds[i]);
      ColumnAverage(GroupOf(xs, "severityRating", ds[i]), ResolutionOf);
    }
  }

  /** A severity key is the decimal string of a rating of the batch, and reads
   *  back as that rating. */
  lemma RatingOfKey(xs: seq<Defect>, k: string) returns (d: Defect)
    requires k in KeysOf(xs, "severityRating")
    ensures d in xs && k == IntToString(d.severityRating)
    ensures ToNumber(k) == Finite(d.severityRating as real)
  {
    var ks := KeysOf(xs, "severityRating");
    var j :| 0 <= j < |ks| && ks[j] == k;
    d := xs[j];
    NumberKeys(d);
    IntToStringRoundTrip(d.severityRating);
  }

  /** Two different severity keys read back as two different ratings. */
  lemma DistinctKeysDistinctRatings(xs: seq<Defect>, k1: string, k2: string)
    requires k1 in KeysOf(xs, "severityRating") && k2 in KeysOf(xs, "severityRating")
    requires k1 != k2
    ensures ToNumber(k1) != ToNumber(k2)
  {
    var a := RatingOfKey(xs, k1);
    var b := RatingOfKey(xs, k2);
  }

  /** Every rating of the batch has its key, which reads back as the rating. */
  lemma KeyOfRating(xs: seq<Defect>, d: Defect)
    requires d in xs
    ensures KeyOf(d, "severityRating") in KeysOf(xs, "severityRating")
    ensures ToNumber(KeyOf(d, "severityRating")) == Finite(d.severityRating as real)
  {
    var j :| 0 <= j < |xs| && xs[j] == d;
    assert KeysOf(xs, "severityRating")[j] == KeyOf(d, "severityRating");
    NumberKeys(d);
    IntToStringRoundTrip(d.severityRating);
  }

  /** Every entry over a severity grouping reads back as a rating of the batch. */
  lemma {:induction false} EntriesAreRatings(xs: seq<Defect>, g: Dict<seq<Defect>>)
    requires g.keys == Distinct(KeysOf(xs, "severityRating"))
    ensures var r := SeverityAverages(g);
            forall i :: 0 <= i < |r| ==> exists d :: d in xs && r[i].severityRating == Finite(d.severityRating as real)
  {
    var r := SeverityAverages(g);
    SeverityAveragesKeys(g);
    forall i | 0 <= i < |r|
      ensures exists d :: d in xs && r[i].severityRating == Finite(d.severityRating as real)
    {
      var d := RatingOfKey(xs, g.keys[i]);
    }
  }

  /** Every rating of the batch has an entry over the severity grouping. */
  lemma {:induction false} RatingsHaveEntries(xs: seq<Defect>, g: Dict<seq<Defect>>)
    requires g.keys == Distinct(KeysOf(xs, "severityRating"))
    ensures var r := SeverityAverages(g);
            forall d :: d in xs ==> exists i :: 0 <= i < |r| && r[i].severityRating == Finite(d.severityRating as real)
  {
    var r := SeverityAverages(g);
    SeverityAveragesKeys(g);
    forall d | d in xs
      ensures exists i :: 0 <= i < |r| && r[i].severityRating == Finite(d.severityRating as real)
    {
      KeyOfRating(xs, d);
      var i :| 0 <= i < |g.keys| && g.keys[i] == KeyOf(d, "severityRating");
    }
  }

  /** No two entries over the severity grouping carry the same rating. */
  lemma {:induction false} EntriesDistinct(xs: seq<Defect>, g: Dict<seq<Defect>>)
    requires g.keys == Distinct(KeysOf(xs, "severityRating"))
    ensures var r := SeverityAverages(g);
            forall i, j :: 0 <= i < j < |r| ==> r[i].severityRating != r[j].severityRating
  {
    var r := SeverityAverages(g);
    SeverityAveragesKeys(g);
    forall i, j | 0 <= i < j < |r|
      ensures r[i].severityRating != r[j].severityRating
    {
      DistinctKeysDistinctRatings(xs, g.keys[i], g.keys[j]);
    }
  }

  /** Over the severity grouping `g` of a batch, the entries read back as the
   *  severities they came from: one entry per severity of the batch, no
   *  severity twice. */
  lemma SeverityKeysReadBack(xs: seq<Defect>, g: Dict<seq<Defect>>)
    requires g == GroupTable(xs, "severityRating")
    ensures var r := SeverityAverages(g);
            && (forall i :: 0 <= i < |r| ==> exists d :: d in xs && r[i].severityRating == Finite(d.severityRating as real))
            && (forall d :: d in xs ==> exists i :: 0 <= i < |r| && r[i].severityRating == Finite(d.severityRating as real))
            && (forall i, j :: 0 <= i < j < |r| ==> r[i].severityRating != r[j].severityRating)
  {
    GroupTableKeys(xs, "severityRating");
    EntriesAreRatings(xs, g);
    RatingsHaveEntries(xs, g);
    EntriesDistinct(xs, g);
  }

  /** `{ carModel, avgSeverity, avgResolutionTime }` */
  datatype ModelAverages = ModelAverages(carModel: string, avgSeverity: real, avgResolutionTime: real)

  function ModelAveragesOf(g: Dict<seq<Defect>>): (r: seq<ModelAverages>)
    ensures |r| == |g.keys|
  {
    seq(|g.keys|, i requires 0 <= i < |g.keys| =>
      ModelAverages(g.keys[i],
        Average(Column(GroupAt(g, g.keys[i]), SeverityOf)),
        Average(Column(GroupAt(g, g.keys[i]), ResolutionOf))))
  }

  /** Each per-model summary names the `i`th car model and carries the mean
   *  severity and the mean resolution time of exactly that model's records. */
  lemma {:induction false} ModelAveragesSpec(xs: seq<Defect>, g: Dict<seq<Defect>>)
    requires g == GroupTable(xs, "carModel")
    ensures var r := ModelAveragesOf(g);
            var ds := Distinct(KeysOf(xs, "carModel"));
            && |r| == |ds|
            && forall i :: 0 <= i < |r| ==>
                 && r[i].carModel == ds[i]
                 && |GroupOf(xs, "carModel", ds[i])| > 0
                 && r[i].avgSeverity == Mean(Numbers(Column(GroupOf(xs, "carModel", ds[i]), SeverityOf)))
                 && r[i].avgResolutionTime == Mean(Numbers(Column(GroupOf(xs, "carModel", ds[i]), ResolutionOf)))
  {
    GroupTableMeaning(xs, "carModel");
    var ds := Distinct(KeysOf(xs, "carModel"));
    forall i | 0 <= i < |ds|
      ensures |GroupOf(xs, "carModel", ds[i])| > 0
      ensures Average(Column(GroupOf(xs, "carModel", ds[i]), SeverityOf))
              == Mean(Numbers(Column(GroupOf(xs, "carModel", ds[i]), SeverityOf)))
      ensures Average(Column(GroupOf(xs, "carModel", ds[i]), ResolutionOf))
              == Mean(Numbers(Column(GroupOf(xs, "carModel", ds[i]), ResolutionOf)))
    {
      GroupOfSize(xs, "carModel", ds[i]);
      ColumnAverage(GroupOf(xs, "carModel", ds[i]), SeverityOf);
      ColumnAverage(GroupOf(xs, "carModel", ds[i]), ResolutionOf);
    }
  }

  // ---------------------------------------------------------------------------
  // The most common defect of a station
  // ---------------------------------------------------------------------------

  /** The defect names of a list of records, record by record. */
  function Names(list: seq<Defect>): seq<string>
  {
    KeysOf(list, "defectName")
  }

  /** The position, among the distinct names, of the first name of maximal
   *  frequency. */
  function TopIndex(ns: seq<string>): nat
    requires |ns| > 0
  {
    CountTableMeaning(ns);
    FirstMax(Entries(CountTable(ns)))
  }

  /** The most frequent of the names `ns`: the head of the sorted frequency
   *  table, or "N/A" when the table is empty or the head is empty. */
  function TopOf(ns: seq<string>): string
  {
    var sorted := SortedTable(ns);
    if |sorted| == 0 || sorted[0].key == "" then "N/A" else sorted[0].key
  }

  /** `Object.entries(freq).sort((a, b) => b[1] - a[1])[0]`, then
   *  `top?.[0] || "N/A"`, over the defect names of `list`. */
  function TopName(list: seq<Defect>): string
  {
    TopOf(Names(list))
  }

  /** Counts the defect names of one station's records in a frequency table
   *  and reads off the most frequent one. */
  method MostCommonDefect(list: seq<Defect>) returns (name: string)
    ensures name == TopName(list)
  {
    var freq := EmptyDict();
    for i := 0 to |list|
      invariant freq == CountTable(KeysOf(list[..i], "defectName"))
    {
      CountPrefixStep(list, "defectName", i);
      TextKeys(list[i]);
      var e := list[i];
      freq := Tick(freq, e.defectName);
    }
    assert list[..|list|] == list;
    CountTableMeaning(Names(list));
    var sorted := SortDesc(Entries(freq));
    if |sorted| == 0 || sorted[0].key == "" {
      name := "N/A";
    } else {
      name := sorted[0].key;
    }
  }

  /** The chosen position names a most frequent name, and every name ahead of
   *  it in first-appearance order is strictly less frequent. */
  lemma {:induction false} TopIndexSpec(ns: seq<string>)
    requires |ns| > 0
    ensures TopIndex(ns) < |Distinct(ns)|
    ensures forall c :: c in ns ==> Count(ns, c) <= Count(ns, Distinct(ns)[TopIndex(ns)])
    ensures forall j :: 0 <= j < TopIndex(ns) ==> Count(ns, Distinct(ns)[j]) < Count(ns, Distinct(ns)[TopIndex(ns)])
  {
    CountTableMeaning(ns);
    var es := Entries(CountTable(ns));
    var ds := Distinct(ns);
    var i := TopIndex(ns);
    forall c | c in ns
      ensures Count(ns, c) <= Count(ns, ds[i])
    {
      var j :| 0 <= j < |ds| && ds[j] == c;
      assert es[j].count <= es[i].count;
    }
  }

  /** The head of the sorted table is the name at that position. */
  lemma {:induction false} TopOfHead(ns: seq<string>)
    requires |ns| > 0
    ensures TopIndex(ns) < |Distinct(ns)| == |SortedTable(ns)|
    ensures SortedTable(ns)[0].key == Distinct(ns)[TopIndex(ns)]
  {
    CountTableMeaning(ns);
    var es := Entries(CountTable(ns));
    SortDescHead(es);
    SortedTableSpec(ns);
  }

  /** "N/A" for no records; otherwise the first name, in order of first
   *  appearance, of maximal frequency, or "N/A" when that name is empty. */
  lemma TopNameSpec(list: seq<Defect>)
    ensures |list| == 0 ==> TopName(list) == "N/A"
    ensures |list| > 0 ==>
              var ns := Names(list);
              var ds := Distinct(ns);
              var i := TopIndex(ns);
              && i < |ds|
              && (forall c :: c in ns ==> Count(ns, c) <= Count(ns, ds[i]))
              && (forall j :: 0 <= j < i ==> Count(ns, ds[j]) < Count(ns, ds[i]))
              && TopName(list) == if ds[i] == "" then "N/A" else ds[i]
  {
    var ns := Names(list);
    if |list| > 0 {
      TopIndexSpec(ns);
      TopOfHead(ns);
    } else {
      SortedTableSpec(ns);
    }
  }

  /** The most common defect name of the group stored under a station. */
  function StationTop(g: Dict<seq<Defect>>): string -> string
  {
    station => TopName(GroupAt(g, station))
  }

  /** The reduce over the station groups, visiting the stations in `ks`. */
  function TopNames(g: Dict<seq<Defect>>, ks: seq<string>): Dict<string>
  {
    PutAll(ks, StationTop(g))
  }

  lemma TopNamesStep(g: Dict<seq<Defect>>, ks: seq<string>, i: int)
    requires 0 <= i < |ks|
    ensures TopNames(g, ks[..i + 1]) == TopNames(g, ks[..i]).Put(ks[i], TopName(GroupAt(g, ks[i])))
  {
    PutAllStep(ks, StationTop(g), i);
  }

  /** `mostCommonDefectPerStation`: for each station group, in order, stores
   *  the group's most common defect name under the station. */
  method MostCommonPerStation(groups: Dict<seq<Defect>>) returns (acc: Dict<string>)
    ensures acc == TopNames(groups, groups.keys)
  {
    acc := EmptyDict();
    for i := 0 to |groups.keys|
      invariant acc == TopNames(groups, groups.keys[..i])
    {
      TopNamesStep(groups, groups.keys, i);
      var station := groups.keys[i];
      var top := MostCommonDefect(GroupAt(groups, station));
      acc := acc.Put(station, top);
    }
    assert groups.keys[..|groups.keys|] == groups.keys;
  }

  /** The station map lists the visited stations once each, in order. */
  lemma TopNamesKeys(g: Dict<seq<Defect>>, ks: seq<string>)
    requires NoDuplicates(ks)
    ensures TopNames(g, ks).Valid()
    ensures TopNames(g, ks).keys == ks
  {
    PutAllKeys(ks, StationTop(g));
  }

  /** A visited station maps to the most common defect of its group. */
  lemma TopNamesAt(g: Dict<seq<Defect>>, ks: seq<string>, k: string)
    requires k in ks
    ensures k in TopNames(g, ks).at && TopNames(g, ks).at[k] == TopName(GroupAt(g, k))
  {
    PutAllAt(ks, StationTop(g), k);
  }

  // ---------------------------------------------------------------------------
  // Root causes
  // ---------------------------------------------------------------------------

  /** The records whose root cause reads "yes", ignoring case. */
  function WithRootCause(xs: seq<Defect>): seq<Defect>
  {
    Filter(xs, (d: Defect) => Lower(d.rootCauseIdentified) == "yes")
  }

  /** The records whose root cause reads "no", ignoring case. */
  function WithoutRootCause(xs: seq<Defect>): seq<Defect>
  {
    Filter(xs, (d: Defect) => Lower(d.rootCauseIdentified) == "no")
  }

  /** `(yesCount / list.length) * 100`: NaN exactly for no records, and
   *  otherwise a number between 0 and 100. */
  function RootCausePercent(xs: seq<Defect>): (r: JsNumber)
    ensures r.NaN? <==> |xs| == 0
    ensures r.Finite? ==> 0.0 <= r.value <= 100.0
  {
    if |xs| == 0 then NaN
    else
      PercentBounds(|WithRootCause(xs)|, |xs|);
      Finite(Percent(|WithRootCause(xs)|, |xs|))
  }

  /** `{ defectName, percentRootCauseIdentified }` */
  datatype RootCauseShare = RootCauseShare(defectName: string, percentRootCauseIdentified: JsNumber)

  function RootCauseShares(g: Dict<seq<Defect>>): (r: seq<RootCauseShare>)
    ensures |r| == |g.keys|
  {
    seq(|g.keys|, i requires 0 <= i < |g.keys| =>
      RootCauseShare(g.keys[i], RootCausePercent(GroupAt(g, g.keys[i]))))
  }

  /** One entry per defect name, in first-appearance order: the share of that
   *  name's records answered "yes", a number between 0 and 100 (the groups
   *  are never empty, so never NaN). */
  lemma {:induction false} RootCauseSharesSpec(xs: seq<Defect>)
    ensures var r := RootCauseShares(GroupTable(xs, "defectName"));
            var ks := KeysOf(xs, "defectName");
            && |r| == |Distinct(ks)|
            && forall i :: 0 <= i < |r| ==>
                 && r[i].defectName == Distinct(ks)[i]
                 && Count(ks, Distinct(ks)[i]) > 0
                 && r[i].percentRootCauseIdentified
                    == Finite(Percent(|WithRootCause(GroupOf(xs, "defectName", Distinct(ks)[i]))|, Count(ks, Distinct(ks)[i])))
                 && 0.0 <= r[i].percentRootCauseIdentified.value <= 100.0
  {
    GroupTableMeaning(xs, "defectName");
    var g := GroupTable(xs, "defectName");
    forall i | 0 <= i < |g.keys|
      ensures |GroupAt(g, g.keys[i])| == Count(KeysOf(xs, "defectName"), g.keys[i]) > 0
      ensures 0.0 <= RootCausePercent(GroupAt(g, g.keys[i])).value <= 100.0
    {
      GroupOfSize(xs, "defectName", g.keys[i]);
    }
  }

  /** The two cohorts hold exactly the records answered "yes" and "no" in any
   *  case; any other answer is in neither, and no record is in both. */
  lemma CohortsSpec(xs: seq<Defect>)
    ensures forall d :: d in WithRootCause(xs) <==> d in xs && Lower(d.rootCauseIdentified) == "yes"
    ensures forall d :: d in WithoutRootCause(xs) <==> d in xs && Lower(d.rootCauseIdentified) == "no"
    ensures forall d :: !(d in WithRootCause(xs) && d in WithoutRootCause(xs))
  {
    FilterMembership(xs, (d: Defect) => Lower(d.rootCauseIdentified) == "yes");
    FilterMembership(xs, (d: Defect) => Lower(d.rootCauseIdentified) == "no");
  }

  // ---------------------------------------------------------------------------
  // calculateDefectMetrics
  // ---------------------------------------------------------------------------

  /** The object `calculateDefectMetrics` returns. */
  datatype DefectMetrics = DefectMetrics(
    overallAvgResolution: real,
    avgResolutionPerSeverity: seq<SeverityAverage>,
    avgResolutionPerDefect: seq<Keyed>,
    avgResolutionPerStation: seq<Keyed>,
    avgResolutionPerPart: seq<Keyed>,
    defectCountPerDefect: Dict<int>,
    defectCountPerModel: Dict<int>,
    defectCountPerPart: Dict<int>,
    defectCountPerShift: Dict<int>,
    mostCommonDefectPerStation: Dict<string>,
    severityDistribution: Dict<int>,
    avgSeverityPerModel: seq<Keyed>,
    avgSeverityPerStation: seq<Keyed>,
    percentRootCauseIdentified: JsNumber,
    rootCausePerDefect: seq<RootCauseShare>,
    avgWithRoot: real,
    avgWithoutRoot: real,
    reportsPerReporter: Dict<int>,
    avgSeverityPerReporter: seq<Keyed>,
    avgResolutionPerReporter: seq<Keyed>,
    defectRatePerModel: Dict<int>,
    avgMetricsPerModel: seq<ModelAverages>)

  /** The metrics of a batch, each figure taken from the grouping or counting
   *  of the field it is about. */
  function MetricsOf(data: seq<Defect>): DefectMetrics
  {
    var bySeverity := GroupTable(data, "severityRating");
    var byDefect := GroupTable(data, "defectName");
    var byStation := GroupTable(data, "station");
    var byPart := GroupTable(data, "partOfTheCar");
    var byModel := GroupTable(data, "carModel");
    var byReporter := GroupTable(data, "reporterName");
    DefectMetrics(
      Average(Column(data, ResolutionOf)),
      SeverityAverages(bySeverity),
      Averages(byDefect, ResolutionOf),
      Averages(byStation, ResolutionOf),
      Averages(byPart, ResolutionOf),
      CountTable(KeysOf(data, "defectName")),
      CountTable(KeysOf(data, "carModel")),
      CountTable(KeysOf(data, "partOfTheCar")),
      CountTable(KeysOf(data, "productionShift")),
      TopNames(byStation, byStation.keys),
      CountTable(KeysOf(data, "severityRating")),
      Averages(byModel, SeverityOf),
      Averages(byStation, SeverityOf),
      RootCausePercent(data),
      RootCauseShares(byDefect),
      Average(Column(WithRootCause(data), ResolutionOf)),
      Average(Column(WithoutRootCause(data), ResolutionOf)),
      Sizes(byReporter),
      Averages(byReporter, SeverityOf),
      Averages(byReporter, ResolutionOf),
      CountTable(KeysOf(data, "carModel")),
      ModelAveragesOf(byModel))
  }

  /** `calculateDefectMetrics(data)`: groups and counts the batch field by
   *  field and derives every figure from those tables. */
  method CalculateDefectMetrics(data: seq<Defect>) returns (m: DefectMetrics)
    ensures m == MetricsOf(data)
  {
    var overallAvgResolution := Average(Column(data, ResolutionOf));
    var groupBySeverity := GroupBy(data, "severityRating");
    var avgResolutionPerSeverity := SeverityAverages(groupBySeverity);
    var byDefect := GroupBy(data, "defectName");
    var avgResolutionPerDefect := Averages(byDefect, ResolutionOf);
    var byStation := GroupBy(data, "station");
    var avgResolutionPerStation := Averages(byStation, ResolutionOf);
    var byPart := GroupBy(data, "partOfTheCar");
    var avgResolutionPerPart := Averages(byPart, ResolutionOf);

    var defectCountPerDefect := CountBy(data, "defectName");
    var defectCountPerModel := CountBy(data, "carModel");
    var defectCountPerPart := CountBy(data, "partOfTheCar");
    var defectCountPerShift := CountBy(data, "productionShift");

    var stationGroups := GroupBy(data, "station");
    var mostCommonDefectPerStation := MostCommonPerStation(stationGroups);

    var severityDistribution := CountBy(data, "severityRating");

    var byModel := GroupBy(data, "carModel");
    var avgSeverityPerModel := Averages(byModel, SeverityOf);
    var byStationAgain := GroupBy(data, "station");
    var avgSeverityPerStation := Averages(byStationAgain, SeverityOf);

    var percentRootCauseIdentified := RootCausePercent(data);
    var byDefectAgain := GroupBy(data, "defectName");
    var rootCausePerDefect := RootCauseShares(byDefectAgain);

    var avgWithRoot := Average(Column(WithRootCause(data), ResolutionOf));
    var avgWithoutRoot := Average(Column(WithoutRootCause(data), ResolutionOf));

    var groupByReporter := GroupBy(data, "reporterName");
    var reportsPerReporter := Sizes(groupByReporter);
    var avgSeverityPerReporter := Averages(groupByReporter, SeverityOf);
    var avgResolutionPerReporter := Averages(groupByReporter, ResolutionOf);

    var defectRatePerModel := CountBy(data, "carModel");
    var byModelAgain := GroupBy(data, "carModel");
    var avgMetricsPerModel := ModelAveragesOf(byModelAgain);

    m := DefectMetrics(
      overallAvgResolution,
      avgResolutionPerSeverity,
      avgResolutionPerDefect,
      avgResolutionPerStation,
      avgResolutionPerPart,
      defectCountPerDefect,
      defectCountPerModel,
      defectCountPerPart,
      defectCountPerShift,
      mostCommonDefectPerStation,
      severityDistribution,
      avgSeverityPerModel,
      avgSeverityPerStation,
      percentRootCauseIdentified,
      rootCausePerDefect,
      avgWithRoot,
      avgWithoutRoot,
      reportsPerReporter,
      avgSeverityPerReporter,
      avgResolutionPerReporter,
      defectRatePerModel,
      avgMetricsPerModel);
  }

  /** The per-model summary repeats the per-model severity averages, key by
   *  key. */
  lemma ModelSummaryRepeats(g: Dict<seq<Defect>>)
    ensures |ModelAveragesOf(g)| == |Averages(g, SeverityOf)|
    ensures forall i :: 0 <= i < |ModelAveragesOf(g)| ==>
              && ModelAveragesOf(g)[i].carModel == Averages(g, SeverityOf)[i].key
              && ModelAveragesOf(g)[i].avgSeverity == Averages(g, SeverityOf)[i].value
  {
  }

  /** The figures that different expressions compute agree: the per-model
   *  rates are the per-model counts, the reports per reporter are the
   *  reporter counts, and the per-model summary repeats the per-model
   *  severity averages, model by model. */
  lemma {:induction false} MetricsAgree(data: seq<Defect>)
    ensures var m := MetricsOf(data);
            && m.defectRatePerModel == m.defectCountPerModel
            && m.reportsPerReporter == CountTable(KeysOf(data, "reporterName"))
            && |m.avgMetricsPerModel| == |m.avgSeverityPerModel|
            && forall i :: 0 <= i < |m.avgMetricsPerModel| ==>
                 && m.avgMetricsPerModel[i].carModel == m.avgSeverityPerModel[i].key
                 && m.avgMetricsPerModel[i].avgSeverity == m.avgSeverityPerModel[i].value
  {
    CountsAreGroupSizes(data, "reporterName");
    ModelSummaryRepeats(GroupTable(data, "carModel"));
  }

  /** A batch's station map names every station once, in first-occurrence
   *  order, with the most common defect among that station's records. */
  lemma {:induction false} MostCommonPerStationSpec(data: seq<Defect>)
    ensures var m := MetricsOf(data).mostCommonDefectPerStation;
            && m.Valid()
            && m.keys == Distinct(KeysOf(data, "station"))
            && forall s :: s in m.keys ==> m.at[s] == TopName(GroupOf(data, "station", s))
  {
    GroupTableMeaning(data, "station");
    var g := GroupTable(data, "station");
    TopNamesKeys(g, g.keys);
    forall s | s in g.keys
      ensures TopNames(g, g.keys).at[s] == TopName(GroupOf(data, "station", s))
    {
      TopNamesAt(g, g.keys, s);
    }
  }

  /** A record that differs from the others only in its root-cause answer and
   *  its resolution time. */
  function Answer(rootCause: string, resolutionTime: int): Defect
  {
    Defect(0, "", "", "", "", "", "", 0, 0, "", "", "", "", resolutionTime, rootCause, "")
  }

  /** Two "yes" and three "no" answers, in mixed case, with resolution times
   *  2, 4, 6, 8 and 10. */
  function ExampleBatch(): seq<Defect>
  {
    [Answer("yes", 2), Answer("Yes", 4), Answer("no", 6), Answer("NO", 8), Answer("No", 10)]
  }

  /** A filter over five records, record by record. */
  lemma FilterOfFive(a: Defect, b: Defect, c: Defect, d: Defect, e: Defect, p: Defect -> bool)
    ensures Filter([a, b, c, d, e], p)
            == (if p(a) then [a] else []) + (if p(b) then [b] else []) + (if p(c) then [c] else [])
               + (if p(d) then [d] else []) + (if p(e) then [e] else [])
  {
    assert [a, b, c, d, e] == [a, b, c, d] + [e];
    assert [a, b, c, d] == [a, b, c] + [d];
    assert [a, b, c] == [a, b] + [c];
    assert [a, b] == [a] + [b];
    assert [a] == [] + [a];
    FilterSnoc([], a, p);
    FilterSnoc([a], b, p);
    FilterSnoc([a, b], c, p);
    FilterSnoc([a, b, c], d, p);
    FilterSnoc([a, b, c, d], e, p);
  }

  /** The example's answers in lower case. */
  lemma AnswersLowered()
    ensures Lower("yes") == "yes" && Lower("Yes") == "yes"
    ensures Lower("no") == "no" && Lower("NO") == "no" && Lower("No") == "no"
  {
  }

  /** The "yes" cohort of the example is its first two records. */
  lemma ExampleYesCohort()
    ensures WithRootCause(ExampleBatch()) == [Answer("yes", 2), Answer("Yes", 4)]
  {
    AnswersLowered();
    FilterOfFive(Answer("yes", 2), Answer("Yes", 4), Answer("no", 6), Answer("NO", 8), Answer("No", 10),
                 (x: Defect) => Lower(x.rootCauseIdentified) == "yes");
  }

  /** The "no" cohort of the example is its last three records. */
  lemma ExampleNoCohort()
    ensures WithoutRootCause(ExampleBatch()) == [Answer("no", 6), Answer("NO", 8), Answer("No", 10)]
  {
    AnswersLowered();
    FilterOfFive(Answer("yes", 2), Answer("Yes", 4), Answer("no", 6), Answer("NO", 8), Answer("No", 10),
                 (x: Defect) => Lower(x.rootCauseIdentified) == "no");
  }

  /** The mean of the example's "yes" cohort. */
  lemma ExampleYesAverage()
    ensures Average(Column(WithRootCause(ExampleBatch()), ResolutionOf)) == 3.0
  {
    ExampleYesCohort();
    var yes := WithRootCause(ExampleBatch());
    ColumnAverage(yes, ResolutionOf);
    var ys := Numbers(Column(yes, ResolutionOf));
    assert ys == [2.0, 4.0];
    assert ys[..1] == [2.0] && ys[..1][..0] == [];
    assert Sum(ys[..1]) == 2.0;
    AsRealIsCast(2);
  }

  /** The mean of the example's "no" cohort. */
  lemma ExampleNoAverage()
    ensures Average(Column(WithoutRootCause(ExampleBatch()), ResolutionOf)) == 8.0
  {
    ExampleNoCohort();
    var no := WithoutRootCause(ExampleBatch());
    ColumnAverage(no, ResolutionOf);
    var ns := Numbers(Column(no, ResolutionOf));
    assert ns == [6.0, 8.0, 10.0];
    assert ns[..2] == [6.0, 8.0] && ns[..2][..1] == [6.0] && ns[..2][..1][..0] == [];
    assert Sum(ns[..2][..1]) == 6.0;
    assert Sum(ns[..2]) == 14.0;
    AsRealIsCast(3);
  }

  /** The example batch: 40 percent identified, 3 and 8 as the cohort
   *  averages. */
  lemma RootCauseExample()
    ensures RootCausePercent(ExampleBatch()) == Finite(40.0)
    ensures Average(Column(WithRootCause(ExampleBatch()), ResolutionOf)) == 3.0
    ensures Average(Column(WithoutRootCause(ExampleBatch()), ResolutionOf)) == 8.0
  {
    ExampleYesCohort();
    ExampleYesAverage();
    ExampleNoAverage();
  }
}
