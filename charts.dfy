/** The chart aggregations: the five most common defect categories, the
 *  per-model motor-type and design-package rates, the share of all defects
 *  taken by each car model, motor type and design package, and the
 *  resolution times of one station. Each walks a fixed catalogue, or the
 *  batch, pushing one result per step. */
module Charts {
  import opened Tally
  import opened Records
  import opened Stats
  import opened Sorting

  // ---------------------------------------------------------------------------
  // The five most common categories
  // ---------------------------------------------------------------------------

  /** The categories of a batch, record by record. */
  function Categories(defects: seq<Defect>): seq<string>
  {
    KeysOf(defects, "defectCategory")
  }

  /** The category table sorted by descending count and cut after its fifth
   *  entry. */
  function TopCategories(defects: seq<Defect>): seq<Entry>
  {
    var sorted := SortedTable(Categories(defects));
    if |sorted| <= 5 then sorted else sorted[..5]
  }

  /** `getTop5MostCommonDefects(defects)`: counts every category in a
   *  frequency table, lists the table, sorts it by descending count and
   *  keeps the first five entries. */
  method Top5MostCommonDefects(defects: seq<Defect>) returns (r: seq<Entry>)
    ensures r == TopCategories(defects)
  {
    var frequencyMap := EmptyDict();
    for i := 0 to |defects|
      invariant frequencyMap == CountTable(KeysOf(defects[..i], "defectCategory"))
    {
      CountPrefixStep(defects, "defectCategory", i);
      TextKeys(defects[i]);
      var category := defects[i].defectCategory;
      frequencyMap := Tick(frequencyMap, category);
    }
    assert defects[..|defects|] == defects;
    CountTableMeaning(KeysOf(defects, "defectCategory"));
    var frequencyArray := Entries(frequencyMap);
    var sortedFrequency := SortDesc(frequencyArray);
    if |sortedFrequency| <= 5 {
      r := sortedFrequency;
    } else {
      r := sortedFrequency[..5];
    }
  }

  /** The result holds `min(5, #categories)` entries with non-increasing counts,
   *  each a category of the batch with its number of records, and no category
   *  left out is more frequent than any category kept. */
  lemma {:induction false} TopCategoriesSpec(defects: seq<Defect>)
    ensures var r := TopCategories(defects);
            var ks := Categories(defects);
            && |r| == (if |Distinct(ks)| <= 5 then |Distinct(ks)| else 5)
            && Descending(r)
            && (forall i :: 0 <= i < |r| ==> r[i].key in ks && r[i].count == Count(ks, r[i].key))
            && (forall c, i :: c in ks && 0 <= i < |r| && (forall j :: 0 <= j < |r| ==> r[j].key != c)
                  ==> Count(ks, c) <= r[i].count)
            && (forall i, j :: 0 <= i < j < |r| ==> r[i].key != r[j].key)
  {
    TopFiveOfTable(Categories(defects), TopCategories(defects));
  }

  /** The first five entries of a sorted table, whatever keys it counts. */
  lemma {:induction false} TopFiveOfTable(ks: seq<string>, r: seq<Entry>)
    requires r == if |SortedTable(ks)| <= 5 then SortedTable(ks) else SortedTable(ks)[..5]
    ensures |r| == (if |Distinct(ks)| <= 5 then |Distinct(ks)| else 5)
    ensures Descending(r)
    ensures forall i :: 0 <= i < |r| ==> r[i].key in ks && r[i].count == Count(ks, r[i].key)
    ensures forall c, i :: c in ks && 0 <= i < |r| && (forall j :: 0 <= j < |r| ==> r[j].key != c)
              ==> Count(ks, c) <= r[i].count
    ensures forall i, j :: 0 <= i < j < |r| ==> r[i].key != r[j].key
  {
    var sorted := SortedTable(ks);
    SortedTableSpec(ks);
    var n := if |sorted| <= 5 then |sorted| else 5;
    assert r == sorted[..n];
    TablePrefix(sorted, ks, n);
  }

  /** A prefix of a count table that lists every key once, by non-increasing
   *  count, keeps the most frequent keys. */
  lemma {:induction false} TablePrefix(t: seq<Entry>, ks: seq<string>, n: nat)
    requires n <= |t|
    requires Descending(t)
    requires forall i :: 0 <= i < |t| ==> t[i].key in ks && t[i].count == Count(ks, t[i].key)
    requires forall c :: c in ks ==> Entry(c, Count(ks, c)) in t
    requires forall i, j :: 0 <= i < j < |t| ==> t[i].key != t[j].key
    ensures Descending(t[..n])
    ensures forall i :: 0 <= i < n ==> t[..n][i].key in ks && t[..n][i].count == Count(ks, t[..n][i].key)
    ensures forall c, i :: c in ks && 0 <= i < n && (forall j :: 0 <= j < n ==> t[..n][j].key != c)
              ==> Count(ks, c) <= t[..n][i].count
    ensures forall i, j :: 0 <= i < j < n ==> t[..n][i].key != t[..n][j].key
  {
    var r := t[..n];
    assert forall j :: 0 <= j < n ==> r[j] == t[j];
    forall c, i | c in ks && 0 <= i < n && (forall j :: 0 <= j < n ==> r[j].key != c)
      ensures Count(ks, c) <= r[i].count
    {
      var p :| 0 <= p < |t| && t[p] == Entry(c, Count(ks, c));
      assert p >= n;
    }
  }

  // ---------------------------------------------------------------------------
  // Rates per car model
  // ---------------------------------------------------------------------------

  /** The car models the rate charts walk, in chart order. */
  const CarModels: seq<string> := ["Base", "IX0M", "Long", "Alpina", "Pick-Up"]

  datatype MotorTypeRate = MotorTypeRate(longRange: real, highPerformance: real, standard: real)

  datatype DesignPackageRate = DesignPackageRate(offroad: real, race: real, luxury: real, eco: real)

  datatype CalculatedDefectRates = CalculatedDefectRates(
    carModel: string,
    total: nat,
    motorTypeRate: MotorTypeRate,
    designPackageRate: DesignPackageRate)

  /** `total > 0 ? (count / total) * 100 : 0` */
  function Rate(count: nat, total: nat): real
  {
    if total > 0 then Percent(count, total) else 0.0
  }

  /** The records whose `field` is `value`: `xs.filter(d => d[field] == value)`
   *  on a string field. */
  function Having(xs: seq<Defect>, field: string, value: string): seq<Defect>
  {
    GroupOf(xs, field, value)
  }

  /** The share of each motor type among the records of one model. */
  function MotorRates(forModel: seq<Defect>): MotorTypeRate
  {
    var total := |forModel|;
    MotorTypeRate(
      Rate(|Having(forModel, "motorType", "Long Range")|, total),
      Rate(|Having(forModel, "motorType", "High Performance")|, total),
      Rate(|Having(forModel, "motorType", "Standard")|, total))
  }

  /** The share of each design package among the records of one model. */
  function PackageRates(forModel: seq<Defect>): DesignPackageRate
  {
    var total := |forModel|;
    DesignPackageRate(
      Rate(|Having(forModel, "designPackage", "Offroad")|, total),
      Rate(|Having(forModel, "designPackage", "Race")|, total),
      Rate(|Having(forModel, "designPackage", "Luxury")|, total),
      Rate(|Having(forModel, "designPackage", "Eco")|, total))
  }

  /** The entry for one car model: its number of records, and the share of
   *  each motor type and design package among them. */
  function RatesFor(defects: seq<Defect>, model: string): CalculatedDefectRates
  {
    var forModel := Having(defects, "carModel", model);
    CalculatedDefectRates(model, |forModel|, MotorRates(forModel), PackageRates(forModel))
  }

  /** `calculateDefectRatesPerModel(defects)`: one entry per car model of the
   *  catalogue, in catalogue order. */
  method DefectRatesPerModel(defects: seq<Defect>) returns (calculatedData: seq<CalculatedDefectRates>)
    ensures |calculatedData| == |CarModels|
    ensures forall i :: 0 <= i < |CarModels| ==> calculatedData[i] == RatesFor(defects, CarModels[i])
  {
    calculatedData := [];
    var carModelsToAnalyze := CarModels;
    for i := 0 to |carModelsToAnalyze|
      invariant |calculatedData| == i
      invariant forall j :: 0 <= j < i ==> calculatedData[j] == RatesFor(defects, CarModels[j])
    {
      var model := carModelsToAnalyze[i];
      calculatedData := calculatedData + [RatesFor(defects, model)];
    }
  }

  /** The sum of the rates of the catalogue values `cs` among the keys `ks`
   *  of `total` records. */
  function RateSum(cs: seq<string>, ks: seq<string>, total: nat): real
  {
    if |cs| == 0 then 0.0 else Rate(Count(ks, cs[0]), total) + RateSum(cs[1..], ks, total)
  }

  /** The rates of several values add up to the rate of all of them together. */
  lemma {:induction false} RateSumIsRate(cs: seq<string>, ks: seq<string>, total: nat)
    ensures SumCounts(cs, ks) >= 0
    ensures RateSum(cs, ks, total) == Rate(SumCounts(cs, ks), total)
  {
    if |cs| > 0 {
      RateSumIsRate(cs[1..], ks, total);
      if total > 0 {
        PercentAdd(Count(ks, cs[0]), SumCounts(cs[1..], ks), total);
      }
    }
  }

  /** A rate is a percentage, and 0 when there is nothing to count. */
  lemma RateBounds(count: nat, total: nat)
    requires count <= total
    ensures 0.0 <= Rate(count, total) <= 100.0
    ensures total == 0 ==> Rate(count, total) == 0.0
  {
    if total > 0 {
      PercentBounds(count, total);
    }
  }

  /** Rates of distinct catalogue values share one whole: together they are at
   *  most 100 percent. */
  lemma {:induction false} CatalogueRates(cs: seq<string>, ks: seq<string>)
    requires NoDuplicates(cs)
    ensures 0.0 <= RateSum(cs, ks, |ks|) <= 100.0
  {
    RateSumIsRate(cs, ks, |ks|);
    SumCountsBound(cs, ks);
    RateBounds(SumCounts(cs, ks), |ks|);
  }

  /** The size of a value's records is its number of occurrences. */
  lemma HavingSize(xs: seq<Defect>, field: string, value: string)
    ensures |Having(xs, field, value)| == Count(KeysOf(xs, field), value)
  {
    GroupOfSize(xs, field, value);
  }

  /** Three distinct values occur at most as often as there are keys. */
  lemma ThreeCounts(ks: seq<string>, u: string, v: string, w: string)
    requires u != v && u != w && v != w
    ensures Count(ks, u) + Count(ks, v) + Count(ks, w) <= |ks|
  {
    var cs := [u, v, w];
    SumCountsBound(cs, ks);
    assert cs[1..] == [v, w] && cs[1..][1..] == [w];
  }

  /** Four distinct values occur at most as often as there are keys. */
  lemma FourCounts(ks: seq<string>, u: string, v: string, w: string, x: string)
    requires u != v && u != w && u != x && v != w && v != x && w != x
    ensures Count(ks, u) + Count(ks, v) + Count(ks, w) + Count(ks, x) <= |ks|
  {
    var cs := [u, v, w, x];
    SumCountsBound(cs, ks);
    assert cs[1..] == [v, w, x] && cs[1..][1..] == [w, x] && cs[1..][1..][1..] == [x];
  }

  /** The rates of three distinct values are percentages that add up to at
   *  most 100. */
  lemma ThreeRates(ks: seq<string>, u: string, v: string, w: string)
    requires u != v && u != w && v != w
    ensures 0.0 <= Rate(Count(ks, u), |ks|) && 0.0 <= Rate(Count(ks, v), |ks|) && 0.0 <= Rate(Count(ks, w), |ks|)
    ensures Rate(Count(ks, u), |ks|) + Rate(Count(ks, v), |ks|) + Rate(Count(ks, w), |ks|) <= 100.0
  {
    var a, b, c, n := Count(ks, u), Count(ks, v), Count(ks, w), |ks|;
    ThreeCounts(ks, u, v, w);
    RateBounds(a, n);
    RateBounds(b, n);
    RateBounds(c, n);
    if n > 0 {
      PercentAdd(a, b, n);
      PercentAdd(a + b, c, n);
      PercentBounds(a + b + c, n);
    }
  }

  /** The rates of four distinct values are percentages that add up to at
   *  most 100. */
  lemma FourRates(ks: seq<string>, u: string, v: string, w: string, x: string)
    requires u != v && u != w && u != x && v != w && v != x && w != x
    ensures 0.0 <= Rate(Count(ks, u), |ks|) && 0.0 <= Rate(Count(ks, v), |ks|)
    ensures 0.0 <= Rate(Count(ks, w), |ks|) && 0.0 <= Rate(Count(ks, x), |ks|)
    ensures Rate(Count(ks, u), |ks|) + Rate(Count(ks, v), |ks|) + Rate(Count(ks, w), |ks|) + Rate(Count(ks, x), |ks|) <= 100.0
  {
    var a, b, c, d, n := Count(ks, u), Count(ks, v), Count(ks, w), Count(ks, x), |ks|;
    FourCounts(ks, u, v, w, x);
    RateBounds(a, n);
    RateBounds(b, n);
    RateBounds(c, n);
    RateBounds(d, n);
    if n > 0 {
      PercentAdd(a, b, n);
      PercentAdd(a + b, c, n);
      PercentAdd(a + b + c, d, n);
      PercentBounds(a + b + c + d, n);
    }
  }

  /** The motor-type rates are percentages of the model's records, all 0 when
   *  it has none, and add up to at most 100. */
  lemma {:induction false} MotorRatesSpec(forModel: seq<Defect>)
    ensures var m := MotorRates(forModel);
            var ks := KeysOf(forModel, "motorType");
            && m.longRange == Rate(Count(ks, "Long Range"), |forModel|)
            && m.highPerformance == Rate(Count(ks, "High Performance"), |forModel|)
            && m.standard == Rate(Count(ks, "Standard"), |forModel|)
            && (|forModel| == 0 ==> m == MotorTypeRate(0.0, 0.0, 0.0))
            && 0.0 <= m.longRange && 0.0 <= m.highPerformance && 0.0 <= m.standard
            && m.longRange + m.highPerformance + m.standard <= 100.0
  {
    var ks := KeysOf(forModel, "motorType");
    var t := |forModel|;
    HavingSize(forModel, "motorType", "Long Range");
    HavingSize(forModel, "motorType", "High Performance");
    HavingSize(forModel, "motorType", "Standard");
    ThreeRates(ks, "Long Range", "High Performance", "Standard");
  }

  /** The design-package rates are percentages of the model's records, all 0
   *  when it has none, and add up to at most 100. */
  lemma {:induction false} PackageRatesSpec(forModel: seq<Defect>)
    ensures var p := PackageRates(forModel);
            var ks := KeysOf(forModel, "designPackage");
            && p.offroad == Rate(Count(ks, "Offroad"), |forModel|)
            && p.race == Rate(Count(ks, "Race"), |forModel|)
            && p.luxury == Rate(Count(ks, "Luxury"), |forModel|)
            && p.eco == Rate(Count(ks, "Eco"), |forModel|)
            && (|forModel| == 0 ==> p == DesignPackageRate(0.0, 0.0, 0.0, 0.0))
            && 0.0 <= p.offroad && 0.0 <= p.race && 0.0 <= p.luxury && 0.0 <= p.eco
            && p.offroad + p.race + p.luxury + p.eco <= 100.0
  {
    var ks := KeysOf(forModel, "designPackage");
    var t := |forModel|;
    HavingSize(forModel, "designPackage", "Offroad");
    HavingSize(forModel, "designPackage", "Race");
    HavingSize(forModel, "designPackage", "Luxury");
    HavingSize(forModel, "designPackage", "Eco");
    FourRates(ks, "Offroad", "Race", "Luxury", "Eco");
  }

  /** Each per-model entry names its model and counts its records; its rates
   *  are those of the two lemmas above. */
  lemma RatesForSpec(defects: seq<Defect>, model: string)
    ensures var e := RatesFor(defects, model);
            && e.carModel == model
            && e.total == Count(KeysOf(defects, "carModel"), model)
            && e.motorTypeRate == MotorRates(Having(defects, "carModel", model))
            && e.designPackageRate == PackageRates(Having(defects, "carModel", model))
  {
    HavingSize(defects, "carModel", model);
  }

  // ---------------------------------------------------------------------------
  // Share of all defects per catalogue item
  // ---------------------------------------------------------------------------

  /** One point of a share chart: the catalogue index, the item, and its share
   *  of all defects in percent (`{ id, label, value }`). */
  datatype ModelDefect = ModelDefect(id: nat, itemLabel: string, value: real)

  /** The share chart of `field` over the catalogue `items`: empty for an empty
   *  batch, otherwise one point per item. */
  function Shares(defects: seq<Defect>, field: string, items: seq<string>): seq<ModelDefect>
  {
    if |defects| == 0 then []
    else seq(|items|, i requires 0 <= i < |items| =>
           ModelDefect(i, items[i], Percent(|Having(defects, field, items[i])|, |defects|)))
  }

  /** The loop that `modelDefectRate`, `motorTypeDefectRate` and
   *  `packageDefectRate` share: returns at once for an empty batch, otherwise
   *  pushes one point per catalogue item. */
  method ShareOfTotal(defects: seq<Defect>, field: string, items: seq<string>) returns (calculatedData: seq<ModelDefect>)
    ensures calculatedData == Shares(defects, field, items)
  {
    calculatedData := [];
    var total := |defects|;
    if total == 0 {
      return;
    }
    for index := 0 to |items|
      invariant calculatedData == Shares(defects, field, items)[..index]
    {
      var forItem := Having(defects, field, items[index]);
      calculatedData := calculatedData + [ModelDefect(index, items[index], Percent(|forItem|, total))];
    }
  }

  /** `modelDefectRate(defects)` */
  method ModelDefectRate(defects: seq<Defect>) returns (r: seq<ModelDefect>)
    ensures r == Shares(defects, "carModel", CarModels)
  {
    r := ShareOfTotal(defects, "carModel", CarModels);
  }

  /** `motorTypeDefectRate(defects)`, whose catalogue order differs from the
   *  per-model rates. */
  method MotorTypeDefectRate(defects: seq<Defect>) returns (r: seq<ModelDefect>)
    ensures r == Shares(defects, "motorType", ["High Performance", "Long Range", "Standard"])
  {
    r := ShareOfTotal(defects, "motorType", ["High Performance", "Long Range", "Standard"]);
  }

  /** `packageDefectRate(defects)`, whose catalogue order differs from the
   *  per-model rates. */
  method PackageDefectRate(defects: seq<Defect>) returns (r: seq<ModelDefect>)
    ensures r == Shares(defects, "designPackage", ["Eco", "Luxury", "Offroad", "Race"])
  {
    r := ShareOfTotal(defects, "designPackage", ["Eco", "Luxury", "Offroad", "Race"]);
  }

  /** The total of the values of a chart. */
  function TotalValue(rs: seq<ModelDefect>): real
  {
    if |rs| == 0 then 0.0 else rs[0].value + TotalValue(rs[1..])
  }

  lemma {:induction false} TotalValueIsRateSum(rs: seq<ModelDefect>, items: seq<string>, ks: seq<string>)
    requires |rs| == |items| && |ks| > 0
    requires forall i :: 0 <= i < |rs| ==> rs[i].value == Percent(Count(ks, items[i]), |ks|)
    ensures TotalValue(rs) == RateSum(items, ks, |ks|)
  {
    if |rs| > 0 {
      TotalValueIsRateSum(rs[1..], items[1..], ks);
    }
  }

  /** An empty batch has an empty chart; otherwise the chart has one point per
   *  item, numbered by position, each the item's share of all records, and
   *  the shares of distinct items add up to at most 100. */
  lemma {:induction false} SharesSpec(defects: seq<Defect>, field: string, items: seq<string>)
    requires NoDuplicates(items)
    ensures var r := Shares(defects, field, items);
            && (|defects| == 0 ==> r == [])
            && (|defects| > 0 ==> |r| == |items|)
            && (forall i :: 0 <= i < |r| ==>
                  && r[i].id == i && r[i].itemLabel == items[i]
                  && r[i].value == Percent(Count(KeysOf(defects, field), items[i]), |defects|)
                  && 0.0 <= r[i].value <= 100.0)
            && 0.0 <= TotalValue(r) <= 100.0
  {
    var r := Shares(defects, field, items);
    var ks := KeysOf(defects, field);
    if |defects| > 0 {
      forall i | 0 <= i < |r|
        ensures r[i].value == Percent(Count(ks, items[i]), |defects|)
        ensures 0.0 <= r[i].value <= 100.0
      {
        HavingSize(defects, field, items[i]);
        PercentBounds(Count(ks, items[i]), |defects|);
      }
      TotalValueIsRateSum(r, items, ks);
      CatalogueRates(items, ks);
    }
  }

  // ---------------------------------------------------------------------------
  // Resolution times of one station
  // ---------------------------------------------------------------------------

  /** The stations `defectsPerStation` accepts. */
  const Stations: seq<string> := [
    "Axle Installation",
    "Dashboard Installation",
    "EV Battery Installation",
    "First Row Seats Installation",
    "Headlight Installation",
    "Rear Bumper Installation",
    "Second Row Seats Installation",
    "Steering Wheel Installation",
    "Tire And Rim Installation",
    "Windshield Installation",
    "Wire Harness Installation"]

  /** The accepted stations, lower-cased. */
  function ValidStations(): (vs: seq<string>)
    ensures |vs| == |Stations|
    ensures forall i :: 0 <= i < |vs| ==> vs[i] == Lower(Stations[i])
  {
    seq(|Stations|, i requires 0 <= i < |Stations| => Lower(Stations[i]))
  }

  datatype StationDefect = StationDefect(id: int, resolutionTime: int)

  datatype StationReport = StationReport(station: string, defects: seq<StationDefect>)

  /** The records whose lower-cased station is `key`. */
  function WithLoweredStation(defects: seq<Defect>, key: string): seq<Defect>
  {
    Filter(defects, (d: Defect) => Lower(d.station) == key)
  }

  /** The records of a station, compared case-insensitively. */
  function AtStation(defects: seq<Defect>, station: string): seq<Defect>
  {
    WithLoweredStation(defects, Lower(station))
  }

  function Summaries(ds: seq<Defect>): (r: seq<StationDefect>)
    ensures |r| == |ds|
    ensures forall i :: 0 <= i < |ds| ==> r[i] == StationDefect(ds[i].id, ds[i].resolutionTime)
  {
    seq(|ds|, i requires 0 <= i < |ds| => StationDefect(ds[i].id, ds[i].resolutionTime))
  }

  /** The report for a station: the station as given, and the id and
   *  resolution time of its records when the station is accepted. */
  function Report(defects: seq<Defect>, station: string): StationReport
  {
    StationReport(station, if Lower(station) in ValidStations() then Summaries(AtStation(defects, station)) else [])
  }

  /** `defectsPerStation(defects, station)`: when the lower-cased station is
   *  accepted, pushes the id and resolution time of each record of that
   *  station. */
  method DefectsPerStation(defects: seq<Defect>, station: string) returns (r: StationReport)
    ensures r == Report(defects, station)
  {
    var calculatedData: seq<StationDefect> := [];
    var validStations := ValidStations();
    if Lower(station) in validStations {
      var matching := AtStation(defects, station);
      for i := 0 to |matching|
        invariant calculatedData == Summaries(matching)[..i]
      {
        var d := matching[i];
        calculatedData := calculatedData + [StationDefect(d.id, d.resolutionTime)];
      }
      assert Summaries(matching)[..|matching|] == Summaries(matching);
    }
    r := StationReport(station, calculatedData);
  }

  /** The report echoes the station; it is empty for a station outside the
   *  catalogue; otherwise it summarises exactly the records of the station,
   *  in input order. */
  lemma {:induction false} ReportSpec(defects: seq<Defect>, station: string)
    ensures var r := Report(defects, station);
            && r.station == station
            && (Lower(station) !in ValidStations() ==> r.defects == [])
            && (Lower(station) in ValidStations() ==>
                  && |r.defects| == |AtStation(defects, station)|
                  && IsSubsequence(AtStation(defects, station), defects)
                  && forall d :: d in AtStation(defects, station) <==> d in defects && Lower(d.station) == Lower(station))
  {
    var key := Lower(station);
    FilterMembership(defects, (d: Defect) => Lower(d.station) == key);
    FilterIsSubsequence(defects, (d: Defect) => Lower(d.station) == key);
  }

  /** The station is matched without regard to case: asking for its
   *  lower-cased name lists the same records. */
  lemma ReportIgnoresCase(defects: seq<Defect>, station: string)
    ensures Report(defects, Lower(station)).defects == Report(defects, station).defects
  {
    LowerIdempotent(station);
  }
}
