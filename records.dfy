/** Record shapes of the defect analytics: the defect observation, the anomaly
 *  observation, the value `defect[field]` reads, and the JavaScript string
 *  conversions the analytics apply to values (`String(v)`, `Number(s)`,
 *  `toLowerCase`). */
module Records {
  import opened Tally

  /** A JavaScript number that may come out of a division or of `Number(s)`:
   *  finite, or NaN (`0 / 0`, an unparsable string). */
  datatype JsNumber = Finite(value: real) | NaN

  /** What `defect[field]` reads: a number, a string, or `undefined` for a name
   *  the record does not declare. Numbers are whole numbers. */
  datatype Value = Num(n: int) | Text(s: string) | Undefined

  /** A defect observation (the `Defect` interface). */
  datatype Defect = Defect(
    id: int,
    date: string,
    time: string,
    defectName: string,
    station: string,
    partOfTheCar: string,
    reporterName: string,
    partNumber: int,
    severityRating: int,
    carModel: string,
    motorType: string,
    designPackage: string,
    productionShift: string,
    resolutionTime: int,
    rootCauseIdentified: string,
    defectCategory: string)

  /** An anomaly observation as the detection engine builds it (the `Anomaly`
   *  interface without its random id and its flagging date and time). */
  datatype Anomaly = Anomaly(
    status: string,
    note: string,
    defectId: int,
    flaggedBy: string,
    suspectedValue: string,
    suspectedField: string)

  /** The names of the record's numeric fields. */
  const NumericFields: set<string> := {"id", "partNumber", "severityRating", "resolutionTime"}

  /** The names of the record's string fields. */
  const TextFields: set<string> :=
    {"date", "time", "defectName", "station", "partOfTheCar", "reporterName", "carModel",
     "motorType", "designPackage", "productionShift", "rootCauseIdentified", "defectCategory"}

  /** `defect[name]`: the four numeric fields read as numbers, the twelve
   *  string fields as strings, any other name as `undefined`. */
  function Field(d: Defect, name: string): (v: Value)
    ensures v.Num? <==> name in NumericFields
    ensures v.Text? <==> name in TextFields
  {
    if name == "id" then Num(d.id)
    else if name == "partNumber" then Num(d.partNumber)
    else if name == "severityRating" then Num(d.severityRating)
    else if name == "resolutionTime" then Num(d.resolutionTime)
    else if name == "date" then Text(d.date)
    else if name == "time" then Text(d.time)
    else if name == "defectName" then Text(d.defectName)
    else if name == "station" then Text(d.station)
    else if name == "partOfTheCar" then Text(d.partOfTheCar)
    else if name == "reporterName" then Text(d.reporterName)
    else if name == "carModel" then Text(d.carModel)
    else if name == "motorType" then Text(d.motorType)
    else if name == "designPackage" then Text(d.designPackage)
    else if name == "productionShift" then Text(d.productionShift)
    else if name == "rootCauseIdentified" then Text(d.rootCauseIdentified)
    else if name == "defectCategory" then Text(d.defectCategory)
    else Undefined
  }

  predicate IsDigit(c: char)
  {
    '0' <= c <= '9'
  }

  predicate AllDigits(s: string)
  {
    forall i :: 0 <= i < |s| ==> IsDigit(s[i])
  }

  function DigitChar(d: nat): (c: char)
    requires d < 10
    ensures IsDigit(c) && c as int - '0' as int == d
  {
    ('0' as int + d) as char
  }

  /** Decimal digits of a natural number, most significant first. */
  function NatToString(n: nat): (s: string)
    ensures |s| > 0 && AllDigits(s)
  {
    if n < 10 then [DigitChar(n)] else NatToString(n / 10) + [DigitChar(n % 10)]
  }

  /** `String(n)` for a whole number. */
  function IntToString(i: int): string
  {
    if i < 0 then "-" + NatToString(-i) else NatToString(i)
  }

  /** `String(v)`, also `v + ""` and `v.toString()`. */
  function Stringify(v: Value): (s: string)
    ensures v.Num? ==> ToNumber(s) == Finite(v.n as real)
    ensures v.Text? ==> s == v.s
  {
    match v
    case Num(n) => IntToStringRoundTrip(n); IntToString(n)
    case Text(s) => s
    case Undefined => "undefined"
  }

  /** The number a string of decimal digits denotes. */
  function DigitsValue(s: string): nat
    requires AllDigits(s)
  {
    if |s| == 0 then 0
    else DigitsValue(s[..|s| - 1]) * 10 + (s[|s| - 1] as int - '0' as int)
  }

  /** `Number(s)` for the strings `String` produces from whole numbers: the
   *  empty string reads as 0, an optional minus sign followed by decimal
   *  digits as that number, anything else as NaN. */
  function ToNumber(s: string): (r: JsNumber)
    ensures r.Finite? && (|s| == 0 || s[0] != '-') ==> r.value >= 0.0
    ensures (exists i :: 0 < i < |s| && !IsDigit(s[i])) ==> r == NaN
  {
    if |s| == 0 then Finite(0.0)
    else if s[0] == '-' && |s| > 1 && AllDigits(s[1..]) then
      DigitsAfterSign(s);
      var n: int := DigitsValue(s[1..]);
      Finite(-(n as real))
    else if AllDigits(s) then
      var n: int := DigitsValue(s);
      Finite(n as real)
    else NaN
  }

  /** A sign followed by digits leaves no non-digit after the first place. */
  lemma DigitsAfterSign(s: string)
    requires |s| > 1 && AllDigits(s[1..])
    ensures forall i :: 0 < i < |s| ==> IsDigit(s[i])
  {
    forall i | 0 < i < |s|
      ensures IsDigit(s[i])
    {
      assert s[i] == s[1..][i - 1];
    }
  }

  lemma {:induction false} NatToStringRoundTrip(n: nat)
    ensures DigitsValue(NatToString(n)) == n
  {
    if n >= 10 {
      var s := NatToString(n);
      assert s[..|s| - 1] == NatToString(n / 10);
      NatToStringRoundTrip(n / 10);
    }
  }

  /** `Number(String(n)) === n` for every whole number: a group key made from a
   *  numeric field converts back to the field's value. */
  lemma IntToStringRoundTrip(i: int)
    ensures ToNumber(IntToString(i)) == Finite(i as real)
  {
    if i < 0 {
      var s := IntToString(i);
      assert s[1..] == NatToString(-i);
      NatToStringRoundTrip(-i);
    } else {
      NatToStringRoundTrip(i);
      assert IntToString(i)[0] != '-';
    }
  }

  /** Distinct whole numbers have distinct strings. */
  lemma IntToStringInjective(i: int, j: int)
    ensures IntToString(i) == IntToString(j) ==> i == j
  {
    IntToStringRoundTrip(i);
    IntToStringRoundTrip(j);
  }

  function LowerChar(c: char): char
  {
    if 'A' <= c <= 'Z' then (c as int - 'A' as int + 'a' as int) as char else c
  }

  /** `s.toLowerCase()` on the ASCII letters. */
  function Lower(s: string): (r: string)
    ensures |r| == |s|
    ensures forall i :: 0 <= i < |r| ==> !('A' <= r[i] <= 'Z')
    ensures forall i :: 0 <= i < |r| ==> (r[i] == s[i] || ('A' <= s[i] <= 'Z' && r[i] as int == s[i] as int + 32))
  {
    seq(|s|, i requires 0 <= i < |s| => LowerChar(s[i]))
  }

  /** Lowering twice is lowering once. */
  lemma LowerIdempotent(s: string)
    ensures Lower(Lower(s)) == Lower(s)
  {
  }

  /** The string form of `d[field]`, which keys every grouping and frequency
   *  table of the analytics. */
  function KeyOf(d: Defect, field: string): string
  {
    Stringify(Field(d, field))
  }

  /** A string field is its own key. */
  lemma TextKeys(d: Defect)
    ensures KeyOf(d, "defectName") == d.defectName
    ensures KeyOf(d, "station") == d.station
    ensures KeyOf(d, "partOfTheCar") == d.partOfTheCar
    ensures KeyOf(d, "reporterName") == d.reporterName
    ensures KeyOf(d, "carModel") == d.carModel
    ensures KeyOf(d, "motorType") == d.motorType
    ensures KeyOf(d, "designPackage") == d.designPackage
    ensures KeyOf(d, "productionShift") == d.productionShift
    ensures KeyOf(d, "defectCategory") == d.defectCategory
  {
  }

  /** A numeric field is keyed by its decimal string. */
  lemma NumberKeys(d: Defect)
    ensures KeyOf(d, "severityRating") == IntToString(d.severityRating)
    ensures KeyOf(d, "resolutionTime") == IntToString(d.resolutionTime)
  {
  }

  /** The keys of a batch, record by record. */
  function KeysOf(xs: seq<Defect>, field: string): (ks: seq<string>)
    ensures |ks| == |xs|
    ensures forall i :: 0 <= i < |xs| ==> ks[i] == KeyOf(xs[i], field)
  {
    seq(|xs|, i requires 0 <= i < |xs| => KeyOf(xs[i], field))
  }

  lemma KeysOfSnoc(xs: seq<Defect>, x: Defect, field: string)
    ensures KeysOf(xs + [x], field) == KeysOf(xs, field) + [KeyOf(x, field)]
  {
  }

  /** Counting one more record ticks its value in the table. */
  lemma CountPrefixStep(defects: seq<Defect>, field: string, i: int)
    requires 0 <= i < |defects|
    ensures CountTable(KeysOf(defects[..i + 1], field))
         == Tick(CountTable(KeysOf(defects[..i], field)), KeyOf(defects[i], field))
  {
    assert defects[..i + 1] == defects[..i] + [defects[i]];
    KeysOfSnoc(defects[..i], defects[i], field);
    CountTableSnoc(KeysOf(defects[..i], field), KeyOf(defects[i], field));
  }

  /** The records whose key for `field` is `k`, in input order. */
  function GroupOf(xs: seq<Defect>, field: string, k: string): seq<Defect>
  {
    Filter(xs, d => KeyOf(d, field) == k)
  }

  /** A group holds as many records as its key occurs. */
  lemma {:induction false} GroupOfSize(xs: seq<Defect>, field: string, k: string)
    ensures |GroupOf(xs, field, k)| == Count(KeysOf(xs, field), k)
  {
    if |xs| > 0 {
      var init, x := xs[..|xs| - 1], xs[|xs| - 1];
      assert xs == init + [x];
      GroupOfSize(init, field, k);
      KeysOfSnoc(init, x, field);
      CountSnoc(KeysOf(init, field), KeyOf(x, field), k);
    }
  }

  /** A group holds exactly the records with its key, in input order. */
  lemma GroupOfMembers(xs: seq<Defect>, field: string, k: string)
    ensures forall d :: d in GroupOf(xs, field, k) <==> d in xs && KeyOf(d, field) == k
    ensures IsSubsequence(GroupOf(xs, field, k), xs)
  {
    FilterMembership(xs, d => KeyOf(d, field) == k);
    FilterIsSubsequence(xs, d => KeyOf(d, field) == k);
  }
}
