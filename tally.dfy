/** Counting and ordering helpers shared by the analytics: the array `filter`
 *  builtin, distinct keys in first-occurrence order, occurrence counts, and
 *  JavaScript plain objects used as dictionaries (`{ [key: string]: V }`),
 *  whose keys enumerate in insertion order. */
module Tally {

  /** The elements of `xs` that satisfy `p`, in input order (`Array.prototype.filter`). */
  function Filter<T>(xs: seq<T>, p: T -> bool): (r: seq<T>)
    ensures |r| <= |xs|
  {
    if |xs| == 0 then []
    else Filter(xs[..|xs| - 1], p) + (if p(xs[|xs| - 1]) then [xs[|xs| - 1]] else [])
  }

  /** `r` can be obtained from `s` by deleting elements: order is preserved. */
  predicate IsSubsequence<T(==)>(r: seq<T>, s: seq<T>)
    decreases |s|
  {
    || |r| == 0
    || (&& |s| > 0
        && (|| (r[|r| - 1] == s[|s| - 1] && IsSubsequence(r[..|r| - 1], s[..|s| - 1]))
            || IsSubsequence(r, s[..|s| - 1])))
  }

  lemma FilterSnoc<T>(xs: seq<T>, x: T, p: T -> bool)
    ensures Filter(xs + [x], p) == Filter(xs, p) + (if p(x) then [x] else [])
  {
    assert (xs + [x])[..|xs|] == xs;
  }

  /** A filter keeps exactly the elements that satisfy the predicate. */
  lemma {:induction false} FilterMembership<T>(xs: seq<T>, p: T -> bool)
    ensures forall x :: x in Filter(xs, p) <==> x in xs && p(x)
  {
    if |xs| > 0 {
      var init := xs[..|xs| - 1];
      FilterMembership(init, p);
      assert xs == init + [xs[|xs| - 1]];
    }
  }

  /** A filter keeps the input order. */
  lemma {:induction false} FilterIsSubsequence<T>(xs: seq<T>, p: T -> bool)
    ensures IsSubsequence(Filter(xs, p), xs)
  {
    if |xs| > 0 {
      var init := xs[..|xs| - 1];
      FilterIsSubsequence(init, p);
      var r := Filter(xs, p);
      if p(xs[|xs| - 1]) {
        assert r[..|r| - 1] == Filter(init, p);
      } else {
        assert r == Filter(init, p);
      }
    }
  }

  /** A filter that keeps nothing, or keeps everything. */
  lemma {:induction false} FilterExtremes<T>(xs: seq<T>, p: T -> bool)
    ensures (forall x :: x in xs ==> !p(x)) ==> Filter(xs, p) == []
    ensures (forall x :: x in xs ==> p(x)) ==> Filter(xs, p) == xs
  {
    if |xs| > 0 {
      var init := xs[..|xs| - 1];
      assert xs == init + [xs[|xs| - 1]];
      FilterExtremes(init, p);
    }
  }

  /** A filter that rejects some element of its input is shorter than it. */
  lemma {:induction false} FilterShorter<T>(xs: seq<T>, p: T -> bool, x: T)
    requires x in xs && !p(x)
    ensures |Filter(xs, p)| < |xs|
  {
    var init, last := xs[..|xs| - 1], xs[|xs| - 1];
    assert xs == init + [last];
    if last != x {
      FilterShorter(init, p, x);
    }
  }

  /** A filter that the element at `j` alone passes keeps just that element. */
  lemma {:induction false} FilterOne<T>(xs: seq<T>, p: T -> bool, j: int)
    requires 0 <= j < |xs| && p(xs[j])
    requires forall i :: 0 <= i < |xs| && i != j ==> !p(xs[i])
    ensures Filter(xs, p) == [xs[j]]
  {
    var init := xs[..|xs| - 1];
    if j == |xs| - 1 {
      FilterExtremes(init, p);
    } else {
      FilterOne(init, p, j);
    }
  }

  /** The elements of `xs` whose flag is set, in input order: a filter whose
   *  callback reads the index (`xs.filter((x, i) => keep[i])`). */
  function Select<T>(xs: seq<T>, keep: seq<bool>): (r: seq<T>)
    requires |keep| == |xs|
    ensures |r| <= |xs|
  {
    if |xs| == 0 then []
    else Select(xs[..|xs| - 1], keep[..|keep| - 1]) + (if keep[|keep| - 1] then [xs[|xs| - 1]] else [])
  }

  /** Flags computed from the elements alone make the indexed filter an
   *  ordinary one. */
  lemma {:induction false} SelectIsFilter<T>(xs: seq<T>, keep: seq<bool>, p: T -> bool)
    requires |keep| == |xs|
    requires forall i :: 0 <= i < |xs| ==> keep[i] == p(xs[i])
    ensures Select(xs, keep) == Filter(xs, p)
  {
    if |xs| > 0 {
      SelectIsFilter(xs[..|xs| - 1], keep[..|keep| - 1], p);
    }
  }

  /** Number of occurrences of `k` in `ks`. */
  function Count<T(==)>(ks: seq<T>, k: T): (n: nat)
    ensures n <= |ks|
    ensures n > 0 <==> k in ks
  {
    if |ks| == 0 then 0
    else
      var init := ks[..|ks| - 1];
      assert ks == init + [ks[|ks| - 1]];
      Count(init, k) + (if ks[|ks| - 1] == k then 1 else 0)
  }

  lemma CountSnoc<T>(ks: seq<T>, x: T, k: T)
    ensures Count(ks + [x], k) == Count(ks, k) + (if x == k then 1 else 0)
  {
    assert (ks + [x])[..|ks|] == ks;
  }

  predicate NoDuplicates<T(==)>(s: seq<T>)
  {
    forall i, j :: 0 <= i < j < |s| ==> s[i] != s[j]
  }

  /** The distinct elements of `ks`, in order of first occurrence. */
  function Distinct<T(==,!new)>(ks: seq<T>): (r: seq<T>)
    ensures NoDuplicates(r)
    ensures forall k :: k in r <==> k in ks
  {
    if |ks| == 0 then []
    else
      var init := ks[..|ks| - 1];
      var last := ks[|ks| - 1];
      assert ks == init + [last];
      var d := Distinct(init);
      if last in d then d else d + [last]
  }

  lemma DistinctSnoc<T(!new)>(ks: seq<T>, x: T)
    ensures Distinct(ks + [x]) == if x in Distinct(ks) then Distinct(ks) else Distinct(ks) + [x]
  {
    assert (ks + [x])[..|ks|] == ks;
  }

  /** The total of the counts in `ks` of the keys listed in `ds`. */
  function SumCounts<T(==)>(ds: seq<T>, ks: seq<T>): int
  {
    if |ds| == 0 then 0 else Count(ks, ds[0]) + SumCounts(ds[1..], ks)
  }

  lemma {:induction false} SumCountsSnoc<T>(ds: seq<T>, ks: seq<T>, x: T)
    requires NoDuplicates(ds)
    ensures SumCounts(ds, ks + [x]) == SumCounts(ds, ks) + (if x in ds then 1 else 0)
  {
    if |ds| > 0 {
      CountSnoc(ks, x, ds[0]);
      assert NoDuplicates(ds[1..]);
      SumCountsSnoc(ds[1..], ks, x);
      assert x in ds <==> x == ds[0] || x in ds[1..];
      assert x == ds[0] ==> x !in ds[1..];
    }
  }

  /** Counting the keys of a duplicate-free list never exceeds the number of
   *  keys counted, and reaches it when every key is listed. */
  lemma {:induction false} SumCountsBound<T>(ds: seq<T>, ks: seq<T>)
    requires NoDuplicates(ds)
    ensures SumCounts(ds, ks) <= |ks|
    ensures (forall k :: k in ks ==> k in ds) ==> SumCounts(ds, ks) == |ks|
  {
    if |ks| == 0 {
      SumCountsOfEmpty(ds, ks);
    } else {
      var init := ks[..|ks| - 1];
      assert ks == init + [ks[|ks| - 1]];
      SumCountsBound(ds, init);
      SumCountsSnoc(ds, init, ks[|ks| - 1]);
    }
  }

  lemma {:induction false} SumCountsOfEmpty<T>(ds: seq<T>, ks: seq<T>)
    requires |ks| == 0
    ensures SumCounts(ds, ks) == 0
  {
    if |ds| > 0 {
      SumCountsOfEmpty(ds[1..], ks);
    }
  }

  /** The counts of the distinct keys add up to the number of keys. */
  lemma SumCountsDistinct<T(!new)>(ks: seq<T>)
    ensures SumCounts(Distinct(ks), ks) == |ks|
  {
    SumCountsBound(Distinct(ks), ks);
  }

  /** A key with its count, as `Object.entries` lists a frequency table. */
  datatype Entry = Entry(key: string, count: int)

  /** A JavaScript plain object used as a dictionary: its keys in insertion
   *  order and its values. */
  datatype Dict<V> = Dict(keys: seq<string>, at: map<string, V>)
  {
    ghost predicate Valid()
    {
      NoDuplicates(keys) && forall k :: k in at <==> k in keys
    }

    /** `obj[k] = v`: an existing key keeps its place, a new key goes last. */
    function Put(k: string, v: V): Dict<V>
    {
      if k in at then Dict(keys, at[k := v]) else Dict(keys + [k], at[k := v])
    }
  }

  /** Writing a new key appends it to the keys. */
  lemma PutNew<V>(d: Dict<V>, k: string, v: V)
    requires d.Valid() && k !in d.keys
    ensures d.Put(k, v).Valid()
    ensures d.Put(k, v).keys == d.keys + [k]
  {
  }

  /** Dropping the last key keeps the others distinct, and the last key is not
   *  among them. */
  lemma NoDuplicatesInit<T>(ks: seq<T>)
    requires |ks| > 0 && NoDuplicates(ks)
    ensures NoDuplicates(ks[..|ks| - 1])
    ensures ks[|ks| - 1] !in ks[..|ks| - 1]
  {
  }

  /** Writing a key twice keeps the second value. */
  lemma PutTwice<V>(d: Dict<V>, k: string, a: V, b: V)
    ensures d.Put(k, a).Put(k, b) == d.Put(k, b)
  {
    assert d.at[k := a][k := b] == d.at[k := b];
  }

  /** Writing back a key's own value changes nothing. */
  lemma PutSame<V>(d: Dict<V>, k: string)
    requires k in d.at
    ensures d.Put(k, d.at[k]) == d
  {
    assert d.at[k := d.at[k]] == d.at;
  }

  function EmptyDict<V>(): (d: Dict<V>)
    ensures d.Valid() && d.keys == []
  {
    Dict([], map[])
  }

  /** An empty object into which `f(k)` is stored under each key `k` of `ks`,
   *  in order. */
  function PutAll<V>(ks: seq<string>, f: string -> V): Dict<V>
  {
    if |ks| == 0 then EmptyDict() else PutAll(ks[..|ks| - 1], f).Put(ks[|ks| - 1], f(ks[|ks| - 1]))
  }

  lemma PutAllStep<V>(ks: seq<string>, f: string -> V, i: int)
    requires 0 <= i < |ks|
    ensures PutAll(ks[..i + 1], f) == PutAll(ks[..i], f).Put(ks[i], f(ks[i]))
  {
    assert ks[..i + 1][..i] == ks[..i];
  }

  /** Storing under distinct keys lists them once each, in order. */
  lemma {:induction false} PutAllKeys<V>(ks: seq<string>, f: string -> V)
    requires NoDuplicates(ks)
    ensures PutAll(ks, f).Valid()
    ensures PutAll(ks, f).keys == ks
  {
    if |ks| > 0 {
      var init, last := ks[..|ks| - 1], ks[|ks| - 1];
      NoDuplicatesInit(ks);
      PutAllKeys(init, f);
      PutNew(PutAll(init, f), last, f(last));
      assert init + [last] == ks;
    }
  }

  /** Every stored key holds its own value. */
  lemma {:induction false} PutAllAt<V>(ks: seq<string>, f: string -> V, k: string)
    requires k in ks
    ensures k in PutAll(ks, f).at && PutAll(ks, f).at[k] == f(k)
  {
    var init := ks[..|ks| - 1];
    if k != ks[|ks| - 1] {
      assert ks == init + [ks[|ks| - 1]];
      PutAllAt(init, f, k);
    }
  }

  /** `obj[k]` of a counting object, with `|| 0` for a missing key. */
  function CountAt(d: Dict<int>, k: string): int
  {
    if k in d.at then d.at[k] else 0
  }

  /** `Object.entries` of a counting object. */
  function Entries(d: Dict<int>): (es: seq<Entry>)
    requires d.Valid()
    ensures |es| == |d.keys|
    ensures forall i :: 0 <= i < |es| ==> es[i] == Entry(d.keys[i], d.at[d.keys[i]])
  {
    seq(|d.keys|, i requires 0 <= i < |d.keys| => Entry(d.keys[i], d.at[d.keys[i]]))
  }

  /** `table[k] = (table[k] || 0) + 1` */
  function Tick(t: Dict<int>, k: string): Dict<int>
  {
    t.Put(k, CountAt(t, k) + 1)
  }

  /** The frequency table that ticking every key of `ks` builds. */
  function CountTable(ks: seq<string>): (t: Dict<int>)
    ensures |t.keys| == 0 <==> |ks| == 0
  {
    if |ks| == 0 then EmptyDict() else Tick(CountTable(ks[..|ks| - 1]), ks[|ks| - 1])
  }

  lemma CountTableSnoc(ks: seq<string>, x: string)
    ensures CountTable(ks + [x]) == Tick(CountTable(ks), x)
  {
    assert (ks + [x])[..|ks|] == ks;
  }

  /** The frequency table lists the distinct keys in first-occurrence order,
   *  each with its number of occurrences. */
  lemma {:induction false} CountTableMeaning(ks: seq<string>)
    ensures CountTable(ks).Valid()
    ensures CountTable(ks).keys == Distinct(ks)
    ensures forall k :: k in CountTable(ks).at <==> k in ks
    ensures forall k :: CountAt(CountTable(ks), k) == Count(ks, k)
  {
    if |ks| > 0 {
      var init, x := ks[..|ks| - 1], ks[|ks| - 1];
      assert ks == init + [x];
      CountTableMeaning(init);
      CountTableSnoc(init, x);
      DistinctSnoc(init, x);
      forall k
        ensures CountAt(CountTable(ks), k) == Count(ks, k)
      {
        CountSnoc(init, x, k);
      }
    }
  }
}
