/** The two sorts the analytics call: numeric ascending
 *  (`values.sort((a, b) => a - b)`, in place on an array) and frequency-table
 *  entries by descending count (`entries.sort((a, b) => b.count - a.count)`).
 *  Both sorts are stable, as the JavaScript `sort` is. */
module Sorting {
  import opened Tally

  predicate Ascending(s: seq<int>)
  {
    forall i, j :: 0 <= i < j < |s| ==> s[i] <= s[j]
  }

  /** Inserts `x` after every element not larger than it. */
  function InsertAsc(x: int, s: seq<int>): (r: seq<int>)
    ensures |r| == |s| + 1
  {
    if |s| == 0 || x < s[0] then [x] + s else [s[0]] + InsertAsc(x, s[1..])
  }

  /** The ascending arrangement of `s`, built as insertion sort builds it:
   *  the last element goes into the sorted arrangement of the others. */
  function SortAsc(s: seq<int>): (r: seq<int>)
    ensures |r| == |s|
  {
    if |s| == 0 then [] else InsertAsc(s[|s| - 1], SortAsc(s[..|s| - 1]))
  }

  lemma {:induction false} InsertAscPermutes(x: int, s: seq<int>)
    ensures multiset(InsertAsc(x, s)) == multiset(s) + multiset{x}
  {
    if |s| > 0 && x >= s[0] {
      InsertAscPermutes(x, s[1..]);
      assert s == [s[0]] + s[1..];
    }
  }

  /** Inserting keeps every element above a bound that `x` and `s` respect. */
  lemma {:induction false} InsertAscAbove(x: int, s: seq<int>, b: int)
    requires b <= x
    requires forall k :: 0 <= k < |s| ==> b <= s[k]
    ensures forall k :: 0 <= k < |InsertAsc(x, s)| ==> b <= InsertAsc(x, s)[k]
  {
    if |s| > 0 && x >= s[0] {
      InsertAscAbove(x, s[1..], b);
    }
  }

  lemma {:induction false} InsertAscAscending(x: int, s: seq<int>)
    requires Ascending(s)
    ensures Ascending(InsertAsc(x, s))
  {
    if |s| > 0 && x >= s[0] {
      InsertAscAscending(x, s[1..]);
      InsertAscAbove(x, s[1..], s[0]);
    }
  }

  /** The arrangement is ascending and a permutation of its input. */
  lemma {:induction false} SortAscSpec(s: seq<int>)
    ensures Ascending(SortAsc(s))
    ensures multiset(SortAsc(s)) == multiset(s)
  {
    if |s| > 0 {
      var init := s[..|s| - 1];
      SortAscSpec(init);
      InsertAscAscending(s[|s| - 1], SortAsc(init));
      InsertAscPermutes(s[|s| - 1], SortAsc(init));
      assert s == init + [s[|s| - 1]];
    }
  }

  /** Inserting at the first place whose left neighbour is not larger and whose
   *  right neighbour is larger is `InsertAsc`. */
  lemma {:induction false} InsertAscAt(x: int, s: seq<int>, j: int)
    requires 0 <= j <= |s|
    requires Ascending(s)
    requires j == 0 || s[j - 1] <= x
    requires forall k :: j <= k < |s| ==> x < s[k]
    ensures InsertAsc(x, s) == s[..j] + [x] + s[j..]
  {
    if j > 0 {
      InsertAscAt(x, s[1..], j - 1);
      assert s[1..][..j - 1] == s[1..j];
      assert s[1..][j - 1..] == s[j..];
      assert s[..j] == [s[0]] + s[1..j];
    }
  }

  /** One step of insertion sort: moves `a[i]` left past every larger element
   *  of the ascending prefix `a[..i]`. */
  method InsertLast(a: array<int>, i: int)
    requires 0 <= i < a.Length
    requires Ascending(a[..i])
    modifies a
    ensures a[..i + 1] == InsertAsc(old(a[i]), old(a[..i]))
    ensures forall k :: i < k < a.Length ==> a[k] == old(a[k])
  {
    ghost var s := a[..i];
    var x := a[i];
    var j := i;
    while j > 0 && a[j - 1] > x
      invariant 0 <= j <= i
      invariant forall k :: 0 <= k < j ==> a[k] == s[k]
      invariant forall k :: j < k <= i ==> a[k] == s[k - 1]
      invariant forall k :: j <= k < i ==> x < s[k]
      invariant forall k :: i < k < a.Length ==> a[k] == old(a[k])
    {
      a[j] := a[j - 1];
      j := j - 1;
    }
    a[j] := x;
    InsertAscAt(x, s, j);
    ShiftedIsInserted(a[..], s, x, j);
  }

  /** A sequence that holds `s[..j]`, then `x`, then `s[j..]` starts with
   *  `s[..j] + [x] + s[j..]`. */
  lemma {:induction false} ShiftedIsInserted(t: seq<int>, s: seq<int>, x: int, j: int)
    requires 0 <= j <= |s| < |t|
    requires forall k :: 0 <= k < j ==> t[k] == s[k]
    requires t[j] == x
    requires forall k :: j < k <= |s| ==> t[k] == s[k - 1]
    ensures t[..|s| + 1] == s[..j] + [x] + s[j..]
  {
  }

  /** `a.sort((x, y) => x - y)`: insertion sort in place. */
  method SortInPlace(a: array<int>)
    modifies a
    ensures a[..] == SortAsc(old(a[..]))
  {
    ghost var s := a[..];
    for i := 0 to a.Length
      invariant a[..i] == SortAsc(s[..i])
      invariant forall k :: i <= k < a.Length ==> a[k] == s[k]
    {
      SortAscSpec(s[..i]);
      InsertLast(a, i);
      assert s[..i + 1][..i] == s[..i];
    }
    assert s[..a.Length] == s;
    assert a[..] == a[..a.Length];
  }

  /** Counts never increase along `s`. */
  predicate Descending(s: seq<Entry>)
  {
    forall i, j :: 0 <= i < j < |s| ==> s[i].count >= s[j].count
  }

  /** Inserts `e` before the first entry whose count is not larger: `e` stays
   *  ahead of every entry of equal count. */
  function InsertDesc(e: Entry, s: seq<Entry>): seq<Entry>
  {
    if |s| == 0 || e.count >= s[0].count then [e] + s else [s[0]] + InsertDesc(e, s[1..])
  }

  /** `entries.sort((a, b) => b.count - a.count)`: by descending count, ties in
   *  their original order (the first entry goes ahead of the equal-count
   *  entries of the rest). */
  function SortDesc(s: seq<Entry>): seq<Entry>
  {
    if |s| == 0 then [] else InsertDesc(s[0], SortDesc(s[1..]))
  }

  lemma {:induction false} InsertDescPermutes(e: Entry, s: seq<Entry>)
    ensures multiset(InsertDesc(e, s)) == multiset(s) + multiset{e}
  {
    if |s| > 0 && e.count < s[0].count {
      InsertDescPermutes(e, s[1..]);
      assert s == [s[0]] + s[1..];
    }
  }

  /** Inserting keeps every count under a bound that `e` and `s` respect. */
  lemma {:induction false} InsertDescBelow(e: Entry, s: seq<Entry>, b: int)
    requires e.count <= b
    requires forall k :: 0 <= k < |s| ==> s[k].count <= b
    ensures |InsertDesc(e, s)| == |s| + 1
    ensures forall k :: 0 <= k < |InsertDesc(e, s)| ==> InsertDesc(e, s)[k].count <= b
  {
    if |s| > 0 && e.count < s[0].count {
      InsertDescBelow(e, s[1..], b);
    }
  }

  lemma {:induction false} InsertDescDescending(e: Entry, s: seq<Entry>)
    requires Descending(s)
    ensures Descending(InsertDesc(e, s))
  {
    if |s| > 0 && e.count < s[0].count {
      InsertDescDescending(e, s[1..]);
      InsertDescBelow(e, s[1..], s[0].count);
    }
  }

  /** The arrangement has non-increasing counts and is a permutation of its
   *  input. */
  lemma {:induction false} SortDescSpec(s: seq<Entry>)
    ensures Descending(SortDesc(s))
    ensures multiset(SortDesc(s)) == multiset(s)
  {
    if |s| > 0 {
      SortDescSpec(s[1..]);
      InsertDescDescending(s[0], SortDesc(s[1..]));
      InsertDescPermutes(s[0], SortDesc(s[1..]));
      assert s == [s[0]] + s[1..];
    }
  }

  /** Index of the first entry of maximal count. */
  function FirstMax(s: seq<Entry>): (i: nat)
    requires |s| > 0
    ensures i < |s|
    ensures forall j :: 0 <= j < |s| ==> s[j].count <= s[i].count
    ensures forall j :: 0 <= j < i ==> s[j].count < s[i].count
  {
    if |s| == 1 then 0
    else
      var k := FirstMax(s[1..]);
      if s[0].count >= s[k + 1].count then 0 else k + 1
  }

  /** The stable sort puts first the earliest entry of maximal count: this is
   *  the tie-break that `sort(...)[0]` relies on. */
  lemma {:induction false} SortDescHead(s: seq<Entry>)
    requires |s| > 0
    ensures SortDesc(s)[0] == s[FirstMax(s)]
  {
    if |s| > 1 {
      SortDescHead(s[1..]);
      SortDescSpec(s[1..]);
      var k := FirstMax(s[1..]);
      assert SortDesc(s[1..])[0] == s[k + 1];
    }
  }

  /** A frequency table listed and sorted by descending count, ties in
   *  first-occurrence order. */
  function SortedTable(ks: seq<string>): seq<Entry>
  {
    CountTableMeaning(ks);
    SortDesc(Entries(CountTable(ks)))
  }

  /** An entry of the listed table names a key of `ks` with its number of
   *  occurrences. */
  lemma {:induction false} EntryOfTable(ks: seq<string>, e: Entry)
    requires CountTable(ks).Valid()
    requires e in multiset(Entries(CountTable(ks)))
    ensures e.key in ks && e.count == Count(ks, e.key)
  {
    CountTableMeaning(ks);
    var es := Entries(CountTable(ks));
    var j :| 0 <= j < |es| && es[j] == e;
    assert e.key == Distinct(ks)[j];
  }

  /** The listed table has an entry for every key of `ks`. */
  lemma {:induction false} TableHasEntry(ks: seq<string>, c: string)
    requires c in ks
    ensures CountTable(ks).Valid()
    ensures Entry(c, Count(ks, c)) in multiset(Entries(CountTable(ks)))
  {
    CountTableMeaning(ks);
    var t := CountTable(ks);
    var j :| 0 <= j < |t.keys| && t.keys[j] == c;
    assert Entries(t)[j] == Entry(c, Count(ks, c));
  }

  /** The sorted table lists every distinct key once with its number of
   *  occurrences, by non-increasing count. */
  lemma {:induction false} SortedTableSpec(ks: seq<string>)
    ensures |SortedTable(ks)| == |Distinct(ks)|
    ensures Descending(SortedTable(ks))
    ensures forall i :: 0 <= i < |SortedTable(ks)| ==>
              SortedTable(ks)[i].key in ks && SortedTable(ks)[i].count == Count(ks, SortedTable(ks)[i].key)
    ensures forall c :: c in ks ==> Entry(c, Count(ks, c)) in SortedTable(ks)
    ensures forall i, j :: 0 <= i < j < |SortedTable(ks)| ==> SortedTable(ks)[i].key != SortedTable(ks)[j].key
  {
    CountTableMeaning(ks);
    var es := Entries(CountTable(ks));
    var sorted := SortedTable(ks);
    SortDescSpec(es);
    assert |sorted| == |es| by {
      assert |multiset(sorted)| == |multiset(es)|;
    }
    forall i | 0 <= i < |sorted|
      ensures sorted[i].key in ks && sorted[i].count == Count(ks, sorted[i].key)
    {
      assert sorted[i] in multiset(es);
      EntryOfTable(ks, sorted[i]);
    }
    forall c | c in ks
      ensures Entry(c, Count(ks, c)) in sorted
    {
      TableHasEntry(ks, c);
    }
    assert NoDuplicates(es);
    AtMostOnce(es);
    KeyedOnce(sorted, ks);
  }

  /** In a sequence without duplicates every element occurs at most once. */
  lemma {:induction false} AtMostOnce<T>(s: seq<T>)
    requires NoDuplicates(s)
    ensures forall x :: multiset(s)[x] <= 1
  {
    if |s| > 0 {
      NoDuplicatesInit(s);
      AtMostOnce(s[..|s| - 1]);
      assert s == s[..|s| - 1] + [s[|s| - 1]];
    }
  }

  /** An element found at two places occurs at least twice. */
  lemma {:induction false} RepeatedTwice<T>(s: seq<T>, i: int, j: int)
    requires 0 <= i < j < |s|
    ensures s[i] == s[j] ==> multiset(s)[s[i]] >= 2
  {
    assert s == s[..j] + s[j..];
    assert s[i] == s[..j][i];
    assert s[j] == s[j..][0];
  }

  /** Entries that each occur once and whose count is fixed by their key have
   *  distinct keys. */
  lemma {:induction false} KeyedOnce(es: seq<Entry>, ks: seq<string>)
    requires forall x :: multiset(es)[x] <= 1
    requires forall i :: 0 <= i < |es| ==> es[i].count == Count(ks, es[i].key)
    ensures forall i, j :: 0 <= i < j < |es| ==> es[i].key != es[j].key
  {
    forall i, j | 0 <= i < j < |es|
      ensures es[i].key != es[j].key
    {
      RepeatedTwice(es, i, j);
    }
  }
}
