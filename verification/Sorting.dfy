/**
 * Stable sorting by a key order, as the source's `sorted(..., key=...)` does it: what it keeps, that it
 * sorts, that it leaves a sorted list alone, and that a list without repetitions stays without repetitions.
 */
module Sorting {

  /** A strict weak order: what comparing by a key gives. */
  ghost predicate KeyOrder<T(!new)>(less: (T, T) -> bool) {
    && (forall x, y :: less(x, y) ==> !less(y, x))
    && (forall x, y, z :: less(x, z) ==> less(x, y) || less(y, z))
  }

  ghost predicate SortedBy<T>(less: (T, T) -> bool, s: seq<T>) {
    forall i, j :: 0 <= i < j < |s| ==> !less(s[j], s[i])
  }

  ghost predicate Distinct<T>(s: seq<T>) {
    forall i, j :: 0 <= i < j < |s| ==> s[i] != s[j]
  }

  function InsertBy<T>(less: (T, T) -> bool, x: T, s: seq<T>): (r: seq<T>)
    ensures |r| == |s| + 1
  {
    if |s| == 0 || !less(s[0], x) then [x] + s else [s[0]] + InsertBy(less, x, s[1..])
  }

  function SortBy<T>(less: (T, T) -> bool, s: seq<T>): (r: seq<T>)
    ensures |r| == |s|
  {
    if |s| == 0 then [] else InsertBy(less, s[0], SortBy(less, s[1..]))
  }

  lemma {:induction false} InsertKeepsElements<T>(less: (T, T) -> bool, x: T, s: seq<T>)
    ensures multiset(InsertBy(less, x, s)) == multiset{x} + multiset(s)
  {
    if |s| > 0 && less(s[0], x) {
      InsertKeepsElements(less, x, s[1..]);
      assert s == [s[0]] + s[1..];
    }
  }

  lemma {:induction false} SortKeepsElements<T>(less: (T, T) -> bool, s: seq<T>)
    ensures multiset(SortBy(less, s)) == multiset(s)
  {
    if |s| > 0 {
      SortKeepsElements(less, s[1..]);
      InsertKeepsElements(less, s[0], SortBy(less, s[1..]));
      assert s == [s[0]] + s[1..];
    }
  }

  lemma {:induction false} InsertSorts<T(!new)>(less: (T, T) -> bool, x: T, s: seq<T>)
    requires KeyOrder(less) && SortedBy(less, s)
    ensures SortedBy(less, InsertBy(less, x, s))
  {
    if |s| > 0 && less(s[0], x) {
      InsertSorts(less, x, s[1..]);
      var r := InsertBy(less, x, s[1..]);
      forall j | 0 <= j < |r|
        ensures !less(r[j], s[0])
      {
        InsertKeepsElements(less, x, s[1..]);
        assert r[j] in multiset(r);
        assert r[j] == x || r[j] in s[1..];
      }
    }
  }

  lemma {:induction false} SortSorts<T(!new)>(less: (T, T) -> bool, s: seq<T>)
    requires KeyOrder(less)
    ensures SortedBy(less, SortBy(less, s))
  {
    if |s| > 0 {
      SortSorts(less, s[1..]);
      InsertSorts(less, s[0], SortBy(less, s[1..]));
    }
  }

  lemma {:induction false} SortFixesSorted<T>(less: (T, T) -> bool, s: seq<T>)
    requires SortedBy(less, s)
    ensures SortBy(less, s) == s
  {
    if |s| > 0 {
      SortFixesSorted(less, s[1..]);
      assert s == [s[0]] + s[1..];
    }
  }

  lemma SortSameMembers<T>(less: (T, T) -> bool, s: seq<T>, x: T)
    ensures x in SortBy(less, s) <==> x in s
  {
    SortKeepsElements(less, s);
    assert x in multiset(SortBy(less, s)) <==> x in multiset(s);
  }

  /** Sorting a list without repetitions leaves it without repetitions. */
  lemma SortKeepsDistinct<T>(less: (T, T) -> bool, s: seq<T>)
    requires Distinct(s)
    ensures Distinct(SortBy(less, s))
  {
    var r := SortBy(less, s);
    SortKeepsElements(less, s);
    forall i, j | 0 <= i < j < |r|
      ensures r[i] != r[j]
    {
      if r[i] == r[j] {
        TwiceCounts(r, i, j);
        OnceCounts(s, r[i]);
      }
    }
  }

  lemma TwiceCounts<T>(s: seq<T>, i: nat, j: nat)
    requires i < j < |s| && s[i] == s[j]
    ensures multiset(s)[s[i]] >= 2
  {
    assert s == s[..i] + [s[i]] + s[i + 1..j] + [s[j]] + s[j + 1..];
  }

  lemma {:induction false} OnceCounts<T>(s: seq<T>, x: T)
    requires Distinct(s)
    ensures multiset(s)[x] <= 1
  {
    if |s| > 0 {
      OnceCounts(s[1..], x);
      assert s == [s[0]] + s[1..];
      if x == s[0] {
        assert x !in s[1..];
      }
    }
  }
}
