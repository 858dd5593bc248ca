/**
 * Lexicographic order on strings by code point, sorted lists of distinct integers, the distinct entries of
 * a list in order of first appearance, and small facts about sets and lists that the other modules share.
 */
module Ordering {
  import opened Sorting

  /** The first entry in which two lists differ decides; a proper prefix comes first. */
  predicate LexLess<T(==)>(less: (T, T) -> bool, a: seq<T>, b: seq<T>) {
    if |b| == 0 then false
    else if |a| == 0 then true
    else less(a[0], b[0]) || (a[0] == b[0] && LexLess(less, a[1..], b[1..]))
  }

  predicate CharLess(c: char, d: char) {
    c < d
  }

  predicate StrLess(a: string, b: string) {
    LexLess(CharLess, a, b)
  }

  lemma {:induction false} StrAsymmetric(a: string, b: string)
    ensures StrLess(a, b) ==> !StrLess(b, a)
  {
    if |a| > 0 && |b| > 0 && a[0] == b[0] {
      StrAsymmetric(a[1..], b[1..]);
    }
  }

  lemma {:induction false} StrBetween(a: string, b: string, c: string)
    ensures StrLess(a, c) ==> StrLess(a, b) || StrLess(b, c)
  {
    if |a| > 0 && |b| > 0 && |c| > 0 && a[0] == b[0] == c[0] {
      StrBetween(a[1..], b[1..], c[1..]);
    }
  }

  lemma {:induction false} StrTotal(a: string, b: string)
    ensures StrLess(a, b) || StrLess(b, a) || a == b
  {
    if |a| > 0 && |b| > 0 && a[0] == b[0] {
      StrTotal(a[1..], b[1..]);
      assert a == [a[0]] + a[1..] && b == [b[0]] + b[1..];
    }
  }

  predicate IntLess(a: int, b: int) {
    a < b
  }

  /** The distinct entries in order of first appearance, as a dictionary or set collects them. */
  function Dedup<T(==)>(s: seq<T>): (r: seq<T>) {
    if |s| == 0 then []
    else
      var rest := Dedup(s[..|s| - 1]);
      if s[|s| - 1] in rest then rest else rest + [s[|s| - 1]]
  }

  lemma {:induction false} DedupMembers<T>(s: seq<T>)
    ensures forall x :: x in Dedup(s) <==> x in s
    ensures Distinct(Dedup(s))
  {
    if |s| > 0 {
      DedupMembers(s[..|s| - 1]);
      assert s == s[..|s| - 1] + [s[|s| - 1]];
    }
  }

  function SortedDistinct(s: seq<int>): seq<int> {
    SortBy(IntLess, Dedup(s))
  }

  lemma SortedDistinctMembers(s: seq<int>)
    ensures forall x :: x in SortedDistinct(s) <==> x in s
    ensures forall i, j :: 0 <= i < j < |SortedDistinct(s)| ==> SortedDistinct(s)[i] < SortedDistinct(s)[j]
  {
    DedupMembers(s);
    var d := Dedup(s);
    forall x
      ensures x in SortedDistinct(s) <==> x in s
    {
      SortSameMembers(IntLess, d, x);
    }
    var r := SortedDistinct(s);
    SortKeepsDistinct(IntLess, d);
    SortSorts(IntLess, d);
    assert Distinct(r) && SortedBy(IntLess, r);
    forall i, j | 0 <= i < j < |r|
      ensures r[i] < r[j]
    {
      assert !IntLess(r[j], r[i]);
    }
  }

  lemma DistinctGrows(s: seq<int>, x: int)
    ensures Distinct(s + [x]) <==> Distinct(s) && x !in s
  {
    var t := s + [x];
    if Distinct(t) {
      assert forall i :: 0 <= i < |s| ==> t[i] == s[i];
    }
    if exists i :: 0 <= i < |s| && s[i] == x {
      var i :| 0 <= i < |s| && s[i] == x;
      assert t[i] == t[|s|];
    }
  }

  /** A list as a set, which is as large as the list exactly when the list has no repetitions. */
  method SetOf(items: seq<int>) returns (r: set<int>)
    ensures forall x :: x in r <==> x in items
    ensures |r| == |items| <==> Distinct(items)
  {
    r := {};
    for i := 0 to |items|
      invariant forall x :: x in r <==> x in items[..i]
      invariant |r| <= i && (|r| == i <==> Distinct(items[..i]))
    {
      assert items[..i + 1] == items[..i] + [items[i]];
      DistinctGrows(items[..i], items[i]);
      assert items[i] in r ==> r + {items[i]} == r;
      r := r + {items[i]};
    }
    assert items[..|items|] == items;
  }

  lemma Inhabited(s: set<int>)
    requires s != {}
    ensures exists x :: x in s
  {
    assert (forall x: int :: x !in s) ==> s == {};
  }

  lemma HasMember(s: seq<int>)
    ensures |s| > 0 ==> exists x :: x in s
  {
    if |s| > 0 {
      var x := s[0];
      assert x in s;
    }
  }

  lemma Rotated<T>(a: multiset<T>, b: multiset<T>, c: multiset<T>)
    ensures a + b + c == a + c + b == a + (b + c)
  {
  }
}
