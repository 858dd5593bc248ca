/** Euclidean projection onto the probability simplex by sorting and thresholding. */
module Simplex {
  import opened Vectors
  import Sorting

  ghost predicate InSimplex(p: Vec) {
    Sum(p) == 1.0 && forall i :: 0 <= i < |p| ==> p[i] >= 0.0
  }

  predicate Greater(x: real, y: real) {
    x > y
  }

  function Descending(values: Vec): (r: Vec)
    ensures |r| == |values|
  {
    Sorting.SortBy(Greater, values)
  }

  /** The level that lowers k entries of the given total to a total of one. */
  function Level(total: real, k: nat): real
    requires k > 0
  {
    (total - 1.0) / (k as real)
  }

  /** The loop test at 1-based index k of the descending list. */
  predicate Counts(ordered: Vec, k: nat)
    requires 1 <= k <= |ordered|
  {
    ordered[k - 1] - Level(Sum(ordered[..k]), k) > 0.0
  }

  /** The last index up to k that counts; the first always does, so it is 0 only for k == 0. */
  function Rho(ordered: Vec, k: nat): (rho: nat)
    requires k <= |ordered|
    ensures rho <= k
    ensures k > 0 ==> rho > 0 && Counts(ordered, rho)
    ensures forall j :: rho < j <= k ==> !Counts(ordered, j)
  {
    if k == 0 then 0
    else if Counts(ordered, k) then k
    else (FirstCounts(ordered); Rho(ordered, k - 1))
  }

  lemma FirstCounts(ordered: Vec)
    requires |ordered| > 0
    ensures Counts(ordered, 1)
  {
    assert ordered[..1][..0] == [];
    assert Sum(ordered[..1]) == ordered[0];
  }

  function Threshold(values: Vec): real
    requires |values| > 0
  {
    var ordered := Descending(values);
    var rho := Rho(ordered, |ordered|);
    Level(Sum(ordered[..rho]), rho)
  }

  function Clipped(values: Vec, theta: real): (r: Vec)
    ensures |r| == |values|
  {
    seq(|values|, i requires 0 <= i < |values| => PositivePart(values[i] - theta))
  }

  function Project(values: Vec): (r: Vec)
    ensures |r| == |values|
  {
    if |values| == 0 then [] else Clipped(values, Threshold(values))
  }

  // The mass above a threshold does not depend on the order of the entries.

  function Excess(values: Vec, theta: real): real {
    if |values| == 0 then 0.0 else PositivePart(values[0] - theta) + Excess(values[1..], theta)
  }

  lemma {:induction false} SumFront(v: Vec)
    requires |v| > 0
    ensures Sum(v) == v[0] + Sum(v[1..])
  {
    SumConcat([v[0]], v[1..]);
    assert [v[0]] + v[1..] == v;
    assert [v[0]][..0] == [];
    assert Sum([v[0]]) == v[0];
  }

  lemma {:induction false} ClippedSum(values: Vec, theta: real)
    ensures Sum(Clipped(values, theta)) == Excess(values, theta)
  {
    if |values| > 0 {
      SumFront(Clipped(values, theta));
      assert Clipped(values, theta)[1..] == Clipped(values[1..], theta);
      ClippedSum(values[1..], theta);
    }
  }

  lemma {:induction false} ExcessInsert(x: real, s: Vec, theta: real)
    ensures Excess(Sorting.InsertBy(Greater, x, s), theta) == PositivePart(x - theta) + Excess(s, theta)
  {
    var r := Sorting.InsertBy(Greater, x, s);
    if |s| > 0 && s[0] > x {
      ExcessInsert(x, s[1..], theta);
      assert r[1..] == Sorting.InsertBy(Greater, x, s[1..]);
    } else {
      assert r[1..] == s;
    }
  }

  lemma {:induction false} ExcessSorted(values: Vec, theta: real)
    ensures Excess(Descending(values), theta) == Excess(values, theta)
  {
    if |values| > 0 {
      ExcessSorted(values[1..], theta);
      ExcessInsert(values[0], Descending(values[1..]), theta);
    }
  }

  lemma {:induction false} ExcessSplit(s: Vec, k: nat, theta: real)
    requires k <= |s|
    requires forall i :: 0 <= i < k ==> s[i] >= theta
    requires forall i :: k <= i < |s| ==> s[i] <= theta
    ensures Excess(s, theta) == Sum(s[..k]) - Mul(k as real, theta)
  {
    if |s| == 0 {
    } else if k == 0 {
      ExcessSplit(s[1..], 0, theta);
    } else {
      ExcessSplit(s[1..], k - 1, theta);
      SumFront(s[..k]);
      assert s[..k][1..] == s[1..][..k - 1];
      assert (k as real) * theta == theta + ((k - 1) as real) * theta;
    }
  }

  /** On a descending list the entries up to rho lie above the threshold and the rest do not. */
  lemma ThresholdSeparates(s: Vec, rho: nat, theta: real)
    requires forall i, j :: 0 <= i < j < |s| ==> s[i] >= s[j]
    requires |s| > 0 && rho == Rho(s, |s|)
    requires theta == Level(Sum(s[..rho]), rho)
    ensures forall i :: 0 <= i < rho ==> s[i] > theta
    ensures forall i :: rho <= i < |s| ==> s[i] <= theta
  {
    hide *;
    ThresholdBrackets(s, rho);
    assert theta == Level(Sum(s[..rho]), rho);
    forall i | 0 <= i < |s|
      ensures if i < rho then s[i] > theta else s[i] <= theta
    {
      if i < rho - 1 {
        assert s[i] >= s[rho - 1];
      } else if i > rho {
        assert s[rho] >= s[i];
      }
    }
  }

  lemma ThresholdBrackets(s: Vec, rho: nat)
    requires |s| > 0 && rho == Rho(s, |s|)
    ensures s[rho - 1] > Level(Sum(s[..rho]), rho)
    ensures rho < |s| ==> s[rho] <= Level(Sum(s[..rho]), rho)
  {
    hide Rho;
    hide Level;
    assert Counts(s, rho);
    if rho < |s| {
      assert !Counts(s, rho + 1);
      SumStep(s, rho);
      hide Sum;
      NextFails(s[rho], Sum(s[..rho]), rho);
    }
  }

  lemma SumStep(s: Vec, k: nat)
    requires k < |s|
    ensures Sum(s[..k + 1]) == Sum(s[..k]) + s[k]
  {
    assert s[..k + 1][..k] == s[..k];
  }

  lemma NextFails(x: real, total: real, k: nat)
    requires k > 0 && x - Level(total + x, k + 1) <= 0.0
    ensures x <= Level(total, k)
  {
    var r, theta, y := k as real, Level(total, k), Level(total + x, k + 1);
    assert y * (r + 1.0) == total + x - 1.0;
    assert theta * r == total - 1.0;
    assert (y - x) * (r + 1.0) >= 0.0;
    assert r * (theta - x) >= 0.0;
    assert x > theta ==> r * (theta - x) < 0.0;
  }

  /** The projection lies on the simplex, so the loop's final renormalisation divides by one. */
  lemma ProjectInSimplex(values: Vec)
    requires |values| > 0
    ensures InSimplex(Project(values))
  {
    var s := Descending(values);
    var theta := Threshold(values);
    var rho := Rho(s, |s|);
    hide Level;
    assert Sum(Clipped(values, theta)) == Excess(s, theta) by {
      ExcessSorted(values, theta);
      ClippedSum(values, theta);
    }
    assert Excess(s, theta) == Sum(s[..rho]) - Mul(rho as real, theta) by {
      DescendingIsSorted(values);
      ThresholdSeparates(s, rho, theta);
      ExcessSplit(s, rho, theta);
    }
    LevelCancels(Sum(s[..rho]), rho);
  }

  lemma LevelCancels(total: real, k: nat)
    requires k > 0
    ensures Mul(k as real, Level(total, k)) == total - 1.0
  {
  }

  lemma DescendingIsSorted(values: Vec)
    ensures forall i, j :: 0 <= i < j < |values| ==> Descending(values)[i] >= Descending(values)[j]
  {
    var s := Descending(values);
    Sorting.SortSorts(Greater, values);
    forall i, j | 0 <= i < j < |s|
      ensures s[i] >= s[j]
    {
      assert !Greater(s[j], s[i]);
    }
  }

  /** An entrywise bound of a product by a multiple bounds the inner product by that multiple of the sum. */
  lemma {:induction false} DotBound(a: Vec, b: Vec, theta: real)
    requires |a| == |b|
    requires forall i :: 0 <= i < |a| ==> Mul(a[i], b[i]) <= Mul(theta, b[i])
    ensures Dot(a, b) <= Mul(theta, Sum(b))
  {
    if |a| > 0 {
      var n := |a| - 1;
      DotBound(a[..n], b[..n], theta);
      assert Mul(theta, Sum(b)) == Mul(theta, Sum(b[..n])) + Mul(theta, b[n]) by {
        AddScaled(theta, Sum(b[..n]), b[n], Sum(b));
      }
      hide Mul;
    }
  }

  lemma AddScaled(t: real, x: real, y: real, z: real)
    requires z == x + y
    ensures Mul(t, z) == Mul(t, x) + Mul(t, y)
  {
  }

  lemma {:induction false} SumSub(u: Vec, p: Vec)
    requires |u| == |p|
    ensures Sum(Sub(u, p)) == Sum(u) - Sum(p)
  {
    if |u| > 0 {
      CombPrefix(1.0, u, -1.0, p, |u| - 1);
      SumSub(u[..|u| - 1], p[..|u| - 1]);
    }
  }

  lemma SubEntry(u: Vec, p: Vec, i: nat)
    requires |u| == |p| && i < |u|
    ensures Sub(u, p)[i] == u[i] - p[i]
  {
  }

  lemma EntryVariational(v: real, p: real, u: real, theta: real)
    requires p == PositivePart(v - theta) && u >= 0.0
    ensures Mul(v - p, u - p) <= Mul(theta, u - p)
  {
    if p == 0.0 {
      assert (theta - v) * u >= 0.0;
    }
  }

  /** The obtuse-angle inequality that characterises a projection onto a convex set. */
  lemma ProjectVariational(v: Vec, u: Vec)
    requires |v| == |u| > 0 && InSimplex(u)
    ensures Dot(Sub(v, Project(v)), Sub(u, Project(v))) <= 0.0
  {
    var p := Project(v);
    var theta := Threshold(v);
    ProjectInSimplex(v);
    SumSub(u, p);
    forall i | 0 <= i < |v|
      ensures Mul(Sub(v, p)[i], Sub(u, p)[i]) <= Mul(theta, Sub(u, p)[i])
    {
      SubEntry(v, p, i);
      SubEntry(u, p, i);
      EntryVariational(v[i], p[i], u[i], theta);
    }
    DotBound(Sub(v, p), Sub(u, p), theta);
  }

  /** Every simplex point is farther from v than the projection is, by at least its distance to it. */
  lemma ProjectNearest(v: Vec, u: Vec)
    requires |v| == |u| > 0 && InSimplex(u)
    ensures NormSq(Sub(v, Project(v))) + NormSq(Sub(Project(v), u)) <= NormSq(Sub(v, u))
  {
    hide Dot;
    ProjectVariational(v, u);
    DistanceSplit(v, Project(v), u);
  }

  ghost predicate Nearest(v: Vec, q: Vec) {
    && |q| == |v|
    && InSimplex(q)
    && forall u: Vec :: |u| == |v| && InSimplex(u) ==> NormSq(Sub(v, q)) <= NormSq(Sub(v, u))
  }

  /** project_simplex computes the nearest simplex point, and no other point is nearest. */
  lemma ProjectIsTheNearest(v: Vec, q: Vec)
    requires |v| > 0
    ensures Nearest(v, q) <==> q == Project(v)
  {
    hide Dot;
    var p := Project(v);
    ProjectInSimplex(v);
    forall u: Vec | |u| == |v| && InSimplex(u)
      ensures NormSq(Sub(v, p)) <= NormSq(Sub(v, u))
    {
      ProjectNearest(v, u);
      NormSqNonnegative(Sub(p, u));
    }
    if Nearest(v, q) {
      ProjectNearest(v, q);
      NormSqNonnegative(Sub(p, q));
      ZeroDistance(p, q);
    }
  }

  lemma ZeroDistance(p: Vec, q: Vec)
    requires |p| == |q| && NormSq(Sub(p, q)) == 0.0
    ensures p == q
  {
    NullVector(Sub(p, q), p);
    forall i | 0 <= i < |p|
      ensures p[i] == q[i]
    {
      assert Sub(p, q)[i] == 1.0 * p[i] + -1.0 * q[i];
      assert Zeros(|p|)[i] == 0.0;
    }
  }

  /** Exactly the points of the simplex are left where they are. */
  lemma ProjectFixesExactlySimplex(v: Vec)
    requires |v| > 0
    ensures Project(v) == v <==> InSimplex(v)
  {
    ProjectInSimplex(v);
    if InSimplex(v) {
      hide Dot;
      var zero := Sub(v, v);
      forall u: Vec | |u| == |v| && InSimplex(u)
        ensures NormSq(Sub(v, v)) <= NormSq(Sub(v, u))
      {
        NormSqComb(1.0, v, -1.0, v);
        NormSqNonnegative(Sub(v, u));
      }
      ProjectIsTheNearest(v, v);
    }
  }

  /** The loop of project_simplex, with its fallback branch and its renormalisation. */
  method ProjectSimplex(values: Vec) returns (result: Vec)
    ensures result == Project(values)
  {
    var ordered := Descending(values);
    var cumulative, rho, index := 0.0, 0, 0;
    while index < |ordered|
      invariant 0 <= index <= |ordered|
      invariant cumulative == Sum(ordered[..index])
      invariant rho == Rho(ordered, index)
    {
      hide Level;
      SumStep(ordered, index);
      var value := ordered[index];
      index := index + 1;
      cumulative := cumulative + value;
      if value - Level(cumulative, index) > 0.0 {
        rho := index;
      }
    }
    if rho == 0 {
      return Uniform(|values|);
    }
    hide Rho;
    hide Level;
    assert ordered[..|ordered|] == ordered;
    var theta := Level(Sum(ordered[..rho]), rho);
    var projected := Clipped(values, theta);
    assert projected == Project(values);
    ProjectInSimplex(values);
    hide *;
    result := Renormalize(projected);
  }

  /** Dividing by the total and giving the last entry the remainder changes nothing on the simplex. */
  method Renormalize(projected: Vec) returns (normalized: Vec)
    requires |projected| > 0 && Sum(projected) != 0.0
    ensures |normalized| == |projected|
    ensures Sum(projected) == 1.0 ==> normalized == projected
  {
    hide Sum;
    var total := Sum(projected);
    normalized := seq(|projected|, i requires 0 <= i < |projected| => projected[i] / total);
    assert total == 1.0 ==> normalized == projected;
    var last := |normalized| - 1;
    normalized := normalized[last := normalized[last] + (1.0 - Sum(normalized))];
  }

  /** Equal shares; only the empty input reaches this branch, and then there are none. */
  function Uniform(n: nat): (r: Vec)
    ensures |r| == n
  {
    if n == 0 then [] else seq(n, _ => 1.0 / (n as real))
  }
}
