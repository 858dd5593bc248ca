/**
 * Finite real vectors: sums, linear combinations, inner products and the Cauchy-Schwarz inequality. Every
 * product of two reals goes through Mul, so that the solver meets nonlinear arithmetic only in the small
 * lemmas that need it.
 */
module Vectors {
  import opened Sorting

  type Vec = seq<real>

  /** Multiplication under a name, so that a proof can treat products as atoms. */
  function Mul(x: real, y: real): real {
    x * y
  }

  function PositivePart(x: real): real {
    if x > 0.0 then x else 0.0
  }

  function Sum(v: Vec): real {
    if |v| == 0 then 0.0 else Sum(v[..|v| - 1]) + v[|v| - 1]
  }

  function Dot(a: Vec, b: Vec): real
    requires |a| == |b|
  {
    if |a| == 0 then 0.0
    else Dot(a[..|a| - 1], b[..|b| - 1]) + Mul(a[|a| - 1], b[|b| - 1])
  }

  function NormSq(a: Vec): real {
    Dot(a, a)
  }

  /** The linear combination s*a + t*b. */
  function Comb(s: real, a: Vec, t: real, b: Vec): (r: Vec)
    requires |a| == |b|
    ensures |r| == |a|
    ensures forall i :: 0 <= i < |a| ==> r[i] == Mul(s, a[i]) + Mul(t, b[i])
  {
    seq(|a|, i requires 0 <= i < |a| => Mul(s, a[i]) + Mul(t, b[i]))
  }

  function Sub(a: Vec, b: Vec): (r: Vec)
    requires |a| == |b|
    ensures |r| == |a|
  {
    Comb(1.0, a, -1.0, b)
  }

  function Zeros(n: nat): (r: Vec)
    ensures |r| == n
  {
    seq(n, _ => 0.0)
  }

  /** The vector that is 1 at every position holding x and 0 elsewhere. */
  function Indicator<T(==)>(xs: seq<T>, x: T): (r: Vec)
    ensures |r| == |xs|
  {
    seq(|xs|, i requires 0 <= i < |xs| => if xs[i] == x then 1.0 else 0.0)
  }

  lemma {:induction false} SumConcat(a: Vec, b: Vec)
    ensures Sum(a + b) == Sum(a) + Sum(b)
  {
    if |b| == 0 {
      assert a + b == a;
    } else {
      SumConcat(a, b[..|b| - 1]);
      assert (a + b)[..|a + b| - 1] == a + b[..|b| - 1];
    }
  }

  lemma {:induction false} DotSymmetric(a: Vec, b: Vec)
    requires |a| == |b|
    ensures Dot(a, b) == Dot(b, a)
  {
    if |a| > 0 {
      DotSymmetric(a[..|a| - 1], b[..|b| - 1]);
    }
  }

  lemma CombPrefix(s: real, a: Vec, t: real, b: Vec, n: nat)
    requires |a| == |b| && n <= |a|
    ensures Comb(s, a, t, b)[..n] == Comb(s, a[..n], t, b[..n])
  {
    forall i | 0 <= i < n
      ensures Comb(s, a, t, b)[i] == Comb(s, a[..n], t, b[..n])[i]
    {
      assert a[..n][i] == a[i] && b[..n][i] == b[i];
    }
  }

  lemma {:induction false} DotLinear(s: real, a: Vec, t: real, b: Vec, c: Vec)
    requires |a| == |b| == |c|
    ensures Dot(Comb(s, a, t, b), c) == Mul(s, Dot(a, c)) + Mul(t, Dot(b, c))
  {
    var r := Comb(s, a, t, b);
    if |a| > 0 {
      var n := |a| - 1;
      var dx, dy, x, y, z := Dot(a[..n], c[..n]), Dot(b[..n], c[..n]), a[n], b[n], c[n];
      assert Dot(r[..n], c[..n]) == Mul(s, dx) + Mul(t, dy) by {
        CombPrefix(s, a, t, b, n);
        DotLinear(s, a[..n], t, b[..n], c[..n]);
      }
      DotLinearStep(s, t, x, y, z, dx, dy);
      hide Mul;
      assert Dot(r, c) == Dot(r[..n], c[..n]) + Mul(Mul(s, x) + Mul(t, y), z);
    }
  }

  lemma DotLinearStep(s: real, t: real, x: real, y: real, z: real, dx: real, dy: real)
    ensures Mul(s, dx) + Mul(t, dy) + Mul(Mul(s, x) + Mul(t, y), z) == Mul(s, dx + Mul(x, z)) + Mul(t, dy + Mul(y, z))
  {
    assert Mul(Mul(s, x) + Mul(t, y), z) == s * (x * z) + t * (y * z);
    assert Mul(s, dx + Mul(x, z)) == s * dx + s * (x * z);
    assert Mul(t, dy + Mul(y, z)) == t * dy + t * (y * z);
  }

  lemma DotLinearRight(c: Vec, s: real, a: Vec, t: real, b: Vec)
    requires |a| == |b| == |c|
    ensures Dot(c, Comb(s, a, t, b)) == Mul(s, Dot(c, a)) + Mul(t, Dot(c, b))
  {
    hide *;
    DotLinear(s, a, t, b, c);
    DotSymmetric(c, Comb(s, a, t, b));
    DotSymmetric(c, a);
    DotSymmetric(c, b);
  }

  lemma {:induction false} DotConcat(a: Vec, b: Vec, c: Vec, d: Vec)
    requires |a| == |b| && |c| == |d|
    ensures Dot(a + c, b + d) == Dot(a, b) + Dot(c, d)
  {
    if |c| == 0 {
      assert a + c == a && b + d == b;
    } else {
      DotConcat(a, b, c[..|c| - 1], d[..|d| - 1]);
      assert (a + c)[..|a + c| - 1] == a + c[..|c| - 1];
      assert (b + d)[..|b + d| - 1] == b + d[..|d| - 1];
    }
  }

  lemma {:induction false} DotZeros(a: Vec)
    ensures Dot(Zeros(|a|), a) == 0.0
  {
    if |a| > 0 {
      DotZeros(a[..|a| - 1]);
      assert Zeros(|a|)[..|a| - 1] == Zeros(|a| - 1);
    }
  }

  lemma NormSqComb(s: real, a: Vec, t: real, b: Vec)
    requires |a| == |b|
    ensures NormSq(Comb(s, a, t, b))
      == Mul(Mul(s, s), NormSq(a)) + 2.0 * Mul(Mul(s, t), Dot(a, b)) + Mul(Mul(t, t), NormSq(b))
  {
    hide Dot;
    hide Mul;
    var c := Comb(s, a, t, b);
    DotLinear(s, a, t, b, c);
    DotLinearRight(a, s, a, t, b);
    DotLinearRight(b, s, a, t, b);
    DotSymmetric(a, b);
    Expand(s, t, NormSq(a), Dot(a, b), NormSq(b));
  }

  lemma Expand(s: real, t: real, aa: real, ab: real, bb: real)
    ensures Mul(s, Mul(s, aa) + Mul(t, ab)) + Mul(t, Mul(s, ab) + Mul(t, bb))
         == Mul(Mul(s, s), aa) + 2.0 * Mul(Mul(s, t), ab) + Mul(Mul(t, t), bb)
  {
    assert Mul(s, Mul(s, aa) + Mul(t, ab)) == s * s * aa + s * t * ab;
    assert Mul(t, Mul(s, ab) + Mul(t, bb)) == s * t * ab + t * t * bb;
  }

  lemma {:induction false} NormSqNonnegative(a: Vec)
    ensures NormSq(a) >= 0.0
  {
    if |a| > 0 {
      NormSqNonnegative(a[..|a| - 1]);
    }
  }

  lemma MulPositive(x: real, y: real)
    requires (x > 0.0 && y > 0.0) || (x < 0.0 && y < 0.0)
    ensures Mul(x, y) > 0.0
  {
    assert x < 0.0 ==> Mul(x, y) == (-x) * (-y);
  }

  /** A vector of length zero in norm is the zero vector, so its inner products vanish. */
  lemma {:induction false} NullVector(a: Vec, b: Vec)
    requires |a| == |b| && NormSq(a) == 0.0
    ensures Dot(a, b) == 0.0
    ensures a == Zeros(|a|)
  {
    if |a| > 0 {
      var n := |a| - 1;
      NormSqNonnegative(a[..n]);
      var x := a[n];
      assert NormSq(a) == NormSq(a[..n]) + Mul(x, x);
      assert Mul(x, x) >= 0.0;
      if x != 0.0 {
        MulPositive(x, x);
      }
      NullVector(a[..n], b[..n]);
      assert a == a[..n] + [x];
    }
  }

  lemma CauchySchwarz(a: Vec, b: Vec)
    requires |a| == |b|
    ensures Dot(a, b) * Dot(a, b) <= NormSq(a) * NormSq(b)
  {
    var A, D, B := NormSq(a), Dot(a, b), NormSq(b);
    NormSqNonnegative(b);
    if B == 0.0 {
      NullVector(b, a);
      DotSymmetric(a, b);
    } else {
      NormSqComb(B, a, -D, b);
      NormSqNonnegative(Comb(B, a, -D, b));
      CancelPositive(A, D, B);
    }
  }

  lemma CancelPositive(A: real, D: real, B: real)
    requires B > 0.0
    requires B * B * A + 2.0 * B * (-D) * D + (-D) * (-D) * B >= 0.0
    ensures D * D <= A * B
  {
    var gap := A * B - D * D;
    assert B * gap == B * B * A + 2.0 * B * (-D) * D + (-D) * (-D) * B;
    assert gap < 0.0 ==> B * gap < 0.0;
  }

  /** Distances expand: |a-u|^2 = |a-b|^2 + 2 (a-b).(b-u) + |b-u|^2. */
  lemma DistanceSplit(a: Vec, b: Vec, u: Vec)
    requires |a| == |b| == |u|
    ensures NormSq(Sub(a, u)) == NormSq(Sub(a, b)) - 2.0 * Dot(Sub(a, b), Sub(u, b)) + NormSq(Sub(b, u))
  {
    NormSqComb(1.0, Sub(a, b), -1.0, Sub(u, b));
    assert Comb(1.0, Sub(a, b), -1.0, Sub(u, b)) == Sub(a, u);
    SubFlip(u, b);
  }

  lemma SubFlip(a: Vec, b: Vec)
    requires |a| == |b|
    ensures NormSq(Sub(a, b)) == NormSq(Sub(b, a))
  {
    NormSqComb(-1.0, Sub(a, b), 0.0, Sub(a, b));
    assert Comb(-1.0, Sub(a, b), 0.0, Sub(a, b)) == Sub(b, a);
  }

  lemma {:induction false} IndicatorPicks<T>(xs: seq<T>, k: nat, v: Vec)
    requires Distinct(xs) && k < |xs| == |v|
    ensures Dot(Indicator(xs, xs[k]), v) == v[k]
  {
    var n := |xs| - 1;
    assert Indicator(xs, xs[k])[..n] == Indicator(xs[..n], xs[k]);
    if k == n {
      IndicatorMisses(xs[..n], xs[k], v[..n]);
    } else {
      IndicatorPicks(xs[..n], k, v[..n]);
    }
  }

  lemma {:induction false} IndicatorMisses<T>(xs: seq<T>, x: T, v: Vec)
    requires x !in xs && |xs| == |v|
    ensures Dot(Indicator(xs, x), v) == 0.0
  {
    assert forall i :: 0 <= i < |xs| ==> xs[i] != x;
    assert Indicator(xs, x) == Zeros(|v|);
    DotZeros(v);
  }
}
