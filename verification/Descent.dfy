/**
 * Projected gradient descent on a squared-hinge loss with an l2 penalty: the general argument, from the
 * quadratic bounds of one pair, through those of the whole objective, to the descent of a projected step.
 */
module Descent {
  import opened Vectors

  /** One training pair: its residual at z is margin - offset - row.z, and |row|^2 <= bound. */
  datatype Term = Term(row: Vec, offset: real, weight: real, bound: real)

  /** The penalty acts on the coordinates from `free` on. */
  datatype Problem = Problem(terms: seq<Term>, margin: real, l2: real, free: nat, dim: nat)

  ghost predicate WellFormed(p: Problem) {
    p.free <= p.dim && p.l2 >= 0.0 && forall t :: t in p.terms ==> Sound(t, p.dim)
  }

  ghost predicate Sound(t: Term, dim: nat) {
    |t.row| == dim && t.weight >= 0.0 && NormSq(t.row) <= t.bound
  }

  ghost predicate AllSound(terms: seq<Term>, dim: nat) {
    forall i :: 0 <= i < |terms| ==> Sound(terms[i], dim)
  }

  function Residual(t: Term, margin: real, z: Vec): real
    requires |t.row| == |z|
  {
    margin - t.offset - Dot(t.row, z)
  }

  function TermLoss(t: Term, residual: real): real {
    Mul(t.weight, Mul(PositivePart(residual), PositivePart(residual)))
  }

  /** The factor the gradient puts on the pair's row. */
  function Factor(t: Term, residual: real): real {
    Mul(-2.0 * t.weight, PositivePart(residual))
  }

  ghost function Loss(terms: seq<Term>, margin: real, z: Vec): real
    requires AllSound(terms, |z|)
  {
    if |terms| == 0 then 0.0
    else
      var t := terms[|terms| - 1];
      Loss(terms[..|terms| - 1], margin, z) + TermLoss(t, Residual(t, margin, z))
  }

  ghost function LossGradient(terms: seq<Term>, margin: real, z: Vec): (g: Vec)
    requires AllSound(terms, |z|)
    ensures |g| == |z|
  {
    if |terms| == 0 then Zeros(|z|)
    else
      var t := terms[|terms| - 1];
      Comb(1.0, LossGradient(terms[..|terms| - 1], margin, z), Factor(t, Residual(t, margin, z)), t.row)
  }

  function HalfCurvature(terms: seq<Term>): real {
    if |terms| == 0 then 0.0
    else HalfCurvature(terms[..|terms| - 1]) + Mul(terms[|terms| - 1].weight, terms[|terms| - 1].bound)
  }

  function Lipschitz(p: Problem): real {
    2.0 * p.l2 + 2.0 * HalfCurvature(p.terms)
  }

  ghost function Objective(p: Problem, z: Vec): real
    requires WellFormed(p) && |z| == p.dim
  {
    Mul(p.l2, NormSq(z[p.free..])) + Loss(p.terms, p.margin, z)
  }

  function Tail(z: Vec, free: nat): (r: Vec)
    requires free <= |z|
    ensures |r| == |z|
  {
    Zeros(free) + z[free..]
  }

  ghost function Gradient(p: Problem, z: Vec): (g: Vec)
    requires WellFormed(p) && |z| == p.dim
    ensures |g| == |z|
  {
    Comb(1.0, LossGradient(p.terms, p.margin, z), 2.0 * p.l2, Tail(z, p.free))
  }

  // One pair.

  lemma TermUpper(t: Term, r: real, u: real, reach: real)
    requires t.weight >= 0.0 && Mul(u, u) <= reach
    ensures TermLoss(t, r - u) <= TermLoss(t, r) + Mul(Factor(t, r), u) + Mul(t.weight, reach)
  {
    var h, h' := PositivePart(r), PositivePart(r - u);
    HingeUpper(r, u);
    Weigh(t.weight, Mul(h', h') , Mul(h, h), Mul(h, u), reach);
    FactorTimes(t.weight, h, u);
  }

  lemma TermLower(t: Term, r: real, u: real)
    requires t.weight >= 0.0
    ensures TermLoss(t, r - u) >= TermLoss(t, r) + Mul(Factor(t, r), u)
  {
    var h, h' := PositivePart(r), PositivePart(r - u);
    HingeLower(r, u);
    Weigh(t.weight, Mul(h, h), Mul(h', h'), Mul(-h, u), 0.0);
    FactorTimes(t.weight, h, u);
    assert Mul(t.weight, Mul(-h, u)) == -Mul(t.weight, Mul(h, u));
  }

  lemma HingeUpper(r: real, u: real)
    ensures Mul(PositivePart(r - u), PositivePart(r - u))
      <= Mul(PositivePart(r), PositivePart(r)) - 2.0 * Mul(PositivePart(r), u) + Mul(u, u)
  {
    SquareOfDifference(r, u);
    NonnegativeSquare(r - u);
    NonnegativeSquare(u);
    if r <= 0.0 && r - u > 0.0 {
      SquareGrows(r - u, -u);
      assert Mul(-u, -u) == Mul(u, u);
    }
  }

  lemma HingeLower(r: real, u: real)
    ensures Mul(PositivePart(r), PositivePart(r))
      <= Mul(PositivePart(r - u), PositivePart(r - u)) - 2.0 * Mul(-PositivePart(r), u)
  {
    SquareOfDifference(r, u);
    NonnegativeSquare(r - u);
    NonnegativeSquare(u);
    assert Mul(-PositivePart(r), u) == -Mul(PositivePart(r), u);
    if r > 0.0 && r - u <= 0.0 {
      assert Mul(r, u - r) >= 0.0;
      assert Mul(r, u - r) == Mul(r, u) - Mul(r, r);
      NonnegativeSquare(r);
    }
  }

  lemma SquareOfDifference(r: real, u: real)
    ensures Mul(r - u, r - u) == Mul(r, r) - 2.0 * Mul(r, u) + Mul(u, u)
  {
  }

  lemma NonnegativeSquare(x: real)
    ensures Mul(x, x) >= 0.0
  {
  }

  lemma SquareGrows(x: real, y: real)
    requires 0.0 <= x <= y
    ensures Mul(x, x) <= Mul(y, y)
  {
    assert Mul(y, y) - Mul(x, x) == (y - x) * (y + x);
  }

  lemma Weigh(w: real, a: real, b: real, c: real, d: real)
    requires w >= 0.0 && a <= b - 2.0 * c + d
    ensures Mul(w, a) <= Mul(w, b) - 2.0 * Mul(w, c) + Mul(w, d)
  {
    assert w * (b - 2.0 * c + d - a) >= 0.0;
  }

  lemma FactorTimes(w: real, h: real, u: real)
    ensures Mul(Mul(-2.0 * w, h), u) == -2.0 * Mul(w, Mul(h, u))
  {
  }

  // The whole loss: a quadratic upper bound and a linear lower bound at the same point.

  /** One pair's loss at the next point, by its loss, slope and curvature at this one. */
  lemma TermMoves(t: Term, margin: real, z: Vec, next: Vec)
    requires |z| == |next| && Sound(t, |z|)
    ensures var d := Sub(next, z);
      TermLoss(t, Residual(t, margin, next))
        <= TermLoss(t, Residual(t, margin, z)) + Mul(Factor(t, Residual(t, margin, z)), Dot(t.row, d))
         + Mul(t.weight, Mul(t.bound, NormSq(d)))
  {
    var d := Sub(next, z);
    var u := Dot(t.row, d);
    ResidualMoves(t, margin, z, next);
    RowReach(t, d);
    assert t.weight >= 0.0;
    hide *;
    TermUpper(t, Residual(t, margin, z), u, Mul(t.bound, NormSq(d)));
  }

  lemma GradientJoins(g: Vec, f: real, row: Vec, d: Vec)
    requires |g| == |row| == |d|
    ensures Dot(Comb(1.0, g, f, row), d) == Dot(g, d) + Mul(f, Dot(row, d))
  {
    hide Dot;
    DotLinear(1.0, g, f, row, d);
    UnitScale(Dot(g, d));
  }

  lemma {:induction false} LossUpper(terms: seq<Term>, margin: real, z: Vec, next: Vec)
    requires |z| == |next| && AllSound(terms, |z|)
    ensures Loss(terms, margin, next)
         <= Loss(terms, margin, z) + Dot(LossGradient(terms, margin, z), Sub(next, z))
          + Mul(HalfCurvature(terms), NormSq(Sub(next, z)))
  {
    var d := Sub(next, z);
    if |terms| == 0 {
      DotZeros(d);
    } else {
      var t, rest := terms[|terms| - 1], terms[..|terms| - 1];
      LossUnfolds(terms, margin, z);
      LossUnfolds(terms, margin, next);
      hide *;
      LossUpper(rest, margin, z, next);
      TermMoves(t, margin, z, next);
      GradientJoins(LossGradient(rest, margin, z), Factor(t, Residual(t, margin, z)), t.row, d);
      SplitCurvature(HalfCurvature(rest), t.weight, t.bound, NormSq(d));
    }
  }

  lemma LossUnfolds(terms: seq<Term>, margin: real, z: Vec)
    requires AllSound(terms, |z|) && |terms| > 0
    ensures var t, rest := terms[|terms| - 1], terms[..|terms| - 1];
      && AllSound(rest, |z|) && |t.row| == |z| && t.weight >= 0.0 && NormSq(t.row) <= t.bound
      && Sound(t, |z|)
      && Loss(terms, margin, z) == Loss(rest, margin, z) + TermLoss(t, Residual(t, margin, z))
      && LossGradient(terms, margin, z)
           == Comb(1.0, LossGradient(rest, margin, z), Factor(t, Residual(t, margin, z)), t.row)
      && HalfCurvature(terms) == HalfCurvature(rest) + Mul(t.weight, t.bound)
  {
    assert Sound(terms[|terms| - 1], |z|);
  }

  lemma UnitScale(x: real)
    ensures Mul(1.0, x) == x && Mul(-1.0, x) == -x
  {
  }

  lemma SplitCurvature(c: real, w: real, b: real, n: real)
    ensures Mul(c + Mul(w, b), n) == Mul(c, n) + Mul(w, Mul(b, n))
  {
  }

  lemma ResidualMoves(t: Term, margin: real, z: Vec, next: Vec)
    requires |t.row| == |z| == |next|
    ensures Residual(t, margin, next) == Residual(t, margin, z) - Dot(t.row, Sub(next, z))
  {
    hide Dot;
    DotLinearRight(t.row, 1.0, next, -1.0, z);
  }

  lemma RowReach(t: Term, d: Vec)
    requires Sound(t, |d|)
    ensures Mul(Dot(t.row, d), Dot(t.row, d)) <= Mul(t.bound, NormSq(d))
  {
    hide Dot;
    CauchySchwarz(t.row, d);
    NormSqNonnegative(d);
    assert Mul(t.bound - NormSq(t.row), NormSq(d)) >= 0.0;
  }

  lemma {:induction false} LossLower(terms: seq<Term>, margin: real, z: Vec, other: Vec)
    requires |z| == |other| && AllSound(terms, |z|)
    ensures Loss(terms, margin, other)
         >= Loss(terms, margin, z) + Dot(LossGradient(terms, margin, z), Sub(other, z))
  {
    var d := Sub(other, z);
    if |terms| == 0 {
      DotZeros(d);
    } else {
      var t, rest := terms[|terms| - 1], terms[..|terms| - 1];
      LossLower(rest, margin, z, other);
      ResidualMoves(t, margin, z, other);
      TermLower(t, Residual(t, margin, z), Dot(t.row, d));
      DotLinear(1.0, LossGradient(rest, margin, z), Factor(t, Residual(t, margin, z)), t.row, d);
      hide Dot, Mul, TermLoss, Factor, Residual;
      UnitScale(Dot(LossGradient(rest, margin, z), d));
    }
  }

  /** The penalty expands exactly. */
  lemma PenaltyExpands(z: Vec, next: Vec, free: nat)
    requires |z| == |next| && free <= |z|
    ensures NormSq(next[free..])
         == NormSq(z[free..]) + 2.0 * Dot(Tail(z, free), Sub(next, z)) + NormSq(Sub(next, z)[free..])
    ensures NormSq(Sub(next, z)[free..]) <= NormSq(Sub(next, z))
  {
    hide Dot;
    var d := Sub(next, z);
    var a, b := z[free..], d[free..];
    assert next[free..] == Comb(1.0, a, 1.0, b) by {
      forall i | 0 <= i < |a|
        ensures next[free..][i] == Comb(1.0, a, 1.0, b)[i]
      {
        assert d[free + i] == next[free + i] - z[free + i];
      }
    }
    NormSqComb(1.0, a, 1.0, b);
    DotConcat(Zeros(free), d[..free], a, b);
    DotZeros(d[..free]);
    assert d[..free] + b == d;
    DotConcat(d[..free], d[..free], b, b);
    NormSqNonnegative(d[..free]);
  }

  lemma ObjectiveUpper(p: Problem, z: Vec, next: Vec)
    requires WellFormed(p) && |z| == |next| == p.dim
    ensures 2.0 * Objective(p, next)
         <= 2.0 * Objective(p, z) + 2.0 * Dot(Gradient(p, z), Sub(next, z)) + Mul(Lipschitz(p), NormSq(Sub(next, z)))
  {
    var d := Sub(next, z);
    LossUpper(p.terms, p.margin, z, next);
    PenaltyExpands(z, next, p.free);
    DotLinear(1.0, LossGradient(p.terms, p.margin, z), 2.0 * p.l2, Tail(z, p.free), d);
    hide Dot;
    ScalePenalty(p.l2, NormSq(next[p.free..]), NormSq(z[p.free..]), Dot(Tail(z, p.free), d),
      NormSq(d[p.free..]), NormSq(d));
    SplitLipschitz(p.l2, HalfCurvature(p.terms), NormSq(d));
    hide Mul;
    UnitScale(Dot(LossGradient(p.terms, p.margin, z), d));
  }

  lemma ScalePenalty(l: real, after: real, before: real, g: real, tail: real, n: real)
    requires l >= 0.0 && after == before + 2.0 * g + tail && tail <= n
    ensures Mul(l, after) <= Mul(l, before) + Mul(2.0 * l, g) + Mul(l, n)
  {
    assert Mul(l, n - tail) >= 0.0;
  }

  lemma SplitLipschitz(l: real, c: real, n: real)
    ensures Mul(2.0 * l + 2.0 * c, n) == 2.0 * Mul(l, n) + 2.0 * Mul(c, n)
  {
  }

  /** The objective lies above its linearisation everywhere: it is convex and Gradient is its gradient. */
  lemma ObjectiveLower(p: Problem, z: Vec, other: Vec)
    requires WellFormed(p) && |z| == |other| == p.dim
    ensures Objective(p, other) >= Objective(p, z) + Dot(Gradient(p, z), Sub(other, z))
  {
    var d := Sub(other, z);
    LossLower(p.terms, p.margin, z, other);
    PenaltyExpands(z, other, p.free);
    DotLinear(1.0, LossGradient(p.terms, p.margin, z), 2.0 * p.l2, Tail(z, p.free), d);
    NormSqNonnegative(d[p.free..]);
    hide Dot;
    ScalePenaltyBelow(p.l2, NormSq(other[p.free..]), NormSq(z[p.free..]), Dot(Tail(z, p.free), d), NormSq(d[p.free..]));
    hide Mul;
    UnitScale(Dot(LossGradient(p.terms, p.margin, z), d));
  }

  lemma ScalePenaltyBelow(l: real, after: real, before: real, g: real, tail: real)
    requires l >= 0.0 && after == before + 2.0 * g + tail && tail >= 0.0
    ensures Mul(l, after) >= Mul(l, before) + Mul(2.0 * l, g)
  {
    assert Mul(l, tail) >= 0.0;
  }

  /** next is the projection of z - step * gradient as seen from the feasible point u. */
  ghost predicate ProjectedStep(p: Problem, z: Vec, next: Vec, step: real, u: Vec)
    requires WellFormed(p) && |z| == |next| == |u| == p.dim
  {
    Dot(Sub(Comb(1.0, z, -step, Gradient(p, z)), next), Sub(u, next)) <= 0.0
  }

  /**
   * Whatever feasible point u one compares with, a step moves towards u by at least twice
   * the step length times the remaining gap in the objective.
   */
  lemma StepApproaches(p: Problem, z: Vec, next: Vec, step: real, u: Vec)
    requires WellFormed(p) && |z| == |next| == |u| == p.dim
    requires step > 0.0 && Mul(step, Lipschitz(p)) <= 1.0
    requires ProjectedStep(p, z, next, step, u)
    ensures 2.0 * Mul(step, Objective(p, next) - Objective(p, u)) <= NormSq(Sub(z, u)) - NormSq(Sub(next, u))
  {
    hide *;
    var g := Gradient(p, z);
    ObjectiveUpper(p, z, next);
    ObjectiveLower(p, z, u);
    GradientSplits(g, z, next, u);
    StepInequality(p, z, next, u, step);
    DistanceSplit(z, next, u);
    NormSqNonnegative(Sub(next, z));
    SubFlip(next, z);
    Combine(step, Lipschitz(p), Objective(p, next), Objective(p, u), Objective(p, z),
            Dot(g, Sub(next, z)), Dot(g, Sub(u, z)), Dot(g, Sub(u, next)),
            NormSq(Sub(next, z)), Dot(Sub(z, next), Sub(u, next)));
  }

  lemma GradientSplits(g: Vec, z: Vec, next: Vec, u: Vec)
    requires |g| == |z| == |next| == |u|
    ensures Dot(g, Sub(u, next)) == Dot(g, Sub(u, z)) - Dot(g, Sub(next, z))
  {
    hide Dot;
    DotLinearRight(g, 1.0, u, -1.0, next);
    DotLinearRight(g, 1.0, u, -1.0, z);
    DotLinearRight(g, 1.0, next, -1.0, z);
  }

  lemma StepInequality(p: Problem, z: Vec, next: Vec, u: Vec, step: real)
    requires WellFormed(p) && |z| == |next| == |u| == p.dim
    requires ProjectedStep(p, z, next, step, u)
    ensures Dot(Sub(z, next), Sub(u, next)) <= Mul(step, Dot(Gradient(p, z), Sub(u, next)))
  {
    hide Dot, Gradient;
    var g := Gradient(p, z);
    var moved := Sub(Comb(1.0, z, -step, g), next);
    assert moved == Comb(1.0, Sub(z, next), -step, g) by {
      forall i | 0 <= i < |z|
        ensures moved[i] == Comb(1.0, Sub(z, next), -step, g)[i]
      {
      }
    }
    DotLinear(1.0, Sub(z, next), -step, g, Sub(u, next));
    NegScale(step, Dot(g, Sub(u, next)));
  }

  lemma NegScale(s: real, x: real)
    ensures Mul(-s, x) == -Mul(s, x)
  {
  }

  lemma Combine(s: real, l: real, fNext: real, fu: real, fz: real, gd: real, gu: real, gun: real, n: real, dot: real)
    requires s > 0.0 && Mul(s, l) <= 1.0 && n >= 0.0
    requires 2.0 * fNext <= 2.0 * fz + 2.0 * gd + Mul(l, n)
    requires fu >= fz + gu
    requires gun == gu - gd
    requires dot <= Mul(s, gun)
    ensures 2.0 * Mul(s, fNext - fu) <= n - 2.0 * dot
  {
    var gap := -2.0 * gun + Mul(l, n) - 2.0 * (fNext - fu);
    assert gap >= 0.0;
    assert Mul(s, gap) >= 0.0;
    assert Mul(s, gap) == -2.0 * Mul(s, gun) + Mul(Mul(s, l), n) - 2.0 * Mul(s, fNext - fu);
    assert Mul(1.0 - Mul(s, l), n) >= 0.0;
    assert Mul(1.0 - Mul(s, l), n) == n - Mul(Mul(s, l), n);
  }

  lemma NoDistance(z: Vec)
    ensures NormSq(Sub(z, z)) == 0.0
  {
    hide Dot;
    NormSqComb(1.0, z, -1.0, z);
  }

  /** A projected step never raises the objective, and drops it by the squared move over twice the step. */
  lemma StepDescends(p: Problem, z: Vec, next: Vec, step: real)
    requires WellFormed(p) && |z| == |next| == p.dim
    requires step > 0.0 && Mul(step, Lipschitz(p)) <= 1.0
    requires ProjectedStep(p, z, next, step, z)
    ensures 2.0 * Mul(step, Objective(p, z) - Objective(p, next)) >= NormSq(Sub(next, z))
    ensures Objective(p, next) <= Objective(p, z)
  {
    hide *;
    StepApproaches(p, z, next, step, z);
    NoDistance(z);
    NormSqNonnegative(Sub(next, z));
    NegRight(step, Objective(p, next), Objective(p, z), NormSq(Sub(next, z)));
  }

  lemma NegRight(s: real, a: real, b: real, n: real)
    requires s > 0.0 && n >= 0.0 && 2.0 * Mul(s, a - b) <= -n
    ensures 2.0 * Mul(s, b - a) >= n && a <= b
  {
    assert Mul(s, b - a) == -Mul(s, a - b);
    assert a > b ==> s * (a - b) > 0.0;
  }

  /** A step that goes nowhere has reached a minimum over all feasible points. */
  lemma FixedPointIsOptimal(p: Problem, z: Vec, step: real, u: Vec)
    requires WellFormed(p) && |z| == |u| == p.dim
    requires step > 0.0 && Mul(step, Lipschitz(p)) <= 1.0
    requires ProjectedStep(p, z, z, step, u)
    ensures Objective(p, z) <= Objective(p, u)
  {
    StepApproaches(p, z, z, step, u);
    hide *;
    NoGap(step, Objective(p, z), Objective(p, u));
  }

  lemma NoGap(s: real, a: real, b: real)
    requires s > 0.0 && 2.0 * Mul(s, a - b) <= 0.0
    ensures a <= b
  {
    assert a > b ==> s * (a - b) > 0.0;
  }

  /** After k steps the objective exceeds that of u by at most |start - u|^2 / (2 k step). */
  ghost predicate Within(p: Problem, start: Vec, z: Vec, step: real, k: nat, u: Vec)
    requires WellFormed(p) && |start| == |z| == |u| == p.dim
  {
    2.0 * Mul(k as real, Mul(step, Objective(p, z) - Objective(p, u))) <= NormSq(Sub(start, u)) - NormSq(Sub(z, u))
  }

  /** A step in front of a run that ends no higher than the step did. */
  lemma WithinBeforeStep(p: Problem, start: Vec, next: Vec, z: Vec, step: real, k: nat, u: Vec)
    requires WellFormed(p) && |start| == |z| == |next| == |u| == p.dim
    requires step > 0.0 && Mul(step, Lipschitz(p)) <= 1.0
    requires ProjectedStep(p, start, next, step, u)
    requires Objective(p, z) <= Objective(p, next)
    requires Within(p, next, z, step, k, u)
    ensures Within(p, start, z, step, k + 1, u)
  {
    StepApproaches(p, start, next, step, u);
    hide Objective, NormSq, Lipschitz, ProjectedStep;
    OneMore(step, k as real, Objective(p, z), Objective(p, next), Objective(p, u));
    hide Mul;
  }

  lemma OneMore(s: real, k: real, last: real, next: real, other: real)
    requires s > 0.0 && k >= 0.0 && last <= next
    ensures Mul(k + 1.0, Mul(s, last - other)) <= Mul(k, Mul(s, last - other)) + Mul(s, next - other)
  {
    assert Mul(s, next - last) >= 0.0;
    assert Mul(s, next - last) == Mul(s, next - other) - Mul(s, last - other);
  }

  lemma StartWithin(p: Problem, start: Vec, step: real, u: Vec)
    requires WellFormed(p) && |start| == |u| == p.dim
    ensures Within(p, start, start, step, 0, u)
  {
  }
}
