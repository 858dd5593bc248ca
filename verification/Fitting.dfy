/**
 * The projected-gradient loops of the learner, each proved to be a run of Descend, and what such a run
 * guarantees: feasible weights, an objective that never rises, a bound on its distance from the best.
 */
module Fitting {
  import opened Sorting
  import opened Vectors
  import opened Descent
  import opened Scoring
  import opened Replay
  import opened Learner
  import Simplex

  const MAX_ITERATIONS := 10000

  datatype StopRule = SmallChangeOrGain | SmallChange

  function Abs(x: real): (r: real)
    ensures r >= x && r >= -x && (r == x || r == -x)
  {
    if x < 0.0 then -x else x
  }

  function MaxAbs(v: Vec): real {
    if |v| == 0 then 0.0
    else
      var rest, last := MaxAbs(v[..|v| - 1]), Abs(v[|v| - 1]);
      if last > rest then last else rest
  }

  lemma {:induction false} MaxAbsConcat(a: Vec, b: Vec)
    ensures MaxAbs(a + b) == if MaxAbs(b) > MaxAbs(a) then MaxAbs(b) else MaxAbs(a)
  {
    if |b| == 0 {
      assert a + b == a;
      MaxAbsNonnegative(a);
    } else {
      MaxAbsConcat(a, b[..|b| - 1]);
      assert (a + b)[..|a + b| - 1] == a + b[..|b| - 1];
    }
  }

  /** It is the size of one entry, and no entry is larger. */
  lemma {:induction false} MaxAbsIs(v: Vec)
    ensures forall i :: 0 <= i < |v| ==> -MaxAbs(v) <= v[i] <= MaxAbs(v)
    ensures if |v| == 0 then MaxAbs(v) == 0.0 else exists i :: 0 <= i < |v| && (v[i] == MaxAbs(v) || -v[i] == MaxAbs(v))
  {
    if |v| > 0 {
      var n := |v| - 1;
      MaxAbsIs(v[..n]);
      MaxAbsNonnegative(v[..n]);
      assert forall i :: 0 <= i < n ==> v[..n][i] == v[i];
      if n > 0 {
        var i :| 0 <= i < n && (v[..n][i] == MaxAbs(v[..n]) || -v[..n][i] == MaxAbs(v[..n]));
        assert v[i] == v[..n][i];
      }
    }
  }

  lemma {:induction false} MaxAbsNonnegative(a: Vec)
    ensures MaxAbs(a) >= 0.0
  {
    if |a| > 0 {
      MaxAbsNonnegative(a[..|a| - 1]);
    }
  }

  // One step: the first |base| coordinates, offset by base, are projected onto the simplex.

  ghost function Moved(p: Problem, z: Vec, step: real): (r: Vec)
    requires WellFormed(p) && |z| == p.dim
    ensures |r| == |z|
  {
    Comb(1.0, z, -step, Gradient(p, z))
  }

  ghost function NextPoint(p: Problem, z: Vec, step: real, base: Vec): (r: Vec)
    requires WellFormed(p) && |z| == p.dim && |base| <= |z|
    ensures |r| == |z|
  {
    var moved := Moved(p, z, step);
    Sub(Simplex.Project(Comb(1.0, base, 1.0, moved[..|base|])), base) + moved[|base|..]
  }

  ghost predicate Feasible(u: Vec, base: Vec) {
    && |base| <= |u|
    && Simplex.InSimplex(Comb(1.0, base, 1.0, u[..|base|]))
  }

  ghost predicate Stops(rule: StopRule, p: Problem, z: Vec, next: Vec)
    requires WellFormed(p) && |z| == |next| == p.dim
  {
    var change := MaxAbs(Sub(z, next));
    match rule
    case SmallChangeOrGain =>
      change <= 0.00000000001 || 0.0 <= Objective(p, z) - Objective(p, next) <= 0.0000000000001
    case SmallChange => change < 0.00000000001
  }

  /** At most `left` steps from z, ending early after a step that the rule stops at. */
  ghost function Descend(p: Problem, z: Vec, step: real, base: Vec, rule: StopRule, left: nat): (r: (Vec, nat))
    requires WellFormed(p) && |z| == p.dim && |base| <= |z|
    ensures |r.0| == |z| && r.1 <= left
    decreases left
  {
    if left == 0 then (z, 0)
    else
      var next := NextPoint(p, z, step, base);
      if Stops(rule, p, z, next) then (next, 1)
      else
        var rest := Descend(p, next, step, base, rule, left - 1);
        (rest.0, rest.1 + 1)
  }

  /** The next point is feasible, and it is a projected step as seen from every feasible point. */
  lemma NextPointProjects(p: Problem, z: Vec, step: real, base: Vec, u: Vec)
    requires WellFormed(p) && |z| == |u| == p.dim && 0 < |base|
    requires Feasible(u, base)
    ensures Feasible(NextPoint(p, z, step, base), base)
    ensures ProjectedStep(p, z, NextPoint(p, z, step, base), step, u)
  {
    hide Gradient, Dot, Objective;
    var h := |base|;
    var moved, next := Moved(p, z, step), NextPoint(p, z, step, base);
    var v, w := Comb(1.0, base, 1.0, moved[..h]), Comb(1.0, base, 1.0, u[..h]);
    var q := Simplex.Project(v);
    Simplex.ProjectInSimplex(v);
    Simplex.ProjectVariational(v, w);
    hide Simplex.Project, Simplex.InSimplex;
    OffsetBack(base, q, next[..h]);
    HeadAndTail(base, moved, u, next, q);
    var a, b := Sub(moved, next), Sub(u, next);
    DotConcat(Sub(v, q), Sub(w, q), Zeros(|z| - h), b[h..]);
    DotZeros(b[h..]);
    assert b == Sub(w, q) + b[h..];
  }

  lemma OffsetBack(base: Vec, q: Vec, head: Vec)
    requires |base| == |q| && head == Sub(q, base)
    ensures Comb(1.0, base, 1.0, head) == q
  {
  }

  lemma HeadAndTail(base: Vec, moved: Vec, u: Vec, next: Vec, q: Vec)
    requires |base| == |q| <= |moved| == |u| == |next|
    requires next == Sub(q, base) + moved[|base|..]
    ensures Sub(moved, next) == Sub(Comb(1.0, base, 1.0, moved[..|base|]), q) + Zeros(|moved| - |base|)
    ensures Sub(u, next)[..|base|] == Sub(Comb(1.0, base, 1.0, u[..|base|]), q)
  {
    var h := |base|;
    var left, right := Sub(moved, next), Sub(Comb(1.0, base, 1.0, moved[..h]), q) + Zeros(|moved| - h);
    forall i | 0 <= i < |moved|
      ensures left[i] == right[i]
    {
      if i >= h {
        assert next[i] == moved[i];
      }
    }
    assert left == right;
  }

  /**
   * The whole run stays feasible, never raises the objective, and after k steps is within
   * |start - u|^2 / (2 k step) of every feasible point u, in particular of the optimum.
   */
  lemma {:induction false} DescendConverges(p: Problem, z: Vec, step: real, base: Vec, rule: StopRule, left: nat,
                                            u: Vec)
    requires WellFormed(p) && |z| == |u| == p.dim && 0 < |base| <= |z|
    requires Feasible(z, base) && Feasible(u, base)
    requires step > 0.0 && Mul(step, Lipschitz(p)) <= 1.0
    ensures var (last, k) := Descend(p, z, step, base, rule, left);
      && Feasible(last, base)
      && Objective(p, last) <= Objective(p, z)
      && Within(p, z, last, step, k, u)
    decreases left
  {
    hide Objective, Lipschitz, NextPoint, Feasible, Stops, Within, ProjectedStep;
    if left == 0 {
      StartWithin(p, z, step, u);
    } else {
      var next := NextPoint(p, z, step, base);
      NextPointProjects(p, z, step, base, z);
      NextPointProjects(p, z, step, base, u);
      StepDescends(p, z, next, step);
      var last, k := next, 0;
      if Stops(rule, p, z, next) {
        StartWithin(p, next, step, u);
      } else {
        DescendConverges(p, next, step, base, rule, left - 1, u);
        var rest := Descend(p, next, step, base, rule, left - 1);
        last, k := rest.0, rest.1;
      }
      WithinBeforeStep(p, z, next, last, step, k, u);
    }
  }

  function StepOf(lipschitz: real): real {
    1.0 / (if lipschitz > 1.0 then lipschitz else 1.0)
  }

  lemma StepIsShort(lipschitz: real)
    ensures StepOf(lipschitz) > 0.0 && Mul(StepOf(lipschitz), lipschitz) <= 1.0
    ensures Mul(StepOf(lipschitz), if lipschitz > 1.0 then lipschitz else 1.0) == 1.0
  {
  }

  // The two sums of one evaluation, accumulated pair by pair as the source does.

  ghost predicate ReadyPairs(pairs: seq<Pair>, ids: seq<int>, weights: Vec, biases: map<int, real>) {
    && ValidPairs(pairs, ids) && |weights| == 6
    && (forall i :: 0 <= i < |ids| ==> ids[i] in biases)
    && (forall m :: m in biases ==> m in ids)
  }

  /** gradient[i] += factor * delta[i] for every i. */
  method AddScaled(gradient: Vec, factor: real, delta: Vec) returns (r: Vec)
    requires |gradient| == |delta|
    ensures r == Comb(1.0, gradient, factor, delta)
  {
    r := gradient;
    ghost var goal := Comb(1.0, gradient, factor, delta);
    for i := 0 to |delta|
      invariant |r| == |gradient|
      invariant forall k :: 0 <= k < i ==> r[k] == goal[k]
      invariant forall k :: i <= k < |r| ==> r[k] == gradient[k]
    {
      r := r[i := r[i] + Mul(factor, delta[i])];
      assert Mul(1.0, gradient[i]) == gradient[i];
    }
    assert r == goal;
  }

  method ObjectiveAndGradient(weights: Vec, biases: map<int, real>, ids: seq<int>, pairs: seq<Pair>,
                              threadWeight: real, whereWeight: real, settings: FitSettings)
    returns (objective: real, weightGradient: Vec, biasGradient: map<int, real>)
    requires ReadyPairs(pairs, ids, weights, biases) && settings.biasL2 >= 0.0
    requires WellFormed(ProblemOf(pairs, ids, threadWeight, whereWeight, settings))
    ensures |weightGradient| == 6 && biasGradient.Keys == biases.Keys
    ensures objective == Objective(ProblemOf(pairs, ids, threadWeight, whereWeight, settings),
      Flat(weights, biases, ids))
    ensures Flat(weightGradient, biasGradient, ids)
         == Gradient(ProblemOf(pairs, ids, threadWeight, whereWeight, settings), Flat(weights, biases, ids))
  {
    ghost var p := ProblemOf(pairs, ids, threadWeight, whereWeight, settings);
    ghost var z := Flat(weights, biases, ids);
    ProblemShape(pairs, ids, threadWeight, whereWeight, settings);
    ReadyShape(pairs, ids, weights, biases);
    hide *;
    objective, weightGradient, biasGradient := PenaltyOnly(weights, biases, ids, settings);
    AccumulationStarts(p, z, objective, Flat(weightGradient, biasGradient, ids));
    for i := 0 to |pairs|
      invariant |weightGradient| == 6 && biasGradient.Keys == biases.Keys
      invariant Accumulated(p, z, i, objective, Flat(weightGradient, biasGradient, ids))
    {
      AccumulationStep(p, z, i, objective, Flat(weightGradient, biasGradient, ids));
      objective, weightGradient, biasGradient := AddPair(
        pairs[i], objective, weightGradient, biasGradient, weights, biases, ids, threadWeight, whereWeight, settings);
    }
    AccumulationEnds(p, z, objective, Flat(weightGradient, biasGradient, ids));
  }

  lemma ReadyShape(pairs: seq<Pair>, ids: seq<int>, weights: Vec, biases: map<int, real>)
    requires ReadyPairs(pairs, ids, weights, biases)
    ensures |weights| == 6 && forall i :: 0 <= i < |ids| ==> ids[i] in biases
  {
  }

  /** Objective and gradient with the penalty and the first i pairs. */
  ghost predicate Accumulated(p: Problem, z: Vec, i: nat, objective: real, gradient: Vec) {
    && i <= |p.terms| && p.free <= |z| == p.dim && AllSound(p.terms, |z|)
    && objective == Mul(p.l2, NormSq(z[p.free..])) + Loss(p.terms[..i], p.margin, z)
    && gradient == Comb(1.0, LossGradient(p.terms[..i], p.margin, z), 2.0 * p.l2, Tail(z, p.free))
  }

  lemma AccumulationStarts(p: Problem, z: Vec, objective: real, gradient: Vec)
    requires p.free <= |z| == p.dim && AllSound(p.terms, |z|)
    requires objective == Mul(p.l2, NormSq(z[p.free..]))
    requires gradient == Comb(1.0, Zeros(|z|), 2.0 * p.l2, Tail(z, p.free))
    ensures Accumulated(p, z, 0, objective, gradient)
  {
    hide Comb, Mul, NormSq, Tail;
    assert p.terms[..0] == [];
  }

  lemma AccumulationStep(p: Problem, z: Vec, i: nat, objective: real, gradient: Vec)
    requires Accumulated(p, z, i, objective, gradient) && i < |p.terms|
    ensures |p.terms[i].row| == |z| == |gradient|
    ensures var t := p.terms[i];
      var residual := Residual(t, p.margin, z);
      Accumulated(p, z, i + 1, objective + TermLoss(t, residual), Comb(1.0, gradient, Factor(t, residual), t.row))
  {
    var t := p.terms[i];
    assert Sound(t, |z|);
    hide Comb, Mul, NormSq, Tail, Loss, LossGradient, TermLoss, Factor, Residual;
    LossStep(p.terms, i, p.margin, z);
    AddTerm(t, Residual(t, p.margin, z), LossGradient(p.terms[..i], p.margin, z), 2.0 * p.l2,
      Tail(z, p.free), gradient);
  }

  lemma AccumulationEnds(p: Problem, z: Vec, objective: real, gradient: Vec)
    requires WellFormed(p) && Accumulated(p, z, |p.terms|, objective, gradient)
    ensures objective == Objective(p, z) && gradient == Gradient(p, z)
  {
    assert p.terms[..|p.terms|] == p.terms;
    hide Comb, Mul, NormSq, Tail, Loss, LossGradient;
  }

  lemma ProblemShape(pairs: seq<Pair>, ids: seq<int>, threadWeight: real, whereWeight: real, settings: FitSettings)
    requires ValidPairs(pairs, ids) && settings.biasL2 >= 0.0
    ensures var p := ProblemOf(pairs, ids, threadWeight, whereWeight, settings);
      && p.margin == settings.pairMargin && p.l2 == settings.biasL2 && p.free == 6 && p.dim == 6 + |ids|
      && |p.terms| == |pairs| && AllSound(p.terms, 6 + |ids|) && Distinct(ids)
      && forall i :: 0 <= i < |pairs| ==>
           p.terms[i] == TermOf(pairs[i], ids, threadWeight, whereWeight) && ValidPair(pairs[i], ids)
  {
    ProblemIsWellFormed(pairs, ids, threadWeight, whereWeight, settings);
    hide TermOf, ValidPair, Sound;
  }

  lemma Unfolded(p: Problem, z: Vec)
    requires WellFormed(p) && |z| == p.dim
    ensures Objective(p, z) == Mul(p.l2, NormSq(z[p.free..])) + Loss(p.terms, p.margin, z)
    ensures Gradient(p, z) == Comb(1.0, LossGradient(p.terms, p.margin, z), 2.0 * p.l2, Tail(z, p.free))
    ensures Loss(p.terms[..0], p.margin, z) == 0.0
    ensures LossGradient(p.terms[..0], p.margin, z) == Zeros(|z|)
    ensures p.terms[..|p.terms|] == p.terms
  {
  }

  /** The penalty's value and gradient, before any pair. */
  method PenaltyOnly(weights: Vec, biases: map<int, real>, ids: seq<int>, settings: FitSettings)
    returns (objective: real, weightGradient: Vec, biasGradient: map<int, real>)
    requires |weights| == 6 && forall i :: 0 <= i < |ids| ==> ids[i] in biases
    ensures |weightGradient| == 6 && biasGradient.Keys == biases.Keys
    ensures var z := Flat(weights, biases, ids);
      && objective == Mul(settings.biasL2, NormSq(z[6..]))
      && Flat(weightGradient, biasGradient, ids) == Comb(1.0, Zeros(|z|), 2.0 * settings.biasL2, Tail(z, 6))
  {
    ghost var z := Flat(weights, biases, ids);
    weightGradient := Zeros(6);
    biasGradient := map m | m in biases :: Mul(2.0 * settings.biasL2, biases[m]);
    objective := Mul(settings.biasL2, SumOfSquares(biases, ids));
    assert z[6..] == seq(|ids|, i requires 0 <= i < |ids| => biases[ids[i]]);
    SumOfSquaresIsNorm(biases, ids);
    PenaltyGradient(z, biases, ids, biasGradient, 2.0 * settings.biasL2);
  }

  lemma LossStep(terms: seq<Term>, i: nat, margin: real, z: Vec)
    requires i < |terms| && AllSound(terms, |z|)
    ensures Loss(terms[..i + 1], margin, z)
         == Loss(terms[..i], margin, z) + TermLoss(terms[i], Residual(terms[i], margin, z))
    ensures LossGradient(terms[..i + 1], margin, z)
         == Comb(1.0, LossGradient(terms[..i], margin, z), Factor(terms[i], Residual(terms[i], margin, z)),
            terms[i].row)
  {
    assert terms[..i + 1][..i] == terms[..i];
  }

  /** One pair's share of the objective and of both gradients; a pair beyond the margin is skipped. */
  method AddPair(pair: Pair, objective: real, weightGradient: Vec, biasGradient: map<int, real>,
                 weights: Vec, biases: map<int, real>, ids: seq<int>,
                 threadWeight: real, whereWeight: real, settings: FitSettings)
    returns (objective': real, weightGradient': Vec, biasGradient': map<int, real>)
    requires ValidPair(pair, ids) && Distinct(ids) && |weights| == |weightGradient| == 6
    requires forall i :: 0 <= i < |ids| ==> ids[i] in biases && ids[i] in biasGradient
    ensures |weightGradient'| == 6 && biasGradient'.Keys == biasGradient.Keys
    ensures var t := TermOf(pair, ids, threadWeight, whereWeight);
      var residual := Residual(t, settings.pairMargin, Flat(weights, biases, ids));
      && objective' == objective + TermLoss(t, residual)
      && Flat(weightGradient', biasGradient', ids)
         == Comb(1.0, Flat(weightGradient, biasGradient, ids), Factor(t, residual), t.row)
  {
    ghost var t := TermOf(pair, ids, threadWeight, whereWeight);
    PairShape(pair, ids, threadWeight, whereWeight);
    hide *;
    var delta := FeatureDelta(pair, threadWeight, whereWeight);
    var hinge := PairHinge(pair, delta, weights, biases, ids, threadWeight, whereWeight, settings);
    FactorOf(t, hinge, Flat(weightGradient, biasGradient, ids));
    if hinge <= 0.0 {
      return objective, weightGradient, biasGradient;
    }
    var factor := Mul(-2.0 * pair.weight, hinge);
    objective' := objective + Mul(pair.weight, Mul(hinge, hinge));
    weightGradient', biasGradient' := AddRow(pair, delta, factor, weightGradient, biasGradient, ids);
  }

  /** Both gradients move by the factor times the pair's row. */
  method AddRow(pair: Pair, delta: Vec, factor: real, weightGradient: Vec, biasGradient: map<int, real>, ids: seq<int>)
    returns (weightGradient': Vec, biasGradient': map<int, real>)
    requires |delta| == |weightGradient| == 6 && pair.positive.memory in ids && pair.negative.memory in ids
    requires forall i :: 0 <= i < |ids| ==> ids[i] in biasGradient
    ensures |weightGradient'| == 6 && biasGradient'.Keys == biasGradient.Keys
    ensures Flat(weightGradient', biasGradient', ids)
         == Comb(1.0, Flat(weightGradient, biasGradient, ids), factor,
                 delta + Sub(Indicator(ids, pair.positive.memory), Indicator(ids, pair.negative.memory)))
  {
    hide *;
    assert pair.positive.memory in biasGradient && pair.negative.memory in biasGradient;
    weightGradient' := AddScaled(weightGradient, factor, delta);
    biasGradient' := biasGradient[pair.positive.memory := biasGradient[pair.positive.memory] + factor];
    biasGradient' := biasGradient'[pair.negative.memory := biasGradient'[pair.negative.memory] - factor];
    FlatMoves(pair, ids, delta, factor, weightGradient, biasGradient, weightGradient', biasGradient');
  }

  lemma PairShape(pair: Pair, ids: seq<int>, threadWeight: real, whereWeight: real)
    requires ValidPair(pair, ids)
    ensures |pair.positive.features| == |pair.negative.features| == 6
    ensures pair.positive.memory in ids && pair.negative.memory in ids
    ensures var t := TermOf(pair, ids, threadWeight, whereWeight);
      && t.weight == pair.weight && |t.row| == 6 + |ids|
      && t.row == FeatureDelta(pair, threadWeight, whereWeight)
                + Sub(Indicator(ids, pair.positive.memory), Indicator(ids, pair.negative.memory))
  {
  }

  /** The margin less the difference of the pair's two scores. */
  method PairHinge(pair: Pair, delta: Vec, weights: Vec, biases: map<int, real>, ids: seq<int>,
                   threadWeight: real, whereWeight: real, settings: FitSettings)
    returns (hinge: real)
    requires ValidPair(pair, ids) && Distinct(ids) && |weights| == 6
    requires delta == FeatureDelta(pair, threadWeight, whereWeight)
    requires forall i :: 0 <= i < |ids| ==> ids[i] in biases
    ensures hinge == Residual(TermOf(pair, ids, threadWeight, whereWeight), settings.pairMargin,
      Flat(weights, biases, ids))
  {
    RowDifference(pair, ids, threadWeight, whereWeight, weights, biases);
    hide Dot, Linearized;
    var difference := DotOf(weights, delta);
    difference := difference
      + (Linearized(pair.positive, threadWeight, whereWeight).1
         - Linearized(pair.negative, threadWeight, whereWeight).1);
    difference := difference + (biases[pair.positive.memory] - biases[pair.negative.memory]);
    hinge := settings.pairMargin - difference;
  }

  lemma FactorOf(t: Term, residual: real, v: Vec)
    requires |t.row| == |v|
    ensures residual <= 0.0 ==> Comb(1.0, v, Factor(t, residual), t.row) == v && TermLoss(t, residual) == 0.0
    ensures residual > 0.0 ==>
      TermLoss(t, residual) == Mul(t.weight, Mul(residual, residual))
        && Factor(t, residual) == Mul(-2.0 * t.weight, residual)
  {
    if residual <= 0.0 {
      assert Factor(t, residual) == 0.0;
      forall i | 0 <= i < |v|
        ensures Comb(1.0, v, 0.0, t.row)[i] == v[i]
      {
        UnitAndZero(v[i], t.row[i]);
      }
    }
  }

  lemma UnitAndZero(x: real, y: real)
    ensures Mul(1.0, x) == x && Mul(0.0, y) == 0.0
  {
  }

  function DotOf(weights: Vec, delta: Vec): (r: real)
    requires |weights| == |delta|
    ensures r == Dot(delta, weights)
  {
    DotSymmetric(weights, delta);
    Dot(weights, delta)
  }

  function SumOfSquares(biases: map<int, real>, ids: seq<int>): real
    requires forall i :: 0 <= i < |ids| ==> ids[i] in biases
  {
    if |ids| == 0 then 0.0
    else
      var x := biases[ids[|ids| - 1]];
      SumOfSquares(biases, ids[..|ids| - 1]) + Mul(x, x)
  }

  lemma {:induction false} SumOfSquaresIsNorm(biases: map<int, real>, ids: seq<int>)
    requires forall i :: 0 <= i < |ids| ==> ids[i] in biases
    ensures SumOfSquares(biases, ids) == NormSq(seq(|ids|, i requires 0 <= i < |ids| => biases[ids[i]]))
  {
    if |ids| > 0 {
      var n := |ids| - 1;
      var v := seq(|ids|, i requires 0 <= i < |ids| => biases[ids[i]]);
      SumOfSquaresIsNorm(biases, ids[..n]);
      assert v[..n] == seq(n, i requires 0 <= i < n => biases[ids[..n][i]]);
    }
  }

  lemma PenaltyGradient(z: Vec, biases: map<int, real>, ids: seq<int>, gradient: map<int, real>, l: real)
    requires forall i :: 0 <= i < |ids| ==> ids[i] in biases && ids[i] in gradient
    requires |z| == 6 + |ids| && z[6..] == seq(|ids|, i requires 0 <= i < |ids| => biases[ids[i]])
    requires forall m :: m in gradient ==> m in biases && gradient[m] == Mul(l, biases[m])
    ensures Flat(Zeros(6), gradient, ids) == Comb(1.0, Zeros(|z|), l, Tail(z, 6))
  {
    var left, right := Flat(Zeros(6), gradient, ids), Comb(1.0, Zeros(|z|), l, Tail(z, 6));
    assert Mul(1.0, 0.0) == 0.0 && Mul(l, 0.0) == 0.0;
    forall i | 0 <= i < |z|
      ensures left[i] == right[i]
    {
      if i >= 6 {
        assert Tail(z, 6)[i] == z[6..][i - 6] == biases[ids[i - 6]];
        var m := ids[i - 6];
        assert m in gradient && gradient[m] == Mul(l, biases[m]);
        assert left[i] == gradient[m];
      } else {
        assert left[i] == Zeros(6)[i] == 0.0;
        assert Tail(z, 6)[i] == Zeros(6)[i] == 0.0;
      }
      assert Zeros(|z|)[i] == 0.0;
      hide Mul;
      assert right[i] == Mul(1.0, 0.0) + Mul(l, Tail(z, 6)[i]);
    }
  }

  /** Adding one pair's multiple of its row commutes with adding the penalty part. */
  lemma AddTerm(t: Term, residual: real, loss: Vec, l: real, tail: Vec, before: Vec)
    requires |t.row| == |loss| == |tail| && before == Comb(1.0, loss, l, tail)
    ensures Comb(1.0, Comb(1.0, loss, Factor(t, residual), t.row), l, tail)
      == Comb(1.0, before, Factor(t, residual), t.row)
  {
    var f := Factor(t, residual);
    var left, right := Comb(1.0, Comb(1.0, loss, f, t.row), l, tail), Comb(1.0, before, f, t.row);
    var a := Comb(1.0, loss, f, t.row);
    forall i | 0 <= i < |loss|
      ensures left[i] == right[i]
    {
      Commute(loss[i], t.row[i], tail[i], f, l, a[i], before[i]);
      hide *;
      assert left[i] == Mul(1.0, a[i]) + Mul(l, tail[i]);
      assert right[i] == Mul(1.0, before[i]) + Mul(f, t.row[i]);
      assert left[i] == right[i];
    }
    assert left == right;
  }

  lemma Commute(x: real, y: real, w: real, f: real, l: real, a: real, b: real)
    requires a == Mul(1.0, x) + Mul(f, y) && b == Mul(1.0, x) + Mul(l, w)
    ensures Mul(1.0, a) + Mul(l, w) == Mul(1.0, b) + Mul(f, y)
  {
  }

  lemma FlatMoves(pair: Pair, ids: seq<int>, delta: Vec, factor: real,
                  w: Vec, b: map<int, real>, w': Vec, b': map<int, real>)
    requires |w| == |delta| == 6 && w' == Comb(1.0, w, factor, delta)
    requires forall i :: 0 <= i < |ids| ==> ids[i] in b
    requires pair.positive.memory in b && pair.negative.memory in b
    requires var b1 := b[pair.positive.memory := b[pair.positive.memory] + factor];
      b' == b1[pair.negative.memory := b1[pair.negative.memory] - factor]
    ensures Flat(w', b', ids)
         == Comb(1.0, Flat(w, b, ids), factor,
                 delta + Sub(Indicator(ids, pair.positive.memory), Indicator(ids, pair.negative.memory)))
  {
    var ep, en := Indicator(ids, pair.positive.memory), Indicator(ids, pair.negative.memory);
    var left := Flat(w', b', ids);
    var right := Comb(1.0, Flat(w, b, ids), factor, delta + Sub(ep, en));
    forall i | 0 <= i < |left|
      ensures left[i] == right[i]
    {
      if i >= 6 {
        var m := ids[i - 6];
        assert (delta + Sub(ep, en))[i] == Mul(1.0, ep[i - 6]) + Mul(-1.0, en[i - 6]);
        assert Flat(w, b, ids)[i] == b[m];
        Coefficient(factor, ep[i - 6], en[i - 6], b[m]);
      } else {
        assert Flat(w, b, ids)[i] == w[i];
      }
    }
    assert left == right;
  }

  lemma Coefficient(f: real, x: real, y: real, b: real)
    requires (x == 0.0 || x == 1.0) && (y == 0.0 || y == 1.0)
    ensures Mul(1.0, b) + Mul(f, Mul(1.0, x) + Mul(-1.0, y))
         == b + (if x == 1.0 then f else 0.0) - (if y == 1.0 then f else 0.0)
  {
  }

  // The main loop.

  /** Twice the penalty plus, for each pair, twice its weight times the bound on its row. */
  method LipschitzBound(pairs: seq<Pair>, ids: seq<int>, threadWeight: real, whereWeight: real, settings: FitSettings)
    returns (lipschitz: real)
    requires ValidPairs(pairs, ids)
    ensures lipschitz == Lipschitz(ProblemOf(pairs, ids, threadWeight, whereWeight, settings))
  {
    ghost var terms := TermsOf(pairs, ids, threadWeight, whereWeight);
    lipschitz := 2.0 * settings.biasL2;
    for i := 0 to |pairs|
      invariant lipschitz == 2.0 * settings.biasL2 + 2.0 * HalfCurvature(terms[..i])
    {
      assert ValidPair(pairs[i], ids);
      assert terms[..i + 1][..i] == terms[..i];
      var delta := FeatureDelta(pairs[i], threadWeight, whereWeight);
      var pairNorm := NormSq(delta) + 2.0;
      hide NormSq;
      lipschitz := lipschitz + 2.0 * Mul(pairs[i].weight, pairNorm);
    }
    assert terms[..|pairs|] == terms;
  }

  /** The gradient step: weights are projected back onto the simplex, biases move freely. */
  method StepFrom(weights: Vec, biases: map<int, real>, weightGradient: Vec, biasGradient: map<int, real>,
                  ids: seq<int>, step: real, ghost p: Problem)
    returns (nextWeights: Vec, nextBiases: map<int, real>)
    requires WellFormed(p) && p.dim == 6 + |ids| && |weights| == |weightGradient| == 6
    requires biasGradient.Keys == biases.Keys && forall i :: 0 <= i < |ids| ==> ids[i] in biases
    requires Flat(weightGradient, biasGradient, ids) == Gradient(p, Flat(weights, biases, ids))
    ensures |nextWeights| == 6 && nextBiases.Keys == biases.Keys
    ensures Flat(nextWeights, nextBiases, ids) == NextPoint(p, Flat(weights, biases, ids), step, Zeros(6))
  {
    hide Gradient, NextPoint, Simplex.Project;
    var target := seq(6, i requires 0 <= i < 6 => weights[i] - Mul(step, weightGradient[i]));
    nextWeights := Simplex.ProjectSimplex(target);
    nextBiases := map m | m in biases :: biases[m] - Mul(step, biasGradient[m]);
    SteppedPoint(p, weights, biases, weightGradient, biasGradient, ids, step, target, nextWeights, nextBiases);
  }

  /** The largest move of any weight or bias. */
  method LargestChange(weights: Vec, biases: map<int, real>, nextWeights: Vec, nextBiases: map<int, real>,
                       ids: seq<int>)
    returns (change: real)
    requires |weights| == |nextWeights| == 6
    requires forall i :: 0 <= i < |ids| ==> ids[i] in biases && ids[i] in nextBiases
    ensures change == MaxAbs(Sub(Flat(weights, biases, ids), Flat(nextWeights, nextBiases, ids)))
  {
    var weightMoves := seq(6, i requires 0 <= i < 6 => weights[i] - nextWeights[i]);
    var biasMoves := seq(|ids|, i requires 0 <= i < |ids| => biases[ids[i]] - nextBiases[ids[i]]);
    change := if MaxAbs(biasMoves) > MaxAbs(weightMoves) then MaxAbs(biasMoves) else MaxAbs(weightMoves);
    MaxAbsConcat(weightMoves, biasMoves);
    assert Sub(Flat(weights, biases, ids), Flat(nextWeights, nextBiases, ids)) == weightMoves + biasMoves;
  }

  /** One pass of the loop: gradient step, both objectives, the largest change, the stopping test. */
  method Advance(weights: Vec, biases: map<int, real>, ids: seq<int>, pairs: seq<Pair>,
                 threadWeight: real, whereWeight: real, settings: FitSettings, step: real, ghost p: Problem)
    returns (nextWeights: Vec, nextBiases: map<int, real>, nextObjective: real, stop: bool)
    requires ReadyPairs(pairs, ids, weights, biases) && settings.biasL2 >= 0.0
    requires p == ProblemOf(pairs, ids, threadWeight, whereWeight, settings) && WellFormed(p)
    ensures |nextWeights| == 6 && nextBiases.Keys == biases.Keys
    ensures Flat(nextWeights, nextBiases, ids) == NextPoint(p, Flat(weights, biases, ids), step, Zeros(6))
    ensures nextObjective == Objective(p, Flat(nextWeights, nextBiases, ids))
    ensures stop <==> Stops(SmallChangeOrGain, p, Flat(weights, biases, ids), Flat(nextWeights, nextBiases, ids))
  {
    hide NextPoint, Objective, Gradient, Flat, MaxAbs, TermsOf, ValidPairs;
    var currentObjective, weightGradient, biasGradient :=
      ObjectiveAndGradient(weights, biases, ids, pairs, threadWeight, whereWeight, settings);
    nextWeights, nextBiases := StepFrom(weights, biases, weightGradient, biasGradient, ids, step, p);
    var after, _, _ := ObjectiveAndGradient(nextWeights, nextBiases, ids, pairs, threadWeight, whereWeight, settings);
    nextObjective := after;
    var change := LargestChange(weights, biases, nextWeights, nextBiases, ids);
    var improvement := currentObjective - nextObjective;
    stop := change <= 0.00000000001 || 0.0 <= improvement <= 0.0000000000001;
  }

  lemma SteppedPoint(p: Problem, weights: Vec, biases: map<int, real>, gw: Vec, gb: map<int, real>,
                     ids: seq<int>, step: real, target: Vec, nextWeights: Vec, nextBiases: map<int, real>)
    requires WellFormed(p) && p.dim == 6 + |ids| && |weights| == |gw| == |target| == |nextWeights| == 6
    requires forall i :: 0 <= i < |ids| ==> ids[i] in biases && ids[i] in gb && ids[i] in nextBiases
    requires Flat(gw, gb, ids) == Gradient(p, Flat(weights, biases, ids))
    requires forall i :: 0 <= i < 6 ==> target[i] == weights[i] - Mul(step, gw[i])
    requires nextWeights == Simplex.Project(target)
    requires forall i :: 0 <= i < |ids| ==> nextBiases[ids[i]] == biases[ids[i]] - Mul(step, gb[ids[i]])
    ensures Flat(nextWeights, nextBiases, ids) == NextPoint(p, Flat(weights, biases, ids), step, Zeros(6))
  {
    var z, g := Flat(weights, biases, ids), Flat(gw, gb, ids);
    hide Gradient;
    var moved := Moved(p, z, step);
    var shifted := Comb(1.0, Zeros(6), 1.0, moved[..6]);
    forall i | 0 <= i < |z|
      ensures moved[i] == if i < 6 then target[i] else nextBiases[ids[i - 6]]
    {
      UnitAndZero(z[i], 0.0);
      assert Mul(-step, g[i]) == -Mul(step, g[i]);
      assert z[i] == if i < 6 then weights[i] else biases[ids[i - 6]];
      assert g[i] == if i < 6 then gw[i] else gb[ids[i - 6]];
      hide Mul;
    }
    forall i | 0 <= i < 6
      ensures shifted[i] == target[i]
    {
      assert Zeros(6)[i] == 0.0;
    }
    assert shifted == target;
    hide Simplex.Project;
    var next := NextPoint(p, z, step, Zeros(6));
    forall i | 0 <= i < |z|
      ensures next[i] == Flat(nextWeights, nextBiases, ids)[i]
    {
      if i < 6 {
        assert Zeros(6)[i] == 0.0;
        assert next[i] == Sub(nextWeights, Zeros(6))[i];
      }
    }
    assert next == Flat(nextWeights, nextBiases, ids);
  }

  function InitialBiases(ids: seq<int>): map<int, real> {
    map m | m in ids :: 0.0
  }

  ghost function FitIds(examples: seq<LearningExample>): seq<int> {
    MemoryIds(PairsOf(examples))
  }

  /** The problem that fitting these examples solves. */
  ghost function FitProblem(examples: seq<LearningExample>, threadWeight: real, whereWeight: real,
                            settings: FitSettings): (p: Problem)
    requires ValidExamples(examples) && settings.biasL2 >= 0.0
    ensures WellFormed(p) && p.dim == 6 + |FitIds(examples)|
  {
    MemoryIdsCover(examples);
    ProblemIsWellFormed(PairsOf(examples), FitIds(examples), threadWeight, whereWeight, settings);
    ProblemOf(PairsOf(examples), FitIds(examples), threadWeight, whereWeight, settings)
  }

  /** The projected incumbent weights, with every bias zero. */
  ghost function FitStart(examples: seq<LearningExample>, incumbentWeights: Vec): (z: Vec)
    requires |incumbentWeights| == 6
    ensures |z| == 6 + |FitIds(examples)|
  {
    Flat(Simplex.Project(incumbentWeights), InitialBiases(FitIds(examples)), FitIds(examples))
  }

  /** The descent starts at the projected incumbent with all biases at zero. */
  lemma StartReads(examples: seq<LearningExample>, incumbentWeights: Vec)
    requires |incumbentWeights| == 6
    ensures FitStart(examples, incumbentWeights)[..6] == Simplex.Project(incumbentWeights)
    ensures forall i ::
      6 <= i < |FitStart(examples, incumbentWeights)| ==> FitStart(examples, incumbentWeights)[i] == 0.0
  {
    hide FitIds, Simplex.Project;
  }

  ghost predicate Shaped(fit: Fit, ids: seq<int>) {
    |fit.weights| == 6 && forall i :: 0 <= i < |ids| ==> ids[i] in fit.biases
  }

  /** A successful fit is the run of Descend from the projected incumbent, in the source's terms. */
  ghost predicate FitOutcome(examples: seq<LearningExample>, incumbentWeights: Vec,
                             threadWeight: real, whereWeight: real, settings: FitSettings, fit: Fit)
    requires ValidExamples(examples) && settings.biasL2 >= 0.0 && |incumbentWeights| == 6
  {
    var p := FitProblem(examples, threadWeight, whereWeight, settings);
    && Shaped(fit, FitIds(examples))
    && var last := Flat(fit.weights, fit.biases, FitIds(examples));
       && (last, fit.iterations)
          == Descend(p, FitStart(examples, incumbentWeights), StepOf(Lipschitz(p)), Zeros(6), SmallChangeOrGain,
             MAX_ITERATIONS)
       && fit.objective == Objective(p, last)
       && fit.biasOffsets == map m | m in fit.biases && Abs(fit.biases[m]) > 0.000000000001 :: fit.biases[m]
  }

  /** Where the loop stands: the rest of the run from here completes the run from the start. */
  ghost predicate Remaining(p: Problem, start: Vec, step: real, z: Vec, done: nat, stop: bool)
    requires WellFormed(p) && |start| == |z| == p.dim && 6 <= p.dim && done <= MAX_ITERATIONS
  {
    var whole := Descend(p, start, step, Zeros(6), SmallChangeOrGain, MAX_ITERATIONS);
    if stop then whole == (z, done)
    else
      var rest := Descend(p, z, step, Zeros(6), SmallChangeOrGain, MAX_ITERATIONS - done);
      whole == (rest.0, rest.1 + done)
  }

  lemma RemainingStep(p: Problem, start: Vec, step: real, z: Vec, next: Vec, done: nat, stop: bool)
    requires WellFormed(p) && |start| == |z| == |next| == p.dim && 6 <= p.dim && done < MAX_ITERATIONS
    requires Remaining(p, start, step, z, done, false)
    requires next == NextPoint(p, z, step, Zeros(6)) && (stop <==> Stops(SmallChangeOrGain, p, z, next))
    ensures Remaining(p, start, step, next, done + 1, stop)
  {
    hide NextPoint, Stops;
  }

  method FitPairwise(examples: seq<LearningExample>, incumbentWeights: Vec,
                     threadWeight: real, whereWeight: real, settings: FitSettings)
    returns (r: FitResult)
    requires ValidExamples(examples) && settings.biasL2 >= 0.0
    ensures r == FitFailed(SixWeightsRequired) <==> |incumbentWeights| != 6
    ensures r == FitFailed(NoTrainingPair) <==> |incumbentWeights| == 6 && PairsOf(examples) == []
    ensures r.Fitted? ==> |incumbentWeights| == 6
    ensures r.Fitted? ==> FitOutcome(examples, incumbentWeights, threadWeight, whereWeight, settings, r.fit)
  {
    if |incumbentWeights| != 6 {
      return FitFailed(SixWeightsRequired);
    }
    var weights := Simplex.ProjectSimplex(incumbentWeights);
    var pairs := Pairs(examples);
    if |pairs| == 0 {
      return FitFailed(NoTrainingPair);
    }
    var fit := FitPairs(pairs, weights, threadWeight, whereWeight, settings, examples, incumbentWeights);
    r := Fitted(fit);
  }

  /** The loop of at most ten thousand steps. */
  method FitPairs(pairs: seq<Pair>, initialWeights: Vec, threadWeight: real, whereWeight: real, settings: FitSettings,
                  ghost examples: seq<LearningExample>, ghost incumbentWeights: Vec)
    returns (fit: Fit)
    requires ValidExamples(examples) && settings.biasL2 >= 0.0 && pairs == PairsOf(examples)
    requires |incumbentWeights| == 6 && initialWeights == Simplex.Project(incumbentWeights)
    ensures FitOutcome(examples, incumbentWeights, threadWeight, whereWeight, settings, fit)
  {
    hide *;
    var ids := MemoryIds(pairs);
    var weights, biases := initialWeights, InitialBiases(ids);
    ghost var p := FitProblem(examples, threadWeight, whereWeight, settings);
    ghost var start := FitStart(examples, incumbentWeights);
    FitSetup(examples, incumbentWeights, threadWeight, whereWeight, settings);
    var lipschitz := LipschitzBound(pairs, ids, threadWeight, whereWeight, settings);
    var step := StepOf(lipschitz);
    var iterations, objective, stop := 0, 0.0, false;
    RunStarts(p, start, step);
    while iterations < MAX_ITERATIONS && !stop
      invariant 0 <= iterations <= MAX_ITERATIONS && (stop ==> iterations > 0)
      invariant ReadyPairs(pairs, ids, weights, biases)
      invariant |weights| == 6 && p.dim == 6 + |ids| && forall i :: 0 <= i < |ids| ==> ids[i] in biases
      invariant iterations > 0 ==> objective == Objective(p, Flat(weights, biases, ids))
      invariant Remaining(p, start, step, Flat(weights, biases, ids), iterations, stop)
    {
      var nextWeights, nextBiases, nextObjective, small :=
        Advance(weights, biases, ids, pairs, threadWeight, whereWeight, settings, step, p);
      StaysReady(pairs, ids, weights, biases, nextWeights, nextBiases);
      RemainingStep(p, start, step, Flat(weights, biases, ids), Flat(nextWeights, nextBiases, ids), iterations, small);
      weights, biases, objective, stop := nextWeights, nextBiases, nextObjective, small;
      iterations := iterations + 1;
    }
    RunEnds(p, start, step, Flat(weights, biases, ids), iterations, stop);
    var kept := map m | m in biases && Abs(biases[m]) > 0.000000000001 :: biases[m];
    fit := Fit(weights, biases, kept, iterations, objective);
    Conclude(examples, incumbentWeights, threadWeight, whereWeight, settings, fit);
  }

  lemma FitSetup(examples: seq<LearningExample>, incumbentWeights: Vec, threadWeight: real, whereWeight: real,
                 settings: FitSettings)
    requires ValidExamples(examples) && settings.biasL2 >= 0.0 && |incumbentWeights| == 6
    ensures var pairs, ids := PairsOf(examples), MemoryIds(PairsOf(examples));
      && ids == FitIds(examples)
      && ValidPairs(pairs, ids)
      && FitProblem(examples, threadWeight, whereWeight, settings)
           == ProblemOf(pairs, ids, threadWeight, whereWeight, settings)
      && FitStart(examples, incumbentWeights) == Flat(Simplex.Project(incumbentWeights), InitialBiases(ids), ids)
      && ReadyPairs(pairs, ids, Simplex.Project(incumbentWeights), InitialBiases(ids))
      && (forall i :: 0 <= i < |ids| ==> ids[i] in InitialBiases(ids))
      && MAX_ITERATIONS == 10000
  {
    MemoryIdsCover(examples);
    hide PairsOf, MemoryIds, TermsOf, WellFormed, Simplex.Project;
  }

  lemma RunStarts(p: Problem, start: Vec, step: real)
    requires WellFormed(p) && |start| == p.dim && 6 <= p.dim
    ensures Remaining(p, start, step, start, 0, false)
  {
  }

  lemma StaysReady(pairs: seq<Pair>, ids: seq<int>, w: Vec, b: map<int, real>, w': Vec, b': map<int, real>)
    requires ReadyPairs(pairs, ids, w, b) && |w'| == 6 && b'.Keys == b.Keys
    ensures ReadyPairs(pairs, ids, w', b')
    ensures |w| == 6 && forall i :: 0 <= i < |ids| ==> ids[i] in b && ids[i] in b'
  {
    forall i | 0 <= i < |ids|
      ensures ids[i] in b'
    {
      assert ids[i] in b.Keys;
    }
    forall m | m in b'
      ensures m in ids
    {
      assert m in b.Keys;
    }
  }

  lemma Conclude(examples: seq<LearningExample>, incumbentWeights: Vec, threadWeight: real, whereWeight: real,
                 settings: FitSettings, fit: Fit)
    requires ValidExamples(examples) && settings.biasL2 >= 0.0 && |incumbentWeights| == 6
    requires |fit.weights| == 6 && forall i :: 0 <= i < |FitIds(examples)| ==> FitIds(examples)[i] in fit.biases
    requires var p := FitProblem(examples, threadWeight, whereWeight, settings);
      var last := Flat(fit.weights, fit.biases, FitIds(examples));
      && (last, fit.iterations)
         == Descend(p, FitStart(examples, incumbentWeights), StepOf(Lipschitz(p)), Zeros(6), SmallChangeOrGain,
            MAX_ITERATIONS)
      && fit.objective == Objective(p, last)
    requires fit.biasOffsets == map m | m in fit.biases && Abs(fit.biases[m]) > 0.000000000001 :: fit.biases[m]
    ensures FitOutcome(examples, incumbentWeights, threadWeight, whereWeight, settings, fit)
  {
    hide FitProblem, FitStart, FitIds, Flat, Objective, Lipschitz, StepOf, Descend, WellFormed, Abs;
  }

  lemma RunEnds(p: Problem, start: Vec, step: real, z: Vec, done: nat, stop: bool)
    requires WellFormed(p) && |start| == |z| == p.dim && 6 <= p.dim && done <= MAX_ITERATIONS
    requires Remaining(p, start, step, z, done, stop) && (stop || done == MAX_ITERATIONS)
    ensures (z, done) == Descend(p, start, step, Zeros(6), SmallChangeOrGain, MAX_ITERATIONS)
  {
  }

  /**
   * What fitting achieves: weights on the simplex, never a worse objective than the incumbent's,
   * and after k steps no feasible weights and biases are better by more than
   * max(L, 1) |start - best|^2 / (2 k).
   */
  lemma FitGuarantee(examples: seq<LearningExample>, incumbentWeights: Vec,
                     threadWeight: real, whereWeight: real, settings: FitSettings, fit: Fit, best: Vec)
    requires ValidExamples(examples) && settings.biasL2 >= 0.0 && |incumbentWeights| == 6
    requires FitOutcome(examples, incumbentWeights, threadWeight, whereWeight, settings, fit)
    requires |best| == 6 + |FitIds(examples)| && Simplex.InSimplex(best[..6])
    ensures Simplex.InSimplex(fit.weights)
    ensures var p := FitProblem(examples, threadWeight, whereWeight, settings);
      var start := FitStart(examples, incumbentWeights);
      && fit.objective <= Objective(p, start)
      && 2.0 * Mul(fit.iterations as real, Mul(StepOf(Lipschitz(p)), fit.objective - Objective(p, best)))
         <= NormSq(Sub(start, best))
  {
    hide *;
    var p := FitProblem(examples, threadWeight, whereWeight, settings);
    var start := FitStart(examples, incumbentWeights);
    OutcomeUnfolded(examples, incumbentWeights, threadWeight, whereWeight, settings, fit);
    var last := Flat(fit.weights, fit.biases, FitIds(examples));
    Simplex.ProjectInSimplex(incumbentWeights);
    ZeroBase(start, start[..6]);
    ZeroBase(best, best[..6]);
    StepIsShort(Lipschitz(p));
    ZerosLength();
    DescendConverges(p, start, StepOf(Lipschitz(p)), Zeros(6), SmallChangeOrGain, MAX_ITERATIONS, best);
    ZeroBase(last, fit.weights);
    NormSqNonnegative(Sub(last, best));
    WithinUnfolded(p, start, last, StepOf(Lipschitz(p)), fit.iterations, best);
  }

  lemma ZerosLength()
    ensures |Zeros(6)| == 6 && MAX_ITERATIONS == 10000
  {
  }

  lemma WithinUnfolded(p: Problem, start: Vec, z: Vec, step: real, k: nat, u: Vec)
    requires WellFormed(p) && |start| == |z| == |u| == p.dim
    ensures Within(p, start, z, step, k, u) <==>
      2.0 * Mul(k as real, Mul(step, Objective(p, z) - Objective(p, u))) <= NormSq(Sub(start, u)) - NormSq(Sub(z, u))
  {
    hide Mul, NormSq, Sub, Objective, WellFormed;
  }

  lemma OutcomeUnfolded(examples: seq<LearningExample>, incumbentWeights: Vec, threadWeight: real, whereWeight: real,
                        settings: FitSettings, fit: Fit)
    requires ValidExamples(examples) && settings.biasL2 >= 0.0 && |incumbentWeights| == 6
    requires FitOutcome(examples, incumbentWeights, threadWeight, whereWeight, settings, fit)
    ensures |fit.weights| == 6 && forall i :: 0 <= i < |FitIds(examples)| ==> FitIds(examples)[i] in fit.biases
    ensures FitStart(examples, incumbentWeights)[..6] == Simplex.Project(incumbentWeights)
    ensures var p := FitProblem(examples, threadWeight, whereWeight, settings);
      var last := Flat(fit.weights, fit.biases, FitIds(examples));
      && last[..6] == fit.weights
      && (last, fit.iterations)
         == Descend(p, FitStart(examples, incumbentWeights), StepOf(Lipschitz(p)), Zeros(6), SmallChangeOrGain,
            MAX_ITERATIONS)
      && fit.objective == Objective(p, last)
  {
    hide FitProblem, FitIds, Objective, Lipschitz, StepOf, Descend, WellFormed, Abs, Simplex.Project;
  }

  lemma ZeroBase(z: Vec, head: Vec)
    requires |head| == 6 <= |z| && z[..6] == head
    ensures Feasible(z, Zeros(6)) <==> Simplex.InSimplex(head)
  {
    var shifted := Comb(1.0, Zeros(6), 1.0, z[..6]);
    forall i | 0 <= i < 6
      ensures shifted[i] == head[i]
    {
      assert Zeros(6)[i] == 0.0;
      assert z[..6][i] == head[i];
    }
    assert shifted == head;
  }
}
