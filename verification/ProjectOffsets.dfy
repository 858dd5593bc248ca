/**
 * Per-project weight offsets: a second projected descent, from zero, with the global weights as its base,
 * whose result is exactly what scoring serves.
 */
module ProjectOffsets {
  import opened Sorting
  import opened Ordering
  import opened Outcomes
  import opened Vectors
  import opened Descent
  import opened Scoring
  import opened Replay
  import opened Learner
  import opened Fitting
  import Simplex

  // Which examples.

  function OfProject(examples: seq<LearningExample>, project: string): (r: seq<LearningExample>)
    ensures forall i :: 0 <= i < |r| ==> r[i] in examples && r[i].projectKey == Some(project)
    ensures forall e :: e in examples && e.projectKey == Some(project) ==> e in r
  {
    if |examples| == 0 then []
    else
      var last := examples[|examples| - 1];
      var before := OfProject(examples[..|examples| - 1], project);
      if last.projectKey == Some(project) then before + [last] else before
  }

  function ProjectKeys(examples: seq<LearningExample>): (r: seq<string>)
    ensures forall p :: p in r <==> exists i :: 0 <= i < |examples| && examples[i].projectKey == Some(p)
  {
    if |examples| == 0 then []
    else
      var before := ProjectKeys(examples[..|examples| - 1]);
      match examples[|examples| - 1].projectKey
      case Some(p) => before + [p]
      case None => before
  }

  lemma OfProjectIsValid(examples: seq<LearningExample>, project: string)
    requires ValidExamples(examples)
    ensures ValidExamples(OfProject(examples, project))
  {
    var rows := OfProject(examples, project);
    forall i | 0 <= i < |rows|
      ensures ValidExample(rows[i])
    {
      assert rows[i] in examples;
    }
  }

  // The problem: how far a project's weights should lie from the global ones.

  datatype Globals = Globals(weights: Vec, biases: map<int, real>, threadWeight: real, whereWeight: real)

  function BiasOf(g: Globals, memory: int): real {
    if memory in g.biases then g.biases[memory] else 0.0
  }

  /** What the globals already put between the two examples. */
  function Baseline(pair: Pair, g: Globals): real
    requires |pair.positive.features| == |pair.negative.features| == |g.weights|
  {
    ExampleScore(pair.positive, g.weights, g.threadWeight, g.whereWeight)
      - ExampleScore(pair.negative, g.weights, g.threadWeight, g.whereWeight)
      + BiasOf(g, pair.positive.memory) - BiasOf(g, pair.negative.memory)
  }

  function OffsetTerm(pair: Pair, g: Globals): (t: Term)
    requires |pair.positive.features| == |pair.negative.features| == |g.weights|
    ensures |t.row| == |g.weights| && t.weight == pair.weight && t.bound == NormSq(t.row)
  {
    var delta := FeatureDelta(pair, g.threadWeight, g.whereWeight);
    Term(delta, Baseline(pair, g), pair.weight, NormSq(delta))
  }

  /**
   * The residual of a project's pair at some offsets is the margin less the difference that the shifted weights and
   * the global biases put between its examples.
   */
  lemma OffsetResidual(pair: Pair, g: Globals, margin: real, offsets: Vec)
    requires |pair.positive.features| == |pair.negative.features| == |g.weights| == |offsets|
    ensures var shifted := Comb(1.0, g.weights, 1.0, offsets);
      var p := pair.positive.memory; var n := pair.negative.memory;
      Residual(OffsetTerm(pair, g), margin, offsets) == margin
        - (ExampleScore(pair.positive, shifted, g.threadWeight, g.whereWeight)
           + (if p in g.biases then g.biases[p] else 0.0))
        + (ExampleScore(pair.negative, shifted, g.threadWeight, g.whereWeight)
           + (if n in g.biases then g.biases[n] else 0.0))
  {
    var a := Linearized(pair.positive, g.threadWeight, g.whereWeight).0;
    var b := Linearized(pair.negative, g.threadWeight, g.whereWeight).0;
    DotLinear(1.0, g.weights, 1.0, offsets, a);
    DotLinear(1.0, g.weights, 1.0, offsets, b);
    DotLinear(1.0, a, -1.0, b, offsets);
    DotSymmetric(a, offsets);
    DotSymmetric(b, offsets);
    Ones(Dot(g.weights, a), Dot(offsets, a), Dot(g.weights, b), Dot(offsets, b));
    hide Linearized, Dot, Comb, Mul;
  }

  lemma Ones(a: real, b: real, c: real, d: real)
    ensures Mul(1.0, a) == a && Mul(1.0, b) == b && Mul(1.0, c) == c && Mul(1.0, d) == d && Mul(-1.0, d) == -d
  {
  }

  ghost predicate SixWide(pairs: seq<Pair>) {
    forall i :: 0 <= i < |pairs| ==>
      |pairs[i].positive.features| == 6 && |pairs[i].negative.features| == 6 && pairs[i].weight >= 0.0
  }

  function OffsetTerms(pairs: seq<Pair>, g: Globals): (r: seq<Term>)
    requires SixWide(pairs) && |g.weights| == 6
    ensures |r| == |pairs| && forall i :: 0 <= i < |r| ==> r[i] == OffsetTerm(pairs[i], g)
  {
    seq(|pairs|, i requires 0 <= i < |pairs| => OffsetTerm(pairs[i], g))
  }

  /** The penalty pulls every offset to zero. */
  function OffsetProblem(terms: seq<Term>, settings: FitSettings): Problem {
    Problem(terms, settings.pairMargin, settings.biasL2, 0, 6)
  }

  lemma OffsetProblemIsWellFormed(pairs: seq<Pair>, g: Globals, settings: FitSettings)
    requires SixWide(pairs) && |g.weights| == 6 && settings.biasL2 >= 0.0
    ensures WellFormed(OffsetProblem(OffsetTerms(pairs, g), settings))
  {
    var terms := OffsetTerms(pairs, g);
    forall t | t in terms
      ensures Sound(t, 6)
    {
      var i :| 0 <= i < |terms| && terms[i] == t;
      hide NormSq, FeatureDelta, Baseline;
      assert t == OffsetTerm(pairs[i], g);
    }
  }

  lemma PairsAreSixWide(examples: seq<LearningExample>)
    requires ValidExamples(examples)
    ensures SixWide(PairsOf(examples))
  {
    var pairs := PairsOf(examples);
    MemoryIdsCover(examples);
    hide PairsOf, MemoryIds;
    forall i | 0 <= i < |pairs|
      ensures |pairs[i].positive.features| == 6 && |pairs[i].negative.features| == 6 && pairs[i].weight >= 0.0
    {
      assert ValidPair(pairs[i], MemoryIds(pairs));
    }
  }

  // One step.

  method OffsetGradient(offsets: Vec, deltas: seq<Term>, settings: FitSettings) returns (gradient: Vec)
    requires |offsets| == 6 && WellFormed(OffsetProblem(deltas, settings))
    ensures gradient == Gradient(OffsetProblem(deltas, settings), offsets)
  {
    ghost var p := OffsetProblem(deltas, settings);
    ghost var l := 2.0 * settings.biasL2;
    Unfolded(p, offsets);
    SoundTerms(p);
    PenaltyStart(offsets, l);
    hide *;
    gradient := seq(6, i requires 0 <= i < 6 => Mul(2.0 * settings.biasL2, offsets[i]));
    for i := 0 to |deltas|
      invariant |gradient| == 6
      invariant gradient == Comb(1.0, LossGradient(p.terms[..i], p.margin, offsets), l, Tail(offsets, 0))
    {
      LossStep(p.terms, i, p.margin, offsets);
      AddTerm(p.terms[i], Residual(p.terms[i], p.margin, offsets), LossGradient(p.terms[..i], p.margin, offsets), l,
              Tail(offsets, 0), gradient);
      gradient := SubtractPair(gradient, deltas[i], offsets, settings);
    }
  }

  lemma SoundTerms(p: Problem)
    requires WellFormed(p)
    ensures AllSound(p.terms, p.dim)
    ensures forall i :: 0 <= i < |p.terms| ==> |p.terms[i].row| == p.dim
  {
  }

  lemma PenaltyStart(offsets: Vec, l: real)
    requires |offsets| == 6
    ensures seq(6, i requires 0 <= i < 6 => Mul(l, offsets[i])) == Comb(1.0, Zeros(6), l, Tail(offsets, 0))
  {
    var left, right := seq(6, i requires 0 <= i < 6 => Mul(l, offsets[i])), Comb(1.0, Zeros(6), l, Tail(offsets, 0));
    forall i | 0 <= i < 6
      ensures left[i] == right[i]
    {
      assert Tail(offsets, 0)[i] == offsets[i] && Zeros(6)[i] == 0.0;
    }
    assert left == right;
  }

  /** One pair's share of the gradient; the hinge is zero beyond the margin. */
  method SubtractPair(gradient: Vec, t: Term, offsets: Vec, settings: FitSettings) returns (r: Vec)
    requires |gradient| == |t.row| == |offsets|
    ensures r == Comb(1.0, gradient, Factor(t, Residual(t, settings.pairMargin, offsets)), t.row)
  {
    var margin := settings.pairMargin - t.offset - DotOf(offsets, t.row);
    var hinge := if margin > 0.0 then margin else 0.0;
    r := AddScaled(gradient, Mul(-2.0 * t.weight, hinge), t.row);
  }

  method OffsetStep(offsets: Vec, deltas: seq<Term>, weights: Vec, step: real, settings: FitSettings)
    returns (updated: Vec, change: real)
    requires |offsets| == |weights| == 6 && WellFormed(OffsetProblem(deltas, settings))
    ensures updated == NextPoint(OffsetProblem(deltas, settings), offsets, step, weights)
    ensures change == MaxAbs(Sub(offsets, updated))
  {
    ghost var p := OffsetProblem(deltas, settings);
    hide WellFormed, Gradient, NextPoint, Simplex.Project, Mul;
    var gradient := OffsetGradient(offsets, deltas, settings);
    var target := seq(6, i requires 0 <= i < 6 => weights[i] + offsets[i] - Mul(step, gradient[i]));
    var effective := Simplex.ProjectSimplex(target);
    updated := seq(6, i requires 0 <= i < 6 => effective[i] - weights[i]);
    OffsetStepped(p, offsets, weights, step, gradient, target, effective, updated);
    change := Largest(offsets, updated);
  }

  method Largest(offsets: Vec, updated: Vec) returns (change: real)
    requires |offsets| == |updated|
    ensures change == MaxAbs(Sub(offsets, updated))
  {
    var moves := seq(|offsets|, i requires 0 <= i < |offsets| => offsets[i] - updated[i]);
    assert moves == Sub(offsets, updated);
    change := MaxAbs(moves);
  }

  lemma OffsetStepped(p: Problem, offsets: Vec, weights: Vec, step: real, gradient: Vec, target: Vec, effective: Vec,
                      updated: Vec)
    requires WellFormed(p) && p.dim == 6
      && |offsets| == |weights| == |gradient| == |target| == |effective| == |updated| == 6
    requires gradient == Gradient(p, offsets) && effective == Simplex.Project(target)
    requires forall i :: 0 <= i < 6 ==> target[i] == weights[i] + offsets[i] - Mul(step, gradient[i])
    requires forall i :: 0 <= i < 6 ==> updated[i] == effective[i] - weights[i]
    ensures updated == NextPoint(p, offsets, step, weights)
  {
    hide Gradient, Simplex.Project;
    var moved := Moved(p, offsets, step);
    var shifted := Comb(1.0, weights, 1.0, moved[..6]);
    forall i | 0 <= i < 6
      ensures shifted[i] == target[i]
    {
      StepEntry(weights[i], offsets[i], step, gradient[i]);
    }
    assert shifted == target;
    assert updated == Sub(effective, weights);
    assert moved[6..] == [];
    assert Sub(effective, weights) + [] == Sub(effective, weights);
  }

  lemma StepEntry(w: real, o: real, s: real, g: real)
    ensures Mul(1.0, w) + Mul(1.0, Mul(1.0, o) + Mul(-s, g)) == w + o - Mul(s, g)
  {
    assert Mul(-s, g) == -Mul(s, g);
  }

  // The loop.

  /** Where the loop stands: the rest of the run from here completes the run from zero. */
  ghost predicate Standing(p: Problem, step: real, weights: Vec, z: Vec, left: nat, stop: bool)
    requires WellFormed(p) && p.dim == |z| == |weights| == 6
  {
    var whole := Descend(p, Zeros(6), step, weights, SmallChange, MAX_ITERATIONS);
    whole.0 == if stop then z else Descend(p, z, step, weights, SmallChange, left).0
  }

  lemma StandingStep(p: Problem, step: real, weights: Vec, z: Vec, next: Vec, left: nat, stop: bool)
    requires WellFormed(p) && p.dim == |z| == |next| == |weights| == 6 && left > 0
    requires Standing(p, step, weights, z, left, false) && next == NextPoint(p, z, step, weights)
    requires stop <==> Stops(SmallChange, p, z, next)
    ensures Standing(p, step, weights, next, left - 1, stop)
  {
    hide NextPoint, Stops;
  }

  /** The offsets that the run from zero ends at. */
  ghost function FittedOffsets(p: Problem, weights: Vec): (r: Vec)
    requires WellFormed(p) && p.dim == |weights| == 6
    ensures |r| == 6
  {
    Descend(p, Zeros(6), StepOf(Lipschitz(p)), weights, SmallChange, MAX_ITERATIONS).0
  }

  method CurvatureBound(deltas: seq<Term>, settings: FitSettings) returns (lipschitz: real)
    requires forall i :: 0 <= i < |deltas| ==> deltas[i].bound == NormSq(deltas[i].row)
    ensures lipschitz == Lipschitz(OffsetProblem(deltas, settings))
  {
    lipschitz := 2.0 * settings.biasL2;
    for i := 0 to |deltas|
      invariant lipschitz == 2.0 * settings.biasL2 + 2.0 * HalfCurvature(deltas[..i])
    {
      hide NormSq;
      assert deltas[..i + 1][..i] == deltas[..i];
      lipschitz := lipschitz + 2.0 * Mul(deltas[i].weight, NormSq(deltas[i].row));
    }
    assert deltas[..|deltas|] == deltas;
  }

  method FitOffsets(pairs: seq<Pair>, g: Globals, settings: FitSettings) returns (offsets: Vec)
    requires SixWide(pairs) && |g.weights| == 6 && settings.biasL2 >= 0.0
    requires WellFormed(OffsetProblem(OffsetTerms(pairs, g), settings))
    ensures offsets == FittedOffsets(OffsetProblem(OffsetTerms(pairs, g), settings), g.weights)
  {
    var deltas := OffsetTerms(pairs, g);
    ghost var p := OffsetProblem(deltas, settings);
    BoundsAreNorms(pairs, g);
    hide *;
    var lipschitz := CurvatureBound(deltas, settings);
    var step := StepOf(lipschitz);
    offsets := RunOffsets(deltas, g.weights, step, settings);
    FittedUnfolded(p, g.weights);
  }

  lemma BoundsAreNorms(pairs: seq<Pair>, g: Globals)
    requires SixWide(pairs) && |g.weights| == 6
    ensures forall i :: 0 <= i < |pairs| ==> OffsetTerms(pairs, g)[i].bound == NormSq(OffsetTerms(pairs, g)[i].row)
  {
  }

  lemma FittedUnfolded(p: Problem, weights: Vec)
    requires WellFormed(p) && p.dim == |weights| == 6
    ensures FittedOffsets(p, weights)
      == Descend(p, Zeros(6), StepOf(Lipschitz(p)), weights, SmallChange, MAX_ITERATIONS).0
  {
  }

  /** At most ten thousand steps, until one moves less than the tolerance. */
  method RunOffsets(deltas: seq<Term>, weights: Vec, step: real, settings: FitSettings) returns (offsets: Vec)
    requires WellFormed(OffsetProblem(deltas, settings)) && |weights| == 6
    ensures offsets == Descend(OffsetProblem(deltas, settings), Zeros(6), step, weights, SmallChange, MAX_ITERATIONS).0
  {
    ghost var p := OffsetProblem(deltas, settings);
    hide WellFormed, NextPoint, MaxAbs, Objective, Descend;
    offsets := Zeros(6);
    var left, stop := MAX_ITERATIONS, false;
    while left > 0 && !stop
      invariant 0 <= left <= MAX_ITERATIONS && |offsets| == 6
      invariant Standing(p, step, weights, offsets, left, stop)
    {
      hide Standing;
      var updated, change := OffsetStep(offsets, deltas, weights, step, settings);
      StandingStep(p, step, weights, offsets, updated, left, change < 0.00000000001);
      offsets, stop := updated, change < 0.00000000001;
      left := left - 1;
    }
    NoneLeft(p, step, weights, offsets);
  }

  lemma NoneLeft(p: Problem, step: real, weights: Vec, z: Vec)
    requires WellFormed(p) && p.dim == |z| == |weights| == 6
    ensures Descend(p, z, step, weights, SmallChange, 0).0 == z
  {
  }

  ghost function ProjectProblem(examples: seq<LearningExample>, project: string, g: Globals, settings: FitSettings)
    : (p: Problem)
    requires ValidExamples(examples) && |g.weights| == 6 && settings.biasL2 >= 0.0
    ensures WellFormed(p) && p.dim == 6
  {
    OfProjectIsValid(examples, project);
    PairsAreSixWide(OfProject(examples, project));
    var pairs := PairsOf(OfProject(examples, project));
    OffsetProblemIsWellFormed(pairs, g, settings);
    OffsetProblem(OffsetTerms(pairs, g), settings)
  }

  /** Offsets for exactly the projects that have a training pair, each the end of its own run from zero. */
  method FitProjectOffsets(examples: seq<LearningExample>, g: Globals, settings: FitSettings)
    returns (result: map<string, Vec>)
    requires ValidExamples(examples) && |g.weights| == 6 && settings.biasL2 >= 0.0
    ensures forall p :: p in result <==> PairsOf(OfProject(examples, p)) != []
    ensures FittedAll(result, examples, g, settings)
  {
    var keys := SortBy(StrLess, Dedup(ProjectKeys(examples)));
    KeysCover(examples);
    hide *;
    result := map[];
    for i := 0 to |keys|
      invariant forall p :: p in result <==> p in keys[..i] && PairsOf(OfProject(examples, p)) != []
      invariant forall p ::
        p in result ==> result[p] == FittedOffsets(ProjectProblem(examples, p, g, settings), g.weights)
    {
      assert keys[..i + 1] == keys[..i] + [keys[i]];
      var project := keys[i];
      var pairs := Pairs(OfProject(examples, project));
      if |pairs| > 0 {
        ProjectUnfolded(examples, project, g, settings);
        var offsets := FitOffsets(pairs, g, settings);
        result := result[project := offsets];
      }
    }
    assert keys[..|keys|] == keys;
    AllFitted(result, examples, g, settings);
  }

  lemma AllFitted(result: map<string, Vec>, examples: seq<LearningExample>, g: Globals, settings: FitSettings)
    requires ValidExamples(examples) && |g.weights| == 6 && settings.biasL2 >= 0.0
    requires forall p :: p in result ==> result[p] == FittedOffsets(ProjectProblem(examples, p, g, settings), g.weights)
    ensures FittedAll(result, examples, g, settings)
  {
    hide FittedOffsets, ProjectProblem;
  }

  /** The offsets that fitting returns: for each project, the end of its own run. */
  ghost predicate FittedAll(offsets: map<string, Vec>, examples: seq<LearningExample>, g: Globals,
                            settings: FitSettings)
    requires ValidExamples(examples) && |g.weights| == 6 && settings.biasL2 >= 0.0
  {
    forall p :: p in offsets ==> offsets[p] == FittedOffsets(ProjectProblem(examples, p, g, settings), g.weights)
  }

  lemma ProjectUnfolded(examples: seq<LearningExample>, project: string, g: Globals, settings: FitSettings)
    requires ValidExamples(examples) && |g.weights| == 6 && settings.biasL2 >= 0.0
    ensures SixWide(PairsOf(OfProject(examples, project)))
    ensures ProjectProblem(examples, project, g, settings)
      == OffsetProblem(OffsetTerms(PairsOf(OfProject(examples, project)), g), settings)
  {
    OfProjectIsValid(examples, project);
    PairsAreSixWide(OfProject(examples, project));
    hide PairsOf, OffsetTerms;
  }

  /** A project with a pair is among the keys. */
  lemma KeysCover(examples: seq<LearningExample>)
    ensures var keys := SortBy(StrLess, Dedup(ProjectKeys(examples)));
      forall p :: PairsOf(OfProject(examples, p)) != [] ==> p in keys
  {
    var all := ProjectKeys(examples);
    DedupMembers(all);
    forall p | PairsOf(OfProject(examples, p)) != []
      ensures p in SortBy(StrLess, Dedup(all))
    {
      SortSameMembers(StrLess, Dedup(all), p);
      PairNeedsRow(examples, p);
    }
  }

  lemma PairNeedsRow(examples: seq<LearningExample>, project: string)
    requires PairsOf(OfProject(examples, project)) != []
    ensures project in ProjectKeys(examples)
  {
    var rows := OfProject(examples, project);
    var pair := PairsOf(rows)[0];
    assert pair in PairsOf(rows);
    PairsAreTrainingPairs(rows, pair);
    hide PairsOf;
    assert |rows| > 0;
    assert rows[0] in examples;
    var i :| 0 <= i < |examples| && examples[i] == rows[0];
  }

  // What the offsets are worth.

  /**
   * From global weights on the simplex, the offsets keep the project's weights on the simplex, fit the project's
   * pairs at least as well as no offsets, and are within |best|^2 / (2 k step) of any offsets that do so, after
   * the k steps made.
   */
  lemma OffsetsGuarantee(p: Problem, weights: Vec, best: Vec)
    requires WellFormed(p) && p.dim == |weights| == |best| == 6
    requires Simplex.InSimplex(weights) && Simplex.InSimplex(Comb(1.0, weights, 1.0, best))
    ensures var fitted := FittedOffsets(p, weights);
      && Simplex.InSimplex(Comb(1.0, weights, 1.0, fitted))
      && Objective(p, fitted) <= Objective(p, Zeros(6))
    ensures var step := StepOf(Lipschitz(p));
      var (fitted, k) := Descend(p, Zeros(6), step, weights, SmallChange, MAX_ITERATIONS);
      2.0 * Mul(k as real, Mul(step, Objective(p, fitted) - Objective(p, best))) <= NormSq(Sub(Zeros(6), best))
  {
    hide Lipschitz, Objective, NextPoint, Simplex.InSimplex, NormSq, Comb, Sub, Mul;
    var step := StepOf(Lipschitz(p));
    StepIsShort(Lipschitz(p));
    ZeroOffsets(weights);
    assert best[..6] == best;
    assert Zeros(6)[..6] == Zeros(6);
    DescendConverges(p, Zeros(6), step, weights, SmallChange, MAX_ITERATIONS, best);
    var (fitted, k) := Descend(p, Zeros(6), step, weights, SmallChange, MAX_ITERATIONS);
    assert fitted[..6] == fitted;
    NormSqNonnegative(Sub(fitted, best));
    WithinUnfolded(p, Zeros(6), fitted, step, k, best);
  }

  lemma ZeroOffsets(weights: Vec)
    requires |weights| == 6
    ensures Comb(1.0, weights, 1.0, Zeros(6)) == weights
  {
    var sum := Comb(1.0, weights, 1.0, Zeros(6));
    forall i | 0 <= i < 6
      ensures sum[i] == weights[i]
    {
      assert Zeros(6)[i] == 0.0;
    }
  }

  lemma FittedIsFeasible(p: Problem, weights: Vec)
    requires WellFormed(p) && p.dim == |weights| == 6 && Simplex.InSimplex(weights)
    ensures Simplex.InSimplex(Comb(1.0, weights, 1.0, FittedOffsets(p, weights)))
  {
    ZeroOffsets(weights);
    hide *;
    OffsetsGuarantee(p, weights, Zeros(6));
  }

  lemma FeasibleOffsetsServe(c: Config, project: string)
    requires ValidConfig(c) && project in c.projectOffsets && |c.projectOffsets[project]| == 6
    requires Simplex.InSimplex(Comb(1.0, c.weights, 1.0, c.projectOffsets[project]))
    ensures WeightsForProject(c, Some(project)) == Comb(1.0, c.weights, 1.0, c.projectOffsets[project])
    ensures EffectiveWeights(c, Some(project)) == Comb(1.0, c.weights, 1.0, c.projectOffsets[project])
  {
    hide Comb, Simplex.Project, ValidConfig, Sum;
  }

  /**
   * A configuration with all the fitted offsets is valid. Serving and replay both use exactly the fitted weights
   * for every fitted project, and the global ones for every other.
   */
  lemma FittedOffsetsAreServed(c: Config, offsets: map<string, Vec>, examples: seq<LearningExample>, g: Globals,
                               settings: FitSettings, project: Option<string>)
    requires ValidExamples(examples) && settings.biasL2 >= 0.0
    requires |c.weights| == 6 && c.weights == g.weights && Simplex.InSimplex(c.weights)
    requires FittedAll(offsets, examples, g, settings)
    ensures var served := c.(projectOffsets := offsets);
      && ValidConfig(served)
      && WeightsForProject(served, project) == EffectiveWeights(served, project)
      && WeightsForProject(served, project) ==
           if project.Some? && project.value in offsets
           then Comb(1.0, c.weights, 1.0, offsets[project.value]) else c.weights
  {
    var served := c.(projectOffsets := offsets);
    FittedAllFeasible(offsets, examples, g, settings);
    FeasibleIsValid(served);
    hide AllFeasible, FittedAll, ValidConfig, Simplex.InSimplex, Comb;
    if project.Some? && project.value in offsets {
      FeasibleProject(offsets, c.weights, project.value);
      FeasibleOffsetsServe(served, project.value);
    } else {
      GlobalsServe(served, project);
    }
  }

  ghost predicate AllFeasible(offsets: map<string, Vec>, weights: Vec) {
    |weights| == 6 && forall p :: p in offsets ==>
      (|offsets[p]| == 6 && Simplex.InSimplex(Comb(1.0, weights, 1.0, offsets[p])))
  }

  lemma FittedAllFeasible(offsets: map<string, Vec>, examples: seq<LearningExample>, g: Globals, settings: FitSettings)
    requires ValidExamples(examples) && settings.biasL2 >= 0.0 && |g.weights| == 6 && Simplex.InSimplex(g.weights)
    requires FittedAll(offsets, examples, g, settings)
    ensures AllFeasible(offsets, g.weights)
  {
    hide ValidExamples, ProjectProblem, FittedOffsets, Simplex.InSimplex, Comb;
    forall p | p in offsets
      ensures |offsets[p]| == 6 && Simplex.InSimplex(Comb(1.0, g.weights, 1.0, offsets[p]))
    {
      FittedIsFeasible(ProjectProblem(examples, p, g, settings), g.weights);
    }
  }

  lemma FeasibleIsValid(c: Config)
    requires AllFeasible(c.projectOffsets, c.weights)
    ensures ValidConfig(c)
  {
    hide Comb, Sum;
  }

  lemma FeasibleProject(offsets: map<string, Vec>, weights: Vec, project: string)
    requires AllFeasible(offsets, weights) && project in offsets
    ensures |weights| == |offsets[project]| == 6 && Simplex.InSimplex(Comb(1.0, weights, 1.0, offsets[project]))
  {
  }

  lemma GlobalsServe(c: Config, project: Option<string>)
    requires ValidConfig(c) && Simplex.InSimplex(c.weights)
    requires project.Some? ==> project.value !in c.projectOffsets
    ensures WeightsForProject(c, project) == EffectiveWeights(c, project) == c.weights
  {
    hide ValidConfig, Comb, Simplex.Project;
  }
}
