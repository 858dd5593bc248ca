/** Learning examples: frozen decisions that must replay to exactly the score that was served. */
module Replay {
  import opened Outcomes
  import opened Vectors
  import opened Scoring
  import Simplex

  datatype LearningExample = LearningExample(
    eventUid: string,
    injection: int,
    memory: int,
    features: Vec,
    baselineBias: real,
    targetInjected: bool,
    actorWeight: real,
    locationFeature: Option<real>,
    locationWeight: real,
    threadFeature: Option<real>,
    whereFeature: Option<real>,
    projectKey: Option<string>)

  /** The served event: what was recorded next to its score. */
  datatype EventRow = EventRow(
    eventUid: string,
    injection: int,
    memory: int,
    features: Features,
    score: real,
    projectKey: Option<string>)

  function ProjectRow(row: EventRow, source: Config, target: bool, actorWeight: real): (e: LearningExample)
    requires ValidConfig(source) && |row.features.six| == 6
    ensures |e.features| == 6
  {
    var pre := Dot(WeightsForProject(source, row.projectKey), row.features.six);
    var localized := Localities(pre, row.features, source.params);
    var layered := AxesApplied(localized, row.features, source.axes);
    LearningExample(
      row.eventUid, row.injection, row.memory, row.features.six,
      row.score - layered - BiasOffset(source, row.memory),
      target, actorWeight,
      row.features.loc, source.params.locationWeight, row.features.thread, row.features.where,
      row.projectKey)
  }

  function ExampleFeatures(e: LearningExample): Features {
    Features(e.features, e.locationFeature, e.threadFeature, e.whereFeature)
  }

  function Scaled(s: real, v: Vec): (r: Vec)
    ensures |r| == |v|
  {
    seq(|v|, i requires 0 <= i < |v| => Mul(s, v[i]))
  }

  /** One score as linear weights plus a constant, accumulated layer by layer. */
  function Linearized(e: LearningExample, threadWeight: real, whereWeight: real): (r: (Vec, real))
    ensures |r.0| == |e.features|
  {
    var scale := 1.0;
    var constant := e.baselineBias;
    var (scale, constant) :=
      if e.locationFeature.Some?
      then (Mul(scale, 1.0 - e.locationWeight), constant + Mul(e.locationWeight, e.locationFeature.value))
      else (scale, constant);
    var (scale, constant) :=
      if e.threadFeature.Some?
      then (Mul(scale, 1.0 - threadWeight),
            e.baselineBias + Mul(1.0 - threadWeight, constant - e.baselineBias)
              + Mul(threadWeight, e.threadFeature.value))
      else (scale, constant);
    var (scale, constant) :=
      if e.whereFeature.Some?
      then (Mul(scale, 1.0 - whereWeight),
            e.baselineBias + Mul(1.0 - whereWeight, constant - e.baselineBias) + Mul(whereWeight, e.whereFeature.value))
      else (scale, constant);
    (Scaled(scale, e.features), constant)
  }

  function ExampleScore(e: LearningExample, weights: Vec, threadWeight: real, whereWeight: real): real
    requires |weights| == |e.features|
  {
    var (features, constant) := Linearized(e, threadWeight, whereWeight);
    Dot(weights, features) + constant
  }

  lemma DotScaled(w: Vec, s: real, v: Vec)
    requires |w| == |v|
    ensures Dot(w, Scaled(s, v)) == Mul(s, Dot(w, v))
  {
    DotLinearRight(w, s, v, 0.0, v);
    assert Scaled(s, v) == Comb(s, v, 0.0, v);
  }

  /** The linear form is the nested blend: same layers, same order, bias outside all of them. */
  lemma LinearizedIsNestedBlend(e: LearningExample, weights: Vec, threadWeight: real, whereWeight: real)
    requires |weights| == |e.features|
    ensures ExampleScore(e, weights, threadWeight, whereWeight)
         == Localities(Dot(weights, e.features), ExampleFeatures(e),
            Params(e.locationWeight, threadWeight, whereWeight))
          + e.baselineBias
  {
    var d := Dot(weights, e.features);
    assert Mul(1.0, d) == d && Mul(1.0 - e.locationWeight, 0.0) == 0.0;
    var s1, c1 := LayerLinear(e.locationWeight, e.locationFeature, d, 1.0, 0.0);
    var s2, c2 := LayerLinear(threadWeight, e.threadFeature, d, s1, c1);
    var s3, c3 := LayerLinear(whereWeight, e.whereFeature, d, s2, c2);
    DotScaled(weights, s3, e.features);
    hide Dot, Mul;
    var (features, constant) := Linearized(e, threadWeight, whereWeight);
    assert constant == c3 + e.baselineBias;
    assert features == Scaled(s3, e.features);
  }

  /** A layer keeps the form scale * d + constant. */
  lemma LayerLinear(weight: real, value: Option<real>, d: real, s: real, c: real) returns (s': real, c': real)
    ensures s' == if value.Some? then Mul(s, 1.0 - weight) else s
    ensures c' == if value.Some? then Mul(1.0 - weight, c) + Mul(weight, value.value) else c
    ensures Layer(weight, Mul(s, d) + c, value) == Mul(s', d) + c'
  {
    s' := if value.Some? then Mul(s, 1.0 - weight) else s;
    c' := if value.Some? then Mul(1.0 - weight, c) + Mul(weight, value.value) else c;
  }

  // Replaying one example under a scorer.

  function EffectiveWeights(c: Config, project: Option<string>): (w: Vec)
    requires ValidConfig(c)
    ensures |w| == 6
  {
    var offsets := Offsets(c, project);
    var effective := if |offsets| == 0 then c.weights else Comb(1.0, c.weights, 1.0, offsets);
    if Nonnegative(effective) then effective else Simplex.Project(effective)
  }

  /** The score a challenger with this configuration predicts for an example that is not pinned. */
  function PredictedScore(e: LearningExample, c: Config): real
    requires ValidConfig(c) && |e.features| == 6
  {
    var base := ExampleScore(e, EffectiveWeights(c, e.projectKey), c.params.threadWeight, c.params.whereWeight);
    AxesApplied(base - e.baselineBias, ExampleFeatures(e), c.axes) + e.baselineBias + BiasOffset(c, e.memory)
  }

  /** What a recorded score holds beyond the layered score and the memory's learned bias becomes the baseline. */
  lemma ProjectedReads(row: EventRow, c: Config, target: bool, actorWeight: real)
    requires ValidConfig(c) && |row.features.six| == 6
    ensures var e := ProjectRow(row, c, target, actorWeight);
      && e.baselineBias
         + ScoreFeatures(row.features, WeightsForProject(c, row.projectKey), c.params, c.axes)
         + (if row.memory in c.biasOffsets then c.biasOffsets[row.memory] else 0.0) == row.score
      && Features(e.features, e.locationFeature, e.threadFeature, e.whereFeature) == row.features
      && e.locationWeight == c.params.locationWeight && e.projectKey == row.projectKey
      && e.injection == row.injection && e.memory == row.memory && e.eventUid == row.eventUid
      && e.targetInjected == target && e.actorWeight == actorWeight
  {
  }

  /** A predicted score is the layered score under the challenger, plus the baseline, plus its learned bias. */
  lemma PredictedReads(e: LearningExample, c: Config)
    requires ValidConfig(c) && |e.features| == 6
    ensures PredictedScore(e, c)
         == ScoreFeatures(Features(e.features, e.locationFeature, e.threadFeature, e.whereFeature),
                          EffectiveWeights(c, e.projectKey),
                          Params(e.locationWeight, c.params.threadWeight, c.params.whereWeight), c.axes)
            + e.baselineBias + (if e.memory in c.biasOffsets then c.biasOffsets[e.memory] else 0.0)
  {
    LinearizedIsNestedBlend(e, EffectiveWeights(c, e.projectKey), c.params.threadWeight, c.params.whereWeight);
    hide ExampleScore, EffectiveWeights, Localities, AxesApplied, Dot;
  }

  /** Whatever the recorded score was, replay adds exactly the change of the layered score. */
  lemma ReplayDifference(row: EventRow, c: Config, target: bool, actorWeight: real)
    requires ValidConfig(c) && |row.features.six| == 6
    ensures PredictedScore(ProjectRow(row, c, target, actorWeight), c)
         == row.score
          + ScoreFeatures(row.features, EffectiveWeights(c, row.projectKey), c.params, c.axes)
          - ScoreFeatures(row.features, WeightsForProject(c, row.projectKey), c.params, c.axes)
  {
    var e := ProjectRow(row, c, target, actorWeight);
    LinearizedIsNestedBlend(e, EffectiveWeights(c, row.projectKey), c.params.threadWeight, c.params.whereWeight);
    assert ExampleFeatures(e) == row.features;
  }

  ghost predicate Replays(row: EventRow, c: Config)
    requires ValidConfig(c) && |row.features.six| == 6
  {
    PredictedScore(ProjectRow(row, c, true, 1.0), c) == row.score
  }

  /**
   * A configuration replays every one of a project's events exactly if and only if the
   * project has offsets or no global weight is negative: only replay clips bare global weights.
   */
  lemma RoundTripExactlyWhen(c: Config, project: Option<string>)
    requires ValidConfig(c) && (forall i :: 0 <= i < |c.axes| ==> 0.0 <= c.axes[i].weight < 1.0)
    ensures (forall row: EventRow :: |row.features.six| == 6 && row.projectKey == project ==> Replays(row, c))
       <==> (|Offsets(c, project)| > 0 || Nonnegative(c.weights))
  {
    if |Offsets(c, project)| > 0 || Nonnegative(c.weights) {
      forall row: EventRow | |row.features.six| == 6 && row.projectKey == project
        ensures Replays(row, c)
      {
        ReplayDifference(row, c, true, 1.0);
      }
    } else {
      var k :| 0 <= k < 6 && c.weights[k] < 0.0;
      var row := UnitRow(c, project, k);
      assert !Replays(row, c);
    }
  }

  /** A concrete event that a negative bare weight fails to replay. */
  lemma UnitRow(c: Config, project: Option<string>, k: nat) returns (row: EventRow)
    requires ValidConfig(c) && (forall i :: 0 <= i < |c.axes| ==> 0.0 <= c.axes[i].weight < 1.0)
    requires |Offsets(c, project)| == 0 && k < 6 && c.weights[k] < 0.0
    ensures |row.features.six| == 6 && row.projectKey == project && !Replays(row, c)
  {
    var names := [0, 1, 2, 3, 4, 5];
    var unit := Indicator(names, names[k]);
    var f := Features(unit, None, None, None);
    row := EventRow("", 0, 0, f, 0.0, project);
    var w, p := c.weights, Simplex.Project(c.weights);
    ReplayDifference(row, c, true, 1.0);
    IndicatorPicks(names, k, w);
    IndicatorPicks(names, k, p);
    DotSymmetric(unit, w);
    DotSymmetric(unit, p);
    Simplex.ProjectInSimplex(w);
    AxesKeepOrder(w[k], p[k], f, c.axes);
  }

  /** Axis layers with weights below one are strictly increasing in the score below them. */
  lemma {:induction false} AxesKeepOrder(x: real, y: real, f: Features, axes: seq<Axis>)
    requires |f.six| == 6 && x < y
    requires forall i :: 0 <= i < |axes| ==> 0.0 <= axes[i].weight < 1.0
    ensures AxesApplied(x, f, axes) < AxesApplied(y, f, axes)
  {
    if |axes| > 0 {
      var axis := axes[|axes| - 1];
      AxesKeepOrder(x, y, f, axes[..|axes| - 1]);
      LayerIncreasing(axis.weight, AxesApplied(x, f, axes[..|axes| - 1]), AxesApplied(y, f, axes[..|axes| - 1]),
        AxisValue(axis, f));
    }
  }

  lemma LayerIncreasing(weight: real, x: real, y: real, value: Option<real>)
    requires weight < 1.0 && x < y
    ensures Layer(weight, x, value) < Layer(weight, y, value)
  {
    MulPositive(1.0 - weight, y - x);
    assert Mul(1.0 - weight, y - x) == Mul(1.0 - weight, y) - Mul(1.0 - weight, x);
  }

  // The slope that fitting the thread weight uses.

  function PreThread(e: LearningExample, weights: Vec): real
    requires |weights| == |e.features|
  {
    Layer(e.locationWeight, Dot(weights, e.features), e.locationFeature)
  }

  function ThreadDerivative(e: LearningExample, weights: Vec, whereWeight: real): real
    requires |weights| == |e.features|
  {
    if e.threadFeature.None? then 0.0
    else Mul(1.0 - whereWeight, e.threadFeature.value - PreThread(e, weights))
  }

  function WhereDerivative(e: LearningExample, weights: Vec, threadWeight: real): real
    requires |weights| == |e.features|
  {
    if e.whereFeature.None? then 0.0
    else e.whereFeature.value - Layer(threadWeight, PreThread(e, weights), e.threadFeature)
  }

  ghost predicate IsThreadSlope(e: LearningExample, weights: Vec, whereWeight: real, slope: real)
    requires |weights| == |e.features|
  {
    forall t: real :: ExampleScore(e, weights, t, whereWeight)
      == ExampleScore(e, weights, 0.0, whereWeight) + Mul(slope, t)
  }

  /**
   * The thread derivative is the slope of the score in the thread weight exactly when the
   * damping by the where layer is real (the feature is there or its weight is zero) or there is
   * nothing to damp (no thread feature, or one equal to the score below it).
   */
  lemma ThreadDerivativeExactlyWhen(e: LearningExample, weights: Vec, whereWeight: real)
    requires |weights| == |e.features|
    ensures IsThreadSlope(e, weights, whereWeight, ThreadDerivative(e, weights, whereWeight))
       <==> (e.whereFeature.Some? || whereWeight == 0.0 || e.threadFeature.None?
             || e.threadFeature.value == PreThread(e, weights))
  {
    var pre := PreThread(e, weights);
    var slope := ThreadDerivative(e, weights, whereWeight);
    if e.whereFeature.Some? || whereWeight == 0.0 || e.threadFeature.None? || e.threadFeature.value == pre {
      forall t: real
        ensures ExampleScore(e, weights, t, whereWeight) == ExampleScore(e, weights, 0.0, whereWeight) + Mul(slope, t)
      {
        ScoreAboveThread(e, weights, t, whereWeight);
        ScoreAboveThread(e, weights, 0.0, whereWeight);
        ThreadLayers(t, whereWeight, pre, e.threadFeature, e.whereFeature, slope);
        hide *;
      }
    } else {
      ScoreAboveThread(e, weights, 1.0, whereWeight);
      ScoreAboveThread(e, weights, 0.0, whereWeight);
      NonzeroProduct(whereWeight, e.threadFeature.value - pre);
      ThreadGap(whereWeight, pre, e.threadFeature.value, slope);
      hide Dot, ExampleScore, PreThread, Mul;
      assert ExampleScore(e, weights, 1.0, whereWeight) != ExampleScore(e, weights, 0.0, whereWeight) + Mul(slope, 1.0);
    }
  }

  lemma ScoreAboveThread(e: LearningExample, weights: Vec, threadWeight: real, whereWeight: real)
    requires |weights| == |e.features|
    ensures ExampleScore(e, weights, threadWeight, whereWeight)
         == Layer(whereWeight, Layer(threadWeight, PreThread(e, weights), e.threadFeature), e.whereFeature)
            + e.baselineBias
  {
    LinearizedIsNestedBlend(e, weights, threadWeight, whereWeight);
    hide Dot, ExampleScore, Mul;
  }

  lemma ThreadLayers(t: real, w: real, pre: real, thread: Option<real>, where: Option<real>, slope: real)
    requires where.Some? || w == 0.0 || thread.None? || thread.value == pre
    requires slope == if thread.None? then 0.0 else Mul(1.0 - w, thread.value - pre)
    ensures Layer(w, Layer(t, pre, thread), where) == Layer(w, Layer(0.0, pre, thread), where) + Mul(slope, t)
  {
    if thread.Some? {
      var gap := thread.value - pre;
      assert Layer(t, pre, thread) == pre + Mul(t, gap);
      assert Layer(0.0, pre, thread) == pre;
      if where.Some? {
        assert Mul(1.0 - w, pre + Mul(t, gap)) == Mul(1.0 - w, pre) + Mul(Mul(1.0 - w, gap), t);
      }
    }
  }

  /** Without a where feature the true slope is the undamped one. */
  lemma ThreadGap(w: real, pre: real, thread: real, slope: real)
    requires slope == Mul(1.0 - w, thread - pre) && Mul(w, thread - pre) != 0.0
    ensures Layer(1.0, pre, Some(thread)) != Layer(0.0, pre, Some(thread)) + Mul(slope, 1.0)
  {
    assert Layer(1.0, pre, Some(thread)) == thread;
    assert Layer(0.0, pre, Some(thread)) == pre;
    assert Mul(slope, 1.0) == slope == thread - pre - Mul(w, thread - pre);
  }

  lemma NonzeroProduct(x: real, y: real)
    requires x != 0.0 && y != 0.0
    ensures Mul(x, y) != 0.0
  {
    if (x > 0.0) == (y > 0.0) {
      MulPositive(x, y);
    } else {
      MulPositive(x, -y);
      assert Mul(x, -y) == -Mul(x, y);
    }
  }

  /** The where derivative has no such gap: it is always the slope of the score in the where weight. */
  lemma WhereDerivativeIsSlope(e: LearningExample, weights: Vec, threadWeight: real, t: real)
    requires |weights| == |e.features|
    ensures ExampleScore(e, weights, threadWeight, t)
         == ExampleScore(e, weights, threadWeight, 0.0) + Mul(WhereDerivative(e, weights, threadWeight), t)
  {
    ScoreAboveThread(e, weights, threadWeight, t);
    ScoreAboveThread(e, weights, threadWeight, 0.0);
    WhereLayer(t, Layer(threadWeight, PreThread(e, weights), e.threadFeature), e.whereFeature);
    hide Dot, ExampleScore, PreThread, Layer, Mul;
  }

  lemma WhereLayer(t: real, below: real, where: Option<real>)
    ensures where.Some? ==> Layer(t, below, where) == Layer(0.0, below, where) + Mul(where.value - below, t)
    ensures where.None? ==> Layer(t, below, where) == Layer(0.0, below, where)
    ensures Mul(0.0, t) == 0.0
  {
  }
}
