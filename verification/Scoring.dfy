/** The layered scorer: a weighted sum, three locality layers, then the product axes. */
module Scoring {
  import opened Outcomes
  import opened Vectors
  import Simplex

  datatype FeatureName = Sem | Kw | Time | Proj | Freq | Hist | Loc | Thread | Where

  /** The six base features in the order Sem, Kw, Time, Proj, Freq, Hist, and the optional localities. */
  datatype Features = Features(six: Vec, loc: Option<real>, thread: Option<real>, where: Option<real>)

  ghost predicate SixWide(f: Features) {
    |f.six| == 6
  }

  function Get(f: Features, name: FeatureName): Option<real>
    requires |f.six| == 6
  {
    match name
    case Sem => Some(f.six[0])
    case Kw => Some(f.six[1])
    case Time => Some(f.six[2])
    case Proj => Some(f.six[3])
    case Freq => Some(f.six[4])
    case Hist => Some(f.six[5])
    case Loc => f.loc
    case Thread => f.thread
    case Where => f.where
  }

  datatype Axis = Axis(name: string, left: FeatureName, right: FeatureName, weight: real)

  function AxisValue(axis: Axis, f: Features): Option<real>
    requires |f.six| == 6
  {
    match (Get(f, axis.left), Get(f, axis.right))
    case (Some(x), Some(y)) => Some(Mul(x, y))
    case _ => None
  }

  function Layer(weight: real, score: real, value: Option<real>): real {
    match value
    case None => score
    case Some(v) => Mul(1.0 - weight, score) + Mul(weight, v)
  }

  function AxisLayer(axis: Axis, score: real, f: Features): real
    requires |f.six| == 6
  {
    if axis.weight != 0.0 then Layer(axis.weight, score, AxisValue(axis, f)) else score
  }

  function AxesApplied(score: real, f: Features, axes: seq<Axis>): real
    requires |f.six| == 6
  {
    if |axes| == 0 then score
    else AxisLayer(axes[|axes| - 1], AxesApplied(score, f, axes[..|axes| - 1]), f)
  }

  /** The axes come in name order, as sorting the named mapping gives them. */
  method ApplyAxes(score: real, f: Features, axes: seq<Axis>) returns (r: real)
    requires |f.six| == 6
    ensures r == AxesApplied(score, f, axes)
  {
    r := score;
    for i := 0 to |axes|
      invariant r == AxesApplied(score, f, axes[..i])
    {
      var value := AxisValue(axes[i], f);
      if axes[i].weight != 0.0 && value.Some? {
        r := Mul(1.0 - axes[i].weight, r) + Mul(axes[i].weight, value.value);
      }
      assert axes[..i + 1][..i] == axes[..i];
    }
    assert axes[..|axes|] == axes;
  }

  datatype Params = Params(locationWeight: real, threadWeight: real, whereWeight: real)

  function Localities(base: real, f: Features, params: Params): real {
    Layer(params.whereWeight,
          Layer(params.threadWeight, Layer(params.locationWeight, base, f.loc), f.thread),
          f.where)
  }

  function ScoreFeatures(f: Features, weights: Vec, params: Params, axes: seq<Axis>): real
    requires |f.six| == |weights| == 6
  {
    AxesApplied(Localities(Dot(weights, f.six), f, params), f, axes)
  }

  /**
   * One more axis, by name: when both of its features are there the score moves towards their product by the
   * axis' weight, otherwise it stays.
   */
  lemma OneMoreAxis(f: Features, weights: Vec, params: Params, axes: seq<Axis>, axis: Axis,
                    named: map<FeatureName, Option<real>>)
    requires |f.six| == |weights| == 6
    requires named == map[
      Sem := Some(f.six[0]), Kw := Some(f.six[1]), Time := Some(f.six[2]),
      Proj := Some(f.six[3]), Freq := Some(f.six[4]), Hist := Some(f.six[5]),
      Loc := f.loc, Thread := f.thread, Where := f.where]
    ensures axis.left in named && axis.right in named
    ensures var score, next :=
        ScoreFeatures(f, weights, params, axes), ScoreFeatures(f, weights, params, axes + [axis]);
      next == match (named[axis.left], named[axis.right])
              case (Some(x), Some(y)) => Mul(1.0 - axis.weight, score) + Mul(axis.weight, Mul(x, y))
              case _ => score
  {
    NamedFeature(f, named, axis.left);
    NamedFeature(f, named, axis.right);
    hide Get, Localities, Dot;
    assert (axes + [axis])[..|axes|] == axes;
    var score := ScoreFeatures(f, weights, params, axes);
    Unweighted(score);
    hide Mul;
    assert AxesApplied(Localities(Dot(weights, f.six), f, params), f, axes + [axis]) == AxisLayer(axis, score, f);
  }

  lemma NamedFeature(f: Features, named: map<FeatureName, Option<real>>, name: FeatureName)
    requires |f.six| == 6
    requires named == map[
      Sem := Some(f.six[0]), Kw := Some(f.six[1]), Time := Some(f.six[2]),
      Proj := Some(f.six[3]), Freq := Some(f.six[4]), Hist := Some(f.six[5]),
      Loc := f.loc, Thread := f.thread, Where := f.where]
    ensures name in named && named[name] == Get(f, name)
  {
    match name
    case Sem =>
    case Kw =>
    case Time =>
    case Proj =>
    case Freq =>
    case Hist =>
    case Loc =>
    case Thread =>
    case Where =>
  }

  lemma Unweighted(score: real)
    ensures Mul(1.0, score) == score && forall v :: Mul(0.0, v) == 0.0
  {
  }

  /** The base score and the locality layers on it: each that is there moves the score towards itself by its weight. */
  lemma LocalityLayers(f: Features, weights: Vec, params: Params)
    requires |f.six| == |weights| == 6
    ensures var base := Mul(weights[0], f.six[0]) + Mul(weights[1], f.six[1]) + Mul(weights[2], f.six[2])
        + Mul(weights[3], f.six[3]) + Mul(weights[4], f.six[4]) + Mul(weights[5], f.six[5]);
      var located := if f.loc.None? then base
        else Mul(1.0 - params.locationWeight, base) + Mul(params.locationWeight, f.loc.value);
      var threaded := if f.thread.None? then located
        else Mul(1.0 - params.threadWeight, located) + Mul(params.threadWeight, f.thread.value);
      ScoreFeatures(f, weights, params, []) ==
        if f.where.None? then threaded
        else Mul(1.0 - params.whereWeight, threaded) + Mul(params.whereWeight, f.where.value)
  {
    hide Mul;
    SixTerms(weights, f.six);
    hide Dot;
  }

  lemma SixTerms(w: Vec, x: Vec)
    requires |w| == |x| == 6
    ensures Dot(w, x) == Mul(w[0], x[0]) + Mul(w[1], x[1]) + Mul(w[2], x[2])
                         + Mul(w[3], x[3]) + Mul(w[4], x[4]) + Mul(w[5], x[5])
  {
    DotUnfolds(w, x, 6);
    DotUnfolds(w, x, 5);
    DotUnfolds(w, x, 4);
    DotUnfolds(w, x, 3);
    DotUnfolds(w, x, 2);
    DotUnfolds(w, x, 1);
    hide *;
    assert w[..6] == w && x[..6] == x;
  }

  lemma DotUnfolds(w: Vec, x: Vec, n: nat)
    requires |w| == |x| && 0 < n <= |w|
    ensures Dot(w[..n], x[..n]) == Dot(w[..n - 1], x[..n - 1]) + Mul(w[n - 1], x[n - 1])
    ensures Dot(w[..0], x[..0]) == 0.0
  {
    hide Mul;
    assert w[..n][..n - 1] == w[..n - 1] && x[..n][..n - 1] == x[..n - 1];
  }

  /** A scorer version. Project offsets are either empty or one per base feature. */
  datatype Config = Config(
    weights: Vec,
    params: Params,
    biasOffsets: map<int, real>,
    projectOffsets: map<string, Vec>,
    axes: seq<Axis>)

  predicate Nonnegative(v: Vec) {
    forall i :: 0 <= i < |v| ==> v[i] >= 0.0
  }

  function Offsets(c: Config, project: Option<string>): Vec {
    if project.Some? && project.value in c.projectOffsets then c.projectOffsets[project.value] else []
  }

  /** What the constructor checks: each project's effective weights sum to one. */
  predicate ValidConfig(c: Config) {
    && |c.weights| == 6
    && forall p :: p in c.projectOffsets ==>
         var offsets := c.projectOffsets[p];
         |offsets| == 0 ||
         (|offsets| == 6 && -0.0000001 <= Sum(Comb(1.0, c.weights, 1.0, offsets)) - 1.0 <= 0.0000001)
  }

  function WeightsForProject(c: Config, project: Option<string>): (w: Vec)
    requires ValidConfig(c)
    ensures |w| == 6
  {
    var offsets := Offsets(c, project);
    if |offsets| == 0 then c.weights
    else
      var values := Comb(1.0, c.weights, 1.0, offsets);
      if Nonnegative(values) then values else Simplex.Project(values)
  }

  function BiasOffset(c: Config, memory: int): real {
    if memory in c.biasOffsets then c.biasOffsets[memory] else 0.0
  }
}
