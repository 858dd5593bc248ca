/** The explanation of a served score: one contribution per feature, locality and axis, and a bias. */
module Contributions {
  import opened Outcomes
  import opened Vectors
  import opened Scoring
  import opened Replay

  datatype Breakdown = Breakdown(
    six: Vec,
    loc: Option<real>,
    thread: Option<real>,
    where: Option<real>,
    axes: seq<(string, real)>,
    bias: real)

  function Amount(part: Option<real>): real {
    if part.Some? then part.value else 0.0
  }

  function Amounts(parts: seq<(string, real)>): Vec {
    seq(|parts|, i requires 0 <= i < |parts| => parts[i].1)
  }

  function Explained(b: Breakdown): real {
    Sum(b.six) + Amount(b.loc) + Amount(b.thread) + Amount(b.where) + Sum(Amounts(b.axes))
  }

  /** What a present layer leaves of everything below it. */
  function Damp(weight: real, value: Option<real>): real {
    if value.Some? then 1.0 - weight else 1.0
  }

  predicate Applies(axis: Axis, f: Features)
    requires |f.six| == 6
  {
    axis.weight != 0.0 && AxisValue(axis, f).Some?
  }

  function AxisDamp(axes: seq<Axis>, f: Features): real
    requires |f.six| == 6
  {
    if |axes| == 0 then 1.0
    else
      var axis, below := axes[|axes| - 1], AxisDamp(axes[..|axes| - 1], f);
      if Applies(axis, f) then Mul(1.0 - axis.weight, below) else below
  }

  /** Each applying axis contributes weight times value, damped by the applying axes after it. */
  function AxisParts(axes: seq<Axis>, f: Features): seq<(string, real)>
    requires |f.six| == 6
  {
    if |axes| == 0 then []
    else
      var axis, below := axes[|axes| - 1], AxisParts(axes[..|axes| - 1], f);
      if Applies(axis, f)
      then Rescaled(1.0 - axis.weight, below) + [(axis.name, Mul(axis.weight, AxisValue(axis, f).value))]
      else below
  }

  /** Every axis part carries the name of an axis that applies. */
  lemma {:induction false} AxisPartsAreNamed(axes: seq<Axis>, f: Features, i: nat)
    requires |f.six| == 6 && i < |AxisParts(axes, f)|
    ensures exists axis :: axis in axes && axis.name == AxisParts(axes, f)[i].0 && Applies(axis, f)
  {
    var n := |axes| - 1;
    assert axes == axes[..n] + [axes[n]];
    var below := AxisParts(axes[..n], f);
    if i < |below| {
      AxisPartsAreNamed(axes[..n], f, i);
    } else {
      assert axes[n] in axes;
    }
  }

  function Rescaled(s: real, parts: seq<(string, real)>): (r: seq<(string, real)>)
    ensures |r| == |parts|
  {
    seq(|parts|, i requires 0 <= i < |parts| => (parts[i].0, Mul(s, parts[i].1)))
  }

  function RescaledPart(s: real, part: Option<real>): Option<real> {
    if part.Some? then Some(Mul(s, part.value)) else None
  }

  function Products(weights: Vec, values: Vec): (r: Vec)
    requires |weights| == |values|
    ensures |r| == |weights| && forall i :: 0 <= i < |r| ==> r[i] == Mul(weights[i], values[i])
  {
    seq(|weights|, i requires 0 <= i < |weights| => Mul(weights[i], values[i]))
  }

  lemma {:induction false} SumScaled(s: real, v: Vec)
    ensures Sum(Scaled(s, v)) == Mul(s, Sum(v))
  {
    if |v| > 0 {
      var n := |v| - 1;
      SumScaled(s, v[..n]);
      assert Scaled(s, v)[..n] == Scaled(s, v[..n]);
      Distribute(s, Sum(v[..n]), v[n]);
    }
  }

  lemma Distribute(s: real, x: real, y: real)
    ensures Mul(s, x + y) == Mul(s, x) + Mul(s, y)
  {
  }

  lemma {:induction false} SumProducts(weights: Vec, values: Vec)
    requires |weights| == |values|
    ensures Sum(Products(weights, values)) == Dot(weights, values)
  {
    if |weights| > 0 {
      var n := |weights| - 1;
      SumProducts(weights[..n], values[..n]);
      assert Products(weights, values)[..n] == Products(weights[..n], values[..n]);
    }
  }

  lemma SumRescaled(s: real, parts: seq<(string, real)>)
    ensures Sum(Amounts(Rescaled(s, parts))) == Mul(s, Sum(Amounts(parts)))
  {
    SumScaled(s, Amounts(parts));
    assert Amounts(Rescaled(s, parts)) == Scaled(s, Amounts(parts));
  }

  /** Everything explained so far, damped by a layer put on top of it. */
  function Below(keep: real, b: Breakdown): Breakdown {
    Breakdown(Scaled(keep, b.six), RescaledPart(keep, b.loc), RescaledPart(keep, b.thread),
              RescaledPart(keep, b.where), Rescaled(keep, b.axes), b.bias)
  }

  lemma BelowExplained(keep: real, b: Breakdown)
    ensures Explained(Below(keep, b)) == Mul(keep, Explained(b))
  {
    SumScaled(keep, b.six);
    SumRescaled(keep, b.axes);
    hide Sum, Amounts;
    var s, l, t, w, a := Sum(b.six), Amount(b.loc), Amount(b.thread), Amount(b.where), Sum(Amounts(b.axes));
    FiveWays(keep, s, l, t, w, a);
    hide Mul;
  }

  lemma FiveWays(k: real, s: real, l: real, t: real, w: real, a: real)
    ensures Mul(k, s + l + t + w + a) == Mul(k, s) + Mul(k, l) + Mul(k, t) + Mul(k, w) + Mul(k, a)
    ensures Mul(k, 0.0) == 0.0
  {
  }

  lemma BelowTwice(s: real, t: real, b: Breakdown)
    ensures Below(s, Below(t, b)) == Below(Mul(s, t), b)
    ensures Below(1.0, b) == b
  {
    assert forall x: real :: Mul(s, Mul(t, x)) == Mul(Mul(s, t), x) && Mul(1.0, x) == x by {
      forall x: real
        ensures Mul(s, Mul(t, x)) == Mul(Mul(s, t), x) && Mul(1.0, x) == x
      {
        Associate(s, t, x);
      }
    }
    hide Mul;
    assert Rescaled(1.0, b.axes) == b.axes;
    assert Rescaled(s, Rescaled(t, b.axes)) == Rescaled(Mul(s, t), b.axes);
    assert Scaled(1.0, b.six) == b.six;
    assert Scaled(s, Scaled(t, b.six)) == Scaled(Mul(s, t), b.six);
  }

  lemma Associate(s: real, t: real, x: real)
    ensures Mul(s, Mul(t, x)) == Mul(Mul(s, t), x) && Mul(1.0, x) == x
  {
  }

  lemma AppendedAmount(parts: seq<(string, real)>, own: (string, real))
    ensures Sum(Amounts(parts + [own])) == Sum(Amounts(parts)) + own.1
  {
    assert Amounts(parts + [own])[..|parts|] == Amounts(parts);
  }

  /** The base features and the location layer, before the later layers. */
  function Base(f: Features, weights: Vec, p: Params): (b: Breakdown)
    requires |f.six| == |weights| == 6
    ensures b.thread == b.where == None && b.axes == []
  {
    Breakdown(Scaled(Damp(p.locationWeight, f.loc), Products(weights, f.six)),
              if f.loc.None? then None else Some(Mul(p.locationWeight, f.loc.value)),
              None, None, [], 0.0)
  }

  lemma BaseExplained(f: Features, weights: Vec, p: Params)
    requires |f.six| == |weights| == 6
    ensures Explained(Base(f, weights, p)) == Layer(p.locationWeight, Dot(weights, f.six), f.loc)
  {
    SumProducts(weights, f.six);
    SumScaled(Damp(p.locationWeight, f.loc), Products(weights, f.six));
    assert Amounts([]) == [];
    hide Dot, Products, Scaled;
    Associate(1.0, 1.0, Dot(weights, f.six));
  }

  /** Damp what lies below a present layer and add the layer's own part. */
  function ThreadStage(b: Breakdown, f: Features, p: Params): Breakdown {
    if f.thread.None? then b
    else Below(1.0 - p.threadWeight, b).(thread := Some(Mul(p.threadWeight, f.thread.value)))
  }

  function WhereStage(b: Breakdown, f: Features, p: Params): Breakdown {
    if f.where.None? then b
    else Below(1.0 - p.whereWeight, b).(where := Some(Mul(p.whereWeight, f.where.value)))
  }

  function AxisStage(b: Breakdown, axis: Axis, f: Features): Breakdown
    requires |f.six| == 6
  {
    if !Applies(axis, f) then b
    else
      var below := Below(1.0 - axis.weight, b);
      below.(axes := below.axes + [(axis.name, Mul(axis.weight, AxisValue(axis, f).value))])
  }

  lemma StagesExplained(b: Breakdown, f: Features, p: Params, axis: Axis)
    requires |f.six| == 6
    ensures b.thread == None ==> Explained(ThreadStage(b, f, p)) == Layer(p.threadWeight, Explained(b), f.thread)
    ensures b.where == None ==> Explained(WhereStage(b, f, p)) == Layer(p.whereWeight, Explained(b), f.where)
    ensures Explained(AxisStage(b, axis, f)) == AxisLayer(axis, Explained(b), f)
  {
    BelowExplained(1.0 - p.threadWeight, b);
    BelowExplained(1.0 - p.whereWeight, b);
    BelowExplained(1.0 - axis.weight, b);
    if Applies(axis, f) {
      AppendedAmount(Below(1.0 - axis.weight, b).axes, (axis.name, Mul(axis.weight, AxisValue(axis, f).value)));
    }
    hide Sum, Amounts, Mul;
  }

  /** The closed form of every part of a breakdown with no axes. */
  function LocalForm(f: Features, weights: Vec, p: Params): Breakdown
    requires |f.six| == |weights| == 6
  {
    var t, w := Damp(p.threadWeight, f.thread), Damp(p.whereWeight, f.where);
    Breakdown(
      Scaled(Mul(w, Mul(t, Damp(p.locationWeight, f.loc))), Products(weights, f.six)),
      if f.loc.None? then None else Some(Mul(Mul(w, t), Mul(p.locationWeight, f.loc.value))),
      if f.thread.None? then None else Some(Mul(w, Mul(p.threadWeight, f.thread.value))),
      if f.where.None? then None else Some(Mul(p.whereWeight, f.where.value)),
      [], 0.0)
  }

  lemma StagesClosedForm(f: Features, weights: Vec, p: Params)
    requires |f.six| == |weights| == 6
    ensures WhereStage(ThreadStage(Base(f, weights, p), f, p), f, p) == LocalForm(f, weights, p)
  {
    var x, t, w := Damp(p.locationWeight, f.loc), Damp(p.threadWeight, f.thread), Damp(p.whereWeight, f.where);
    var products := Breakdown(Products(weights, f.six), None, None, None, [], 0.0);
    BelowTwice(t, x, products);
    BelowTwice(w, Mul(t, x), products);
    BelowTwice(w, t, Base(f, weights, p));
    BelowTwice(1.0, 1.0, Base(f, weights, p));
    var loc := if f.loc.None? then 0.0 else Mul(p.locationWeight, f.loc.value);
    Associate(w, t, loc);
    Associate(w, 1.0, 0.0);
    Associate(t, 1.0, 0.0);
    Associate(1.0, w, 0.0);
    Associate(1.0, t, 0.0);
    Associate(1.0, x, 0.0);
    Associate(1.0, 1.0, loc);
    One(t);
    One(w);
    One(Mul(t, x));
    One(x);
    hide Mul;
  }

  lemma One(x: real)
    ensures Mul(1.0, x) == x && Mul(x, 1.0) == x
  {
  }

  /** The six base features and the three localities, rescaled layer by layer. */
  method ExplainLocalities(f: Features, weights: Vec, p: Params) returns (b: Breakdown)
    requires |f.six| == |weights| == 6
    ensures b == LocalForm(f, weights, p)
    ensures Explained(b) == Localities(Dot(weights, f.six), f, p)
  {
    StagesClosedForm(f, weights, p);
    BaseExplained(f, weights, p);
    StagesExplained(Base(f, weights, p), f, p, Axis("", Sem, Sem, 0.0));
    StagesExplained(ThreadStage(Base(f, weights, p), f, p), f, p, Axis("", Sem, Sem, 0.0));
    hide Scaled, Products, Explained, Dot, Mul, LocalForm, Rescaled;
    b := Base(f, weights, p);
    if f.thread.Some? {
      var keep := 1.0 - p.threadWeight;
      b := Breakdown(Scaled(keep, b.six), RescaledPart(keep, b.loc), Some(Mul(p.threadWeight, f.thread.value)),
                     RescaledPart(keep, b.where), Rescaled(keep, b.axes), b.bias);
    }
    assert b == ThreadStage(Base(f, weights, p), f, p);
    if f.where.Some? {
      var keep := 1.0 - p.whereWeight;
      b := Breakdown(Scaled(keep, b.six), RescaledPart(keep, b.loc), RescaledPart(keep, b.thread),
                     Some(Mul(p.whereWeight, f.where.value)), Rescaled(keep, b.axes), b.bias);
    }
  }

  /**
   * The breakdown of one event: every part is its own weight times value damped by exactly the
   * layers above it, together the parts make up the scorer's score, and the bias is the rest.
   */
  method Explain(f: Features, weights: Vec, p: Params, axes: seq<Axis>, storedScore: real) returns (b: Breakdown)
    requires |f.six| == |weights| == 6
    ensures Explained(b) == ScoreFeatures(f, weights, p, axes)
    ensures b.bias == storedScore - ScoreFeatures(f, weights, p, axes)
    ensures b == Below(AxisDamp(axes, f), LocalForm(f, weights, p)).(axes := AxisParts(axes, f), bias := b.bias)
  {
    b := ExplainLocalities(f, weights, p);
    ghost var local := b;
    BelowTwice(1.0, 1.0, local);
    hide Scaled, Products, Explained, Dot, Mul, LocalForm, Localities, Below, AxisLayer;
    for i := 0 to |axes|
      invariant b == Below(AxisDamp(axes[..i], f), local).(axes := AxisParts(axes[..i], f))
      invariant Explained(b) == AxesApplied(Explained(local), f, axes[..i])
    {
      var value := AxisValue(axes[i], f);
      assert axes[..i + 1][..i] == axes[..i];
      StagesExplained(b, f, p, axes[i]);
      AxisStageForm(local, axes[..i], axes[i], f);
      assert axes[..i + 1] == axes[..i] + [axes[i]];
      if value.Some? && axes[i].weight != 0.0 {
        b := Below(1.0 - axes[i].weight, b);
        b := b.(axes := b.axes + [(axes[i].name, Mul(axes[i].weight, value.value))]);
      }
    }
    assert axes[..|axes|] == axes;
    b := BiasRest(b, storedScore);
  }

  lemma AxisStageForm(local: Breakdown, axes: seq<Axis>, axis: Axis, f: Features)
    requires |f.six| == 6
    ensures AxisStage(Below(AxisDamp(axes, f), local).(axes := AxisParts(axes, f)), axis, f)
         == Below(AxisDamp(axes + [axis], f), local).(axes := AxisParts(axes + [axis], f))
  {
    assert (axes + [axis])[..|axes|] == axes;
    BelowTwice(1.0 - axis.weight, AxisDamp(axes, f), local);
    hide Scaled, Mul;
  }

  /** The bias is what the stored score leaves over after subtracting every part. */
  method BiasRest(b: Breakdown, storedScore: real) returns (r: Breakdown)
    ensures r == b.(bias := storedScore - Explained(b))
    ensures Explained(r) == Explained(b)
  {
    var bias := storedScore - Sum(b.six);
    bias := bias - Sum(Amounts(b.axes));
    if b.loc.Some? {
      bias := bias - b.loc.value;
    }
    if b.thread.Some? {
      bias := bias - b.thread.value;
    }
    if b.where.Some? {
      bias := bias - b.where.value;
    }
    r := b.(bias := bias);
  }
}
