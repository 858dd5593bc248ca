/** Training pairs of every gate, and the optimisation problem over weights and biases they pose. */
module Learner {
  import opened Vectors
  import opened Replay
  import opened Ordering
  import Descent
  import opened Sorting

  datatype Pair = Pair(positive: LearningExample, negative: LearningExample, weight: real)

  datatype FitSettings = FitSettings(pairMargin: real, biasL2: real)

  datatype Fit = Fit(weights: Vec, biases: map<int, real>, biasOffsets: map<int, real>, iterations: nat,
                     objective: real)

  datatype FitError = SixWeightsRequired | NoTrainingPair

  datatype FitResult = Fitted(fit: Fit) | FitFailed(error: FitError)

  ghost predicate ValidExample(e: LearningExample) {
    |e.features| == 6 && e.actorWeight >= 0.0
  }

  ghost predicate ValidExamples(examples: seq<LearningExample>) {
    forall i :: 0 <= i < |examples| ==> ValidExample(examples[i])
  }

  // Training pairs.

  predicate UidLess(a: LearningExample, b: LearningExample) {
    StrLess(a.eventUid, b.eventUid)
  }

  function Min(x: real, y: real): (m: real)
    ensures m <= x && m <= y && (m == x || m == y)
  {
    if y < x then y else x
  }

  function Injections(examples: seq<LearningExample>): (r: seq<int>)
    ensures |r| == |examples|
  {
    seq(|examples|, i requires 0 <= i < |examples| => examples[i].injection)
  }

  /** The rows of one gate with the given label, in arrival order. */
  function Members(examples: seq<LearningExample>, injection: int, target: bool): seq<LearningExample> {
    if |examples| == 0 then []
    else
      var e, rest := examples[|examples| - 1], Members(examples[..|examples| - 1], injection, target);
      if e.injection == injection && e.targetInjected == target then rest + [e] else rest
  }

  function PairRow(p: LearningExample, negatives: seq<LearningExample>): (r: seq<Pair>)
    ensures |r| == |negatives|
  {
    seq(|negatives|, i requires 0 <= i < |negatives| =>
      Pair(p, negatives[i], Min(p.actorWeight, negatives[i].actorWeight)))
  }

  function Cross(positives: seq<LearningExample>, negatives: seq<LearningExample>): seq<Pair> {
    if |positives| == 0 then []
    else Cross(positives[..|positives| - 1], negatives) + PairRow(positives[|positives| - 1], negatives)
  }

  function GatePairs(examples: seq<LearningExample>, injection: int): seq<Pair> {
    Cross(SortBy(UidLess, Members(examples, injection, true)),
          SortBy(UidLess, Members(examples, injection, false)))
  }

  function PairsOfGates(examples: seq<LearningExample>, gates: seq<int>): seq<Pair> {
    if |gates| == 0 then []
    else PairsOfGates(examples, gates[..|gates| - 1]) + GatePairs(examples, gates[|gates| - 1])
  }

  function PairsOf(examples: seq<LearningExample>): seq<Pair> {
    PairsOfGates(examples, SortedDistinct(Injections(examples)))
  }

  /** The double loop over one gate's positives and negatives. */
  method CrossPairs(positives: seq<LearningExample>, negatives: seq<LearningExample>) returns (pairs: seq<Pair>)
    ensures pairs == Cross(positives, negatives)
  {
    pairs := [];
    for i := 0 to |positives|
      invariant pairs == Cross(positives[..i], negatives)
    {
      ghost var earlier := pairs;
      ghost var row := PairRow(positives[i], negatives);
      for j := 0 to |negatives|
        invariant pairs == earlier + row[..j]
      {
        var weight := Min(positives[i].actorWeight, negatives[j].actorWeight);
        pairs := pairs + [Pair(positives[i], negatives[j], weight)];
      }
      assert row[..|negatives|] == row;
      assert positives[..i + 1][..i] == positives[..i];
    }
    assert positives[..|positives|] == positives;
  }

  /** Every gate in id order, its rows in event order. */
  method Pairs(examples: seq<LearningExample>) returns (pairs: seq<Pair>)
    ensures pairs == PairsOf(examples)
  {
    pairs := [];
    var gates := SortedDistinct(Injections(examples));
    for g := 0 to |gates|
      invariant pairs == PairsOfGates(examples, gates[..g])
    {
      var positives := SortBy(UidLess, Members(examples, gates[g], true));
      var negatives := SortBy(UidLess, Members(examples, gates[g], false));
      var cross := CrossPairs(positives, negatives);
      pairs := pairs + cross;
      assert gates[..g + 1][..g] == gates[..g];
    }
    assert gates[..|gates|] == gates;
  }

  ghost predicate TrainingPair(examples: seq<LearningExample>, pair: Pair) {
    && pair.positive in examples && pair.negative in examples
    && pair.positive.targetInjected && !pair.negative.targetInjected
    && pair.positive.injection == pair.negative.injection
    && pair.weight == Min(pair.positive.actorWeight, pair.negative.actorWeight)
  }

  /**
   * A pair is trained on exactly when one gate holds both its positive and its negative row; neither row weighs
   * less than the pair, and one of them weighs as much.
   */
  lemma PairsAreTrainingPairs(examples: seq<LearningExample>, pair: Pair)
    ensures pair in PairsOf(examples) <==>
      && pair.positive in examples && pair.negative in examples
      && pair.positive.targetInjected && !pair.negative.targetInjected
      && pair.positive.injection == pair.negative.injection
      && pair.weight <= pair.positive.actorWeight && pair.weight <= pair.negative.actorWeight
      && (pair.weight == pair.positive.actorWeight || pair.weight == pair.negative.actorWeight)
    ensures pair in PairsOf(examples) <==> TrainingPair(examples, pair)
  {
    var gates := SortedDistinct(Injections(examples));
    SortedDistinctMembers(Injections(examples));
    PairsOfGatesMembers(examples, gates, pair);
    GatePairsMembers(examples, pair.positive.injection, pair);
    forall g | g in gates
      ensures pair in GatePairs(examples, g) ==> g == pair.positive.injection
    {
      GatePairsMembers(examples, g, pair);
    }
    if TrainingPair(examples, pair) {
      var i :| 0 <= i < |examples| && examples[i] == pair.positive;
      assert Injections(examples)[i] == pair.positive.injection;
    }
  }

  lemma {:induction false} PairsOfGatesMembers(examples: seq<LearningExample>, gates: seq<int>, pair: Pair)
    ensures pair in PairsOfGates(examples, gates) <==> exists g :: g in gates && pair in GatePairs(examples, g)
  {
    if |gates| > 0 {
      PairsOfGatesMembers(examples, gates[..|gates| - 1], pair);
      assert gates == gates[..|gates| - 1] + [gates[|gates| - 1]];
    }
  }

  lemma GatePairsMembers(examples: seq<LearningExample>, g: int, pair: Pair)
    ensures pair in GatePairs(examples, g) <==> TrainingPair(examples, pair) && pair.positive.injection == g
  {
    var positives, negatives := Members(examples, g, true), Members(examples, g, false);
    CrossMembers(SortBy(UidLess, positives), SortBy(UidLess, negatives), pair);
    SortSameMembers(UidLess, positives, pair.positive);
    SortSameMembers(UidLess, negatives, pair.negative);
    MembersOf(examples, g, true, pair.positive);
    MembersOf(examples, g, false, pair.negative);
  }

  lemma {:induction false} MembersOf(examples: seq<LearningExample>, g: int, target: bool, e: LearningExample)
    ensures e in Members(examples, g, target) <==> e in examples && e.injection == g && e.targetInjected == target
  {
    if |examples| > 0 {
      MembersOf(examples[..|examples| - 1], g, target, e);
      assert examples == examples[..|examples| - 1] + [examples[|examples| - 1]];
    }
  }

  lemma {:induction false} CrossMembers(ps: seq<LearningExample>, ns: seq<LearningExample>, pair: Pair)
    ensures pair in Cross(ps, ns) <==>
      pair.positive in ps && pair.negative in ns
        && pair.weight == Min(pair.positive.actorWeight, pair.negative.actorWeight)
  {
    if |ps| > 0 {
      var p := ps[|ps| - 1];
      CrossMembers(ps[..|ps| - 1], ns, pair);
      assert ps == ps[..|ps| - 1] + [p];
      var row := PairRow(p, ns);
      if pair.positive == p && pair.negative in ns && pair.weight == Min(p.actorWeight, pair.negative.actorWeight) {
        var j :| 0 <= j < |ns| && ns[j] == pair.negative;
        assert row[j] == pair;
      }
    }
  }

  // The order of the pairs.

  /** Pairs come by gate, those of a gate by the event of their positive row. */
  lemma PairsAreOrdered(examples: seq<LearningExample>, i: nat, j: nat)
    requires i < j < |PairsOf(examples)|
    ensures var a, b := PairsOf(examples)[i].positive, PairsOf(examples)[j].positive;
      a.injection < b.injection || (a.injection == b.injection && !StrLess(b.eventUid, a.eventUid))
  {
    var gates := SortedDistinct(Injections(examples));
    SortedDistinctMembers(Injections(examples));
    GatesAreOrdered(examples, gates, i, j);
  }

  lemma {:induction false} GatesAreOrdered(examples: seq<LearningExample>, gates: seq<int>, i: nat, j: nat)
    requires forall k, l :: 0 <= k < l < |gates| ==> gates[k] < gates[l]
    requires i < j < |PairsOfGates(examples, gates)|
    ensures var a, b := PairsOfGates(examples, gates)[i].positive, PairsOfGates(examples, gates)[j].positive;
      a.injection < b.injection || (a.injection == b.injection && !StrLess(b.eventUid, a.eventUid))
    decreases |gates|
  {
    var n := |gates| - 1;
    var before, last := PairsOfGates(examples, gates[..n]), GatePairs(examples, gates[n]);
    if j < |before| {
      GatesAreOrdered(examples, gates[..n], i, j);
    } else {
      var y := last[j - |before|];
      assert y in last;
      GatePairsMembers(examples, gates[n], y);
      if i >= |before| {
        GateIsOrdered(examples, gates[n], i - |before|, j - |before|);
      } else {
        var x := before[i];
        assert x in before;
        PairsOfGatesMembers(examples, gates[..n], x);
        var g :| g in gates[..n] && x in GatePairs(examples, g);
        var k :| 0 <= k < n && gates[..n][k] == g;
        GatePairsMembers(examples, g, x);
        assert gates[k] < gates[n];
      }
      hide GatePairs, PairsOfGates;
    }
  }

  lemma GateIsOrdered(examples: seq<LearningExample>, g: int, i: nat, j: nat)
    requires i < j < |GatePairs(examples, g)|
    ensures var a, b := GatePairs(examples, g)[i], GatePairs(examples, g)[j];
      && a.positive.injection == b.positive.injection == g
      && !StrLess(b.positive.eventUid, a.positive.eventUid)
  {
    var pairs := GatePairs(examples, g);
    assert pairs[i] in pairs && pairs[j] in pairs;
    GatePairsMembers(examples, g, pairs[i]);
    GatePairsMembers(examples, g, pairs[j]);
    var positives := Members(examples, g, true);
    UidOrder();
    SortSorts(UidLess, positives);
    hide Members;
    CrossIsOrdered(SortBy(UidLess, positives), SortBy(UidLess, Members(examples, g, false)), i, j);
  }

  lemma UidOrder()
    ensures KeyOrder(UidLess)
  {
    forall a: LearningExample, b: LearningExample, c: LearningExample
      ensures UidLess(a, b) ==> !UidLess(b, a)
      ensures UidLess(a, c) ==> UidLess(a, b) || UidLess(b, c)
    {
      StrAsymmetric(a.eventUid, b.eventUid);
      StrBetween(a.eventUid, b.eventUid, c.eventUid);
    }
  }

  lemma {:induction false} CrossIsOrdered(ps: seq<LearningExample>, ns: seq<LearningExample>, i: nat, j: nat)
    requires SortedBy(UidLess, ps) && i < j < |Cross(ps, ns)|
    ensures !StrLess(Cross(ps, ns)[j].positive.eventUid, Cross(ps, ns)[i].positive.eventUid)
    decreases |ps|
  {
    var n := |ps| - 1;
    var before := Cross(ps[..n], ns);
    if j < |before| {
      CrossIsOrdered(ps[..n], ns, i, j);
    } else if i >= |before| {
      StrAsymmetric(ps[n].eventUid, ps[n].eventUid);
    } else {
      assert before[i] in before;
      CrossMembers(ps[..n], ns, before[i]);
      var k :| 0 <= k < n && ps[..n][k] == before[i].positive;
      assert !UidLess(ps[n], ps[k]);
    }
  }

  // The optimisation problem over one vector: the six weights, then the biases in id order.

  function MemoryIds(pairs: seq<Pair>): seq<int> {
    SortedDistinct(seq(|pairs|, i requires 0 <= i < |pairs| => pairs[i].positive.memory)
                 + seq(|pairs|, i requires 0 <= i < |pairs| => pairs[i].negative.memory))
  }

  function FeatureDelta(pair: Pair, threadWeight: real, whereWeight: real): (d: Vec)
    requires |pair.positive.features| == |pair.negative.features|
    ensures |d| == |pair.positive.features|
  {
    Sub(Linearized(pair.positive, threadWeight, whereWeight).0, Linearized(pair.negative, threadWeight, whereWeight).0)
  }

  function TermOf(pair: Pair, ids: seq<int>, threadWeight: real, whereWeight: real): Descent.Term
    requires |pair.positive.features| == |pair.negative.features|
  {
    var delta := FeatureDelta(pair, threadWeight, whereWeight);
    Descent.Term(
      delta + Sub(Indicator(ids, pair.positive.memory), Indicator(ids, pair.negative.memory)),
      Linearized(pair.positive, threadWeight, whereWeight).1 - Linearized(pair.negative, threadWeight, whereWeight).1,
      pair.weight,
      NormSq(delta) + 2.0)
  }

  ghost predicate ValidPair(pair: Pair, ids: seq<int>) {
    && ValidExample(pair.positive) && ValidExample(pair.negative)
    && pair.weight == Min(pair.positive.actorWeight, pair.negative.actorWeight)
    && pair.positive.memory in ids && pair.negative.memory in ids
  }

  ghost predicate ValidPairs(pairs: seq<Pair>, ids: seq<int>) {
    && Distinct(ids)
    && forall i :: 0 <= i < |pairs| ==> ValidPair(pairs[i], ids)
  }

  ghost function TermsOf(pairs: seq<Pair>, ids: seq<int>, threadWeight: real, whereWeight: real): (r: seq<Descent.Term>)
    requires ValidPairs(pairs, ids)
    ensures |r| == |pairs|
  {
    seq(|pairs|, i requires 0 <= i < |pairs| => TermOf(pairs[i], ids, threadWeight, whereWeight))
  }

  ghost function ProblemOf(pairs: seq<Pair>, ids: seq<int>, threadWeight: real, whereWeight: real,
                           settings: FitSettings): Descent.Problem
    requires ValidPairs(pairs, ids)
  {
    Descent.Problem(TermsOf(pairs, ids, threadWeight, whereWeight), settings.pairMargin, settings.biasL2, 6, 6 + |ids|)
  }

  function Flat(weights: Vec, biases: map<int, real>, ids: seq<int>): (z: Vec)
    requires forall i :: 0 <= i < |ids| ==> ids[i] in biases
    ensures |z| == |weights| + |ids|
  {
    weights + seq(|ids|, i requires 0 <= i < |ids| => biases[ids[i]])
  }

  lemma MemoryIdsCover(examples: seq<LearningExample>)
    requires ValidExamples(examples)
    ensures ValidPairs(PairsOf(examples), MemoryIds(PairsOf(examples)))
  {
    var pairs := PairsOf(examples);
    var ps := seq(|pairs|, i requires 0 <= i < |pairs| => pairs[i].positive.memory);
    var ns := seq(|pairs|, i requires 0 <= i < |pairs| => pairs[i].negative.memory);
    SortedDistinctMembers(ps + ns);
    forall i | 0 <= i < |pairs|
      ensures ValidPair(pairs[i], MemoryIds(pairs))
    {
      PairsAreTrainingPairs(examples, pairs[i]);
      assert (ps + ns)[i] == pairs[i].positive.memory;
      assert (ps + ns)[|pairs| + i] == pairs[i].negative.memory;
    }
  }

  /** A row's inner product is the difference the source computes: features plus the two biases. */
  lemma RowDifference(pair: Pair, ids: seq<int>, threadWeight: real, whereWeight: real, weights: Vec,
                      biases: map<int, real>)
    requires ValidPair(pair, ids) && Distinct(ids) && |weights| == 6
    requires forall i :: 0 <= i < |ids| ==> ids[i] in biases
    ensures Dot(TermOf(pair, ids, threadWeight, whereWeight).row, Flat(weights, biases, ids))
         == Dot(FeatureDelta(pair, threadWeight, whereWeight), weights)
          + biases[pair.positive.memory] - biases[pair.negative.memory]
  {
    var values := seq(|ids|, i requires 0 <= i < |ids| => biases[ids[i]]);
    var ep, en := Indicator(ids, pair.positive.memory), Indicator(ids, pair.negative.memory);
    var i :| 0 <= i < |ids| && ids[i] == pair.positive.memory;
    var j :| 0 <= j < |ids| && ids[j] == pair.negative.memory;
    IndicatorPicks(ids, i, values);
    IndicatorPicks(ids, j, values);
    DotConcat(FeatureDelta(pair, threadWeight, whereWeight), weights, Sub(ep, en), values);
    DotLinear(1.0, ep, -1.0, en, values);
  }

  /** Two unit entries of opposite sign add at most two to a row's squared norm. */
  lemma RowNorm(pair: Pair, ids: seq<int>, threadWeight: real, whereWeight: real)
    requires ValidPair(pair, ids) && Distinct(ids)
    ensures Descent.Sound(TermOf(pair, ids, threadWeight, whereWeight), 6 + |ids|)
  {
    var delta := FeatureDelta(pair, threadWeight, whereWeight);
    var ep, en := Indicator(ids, pair.positive.memory), Indicator(ids, pair.negative.memory);
    var i :| 0 <= i < |ids| && ids[i] == pair.positive.memory;
    var j :| 0 <= j < |ids| && ids[j] == pair.negative.memory;
    IndicatorPicks(ids, i, ep);
    IndicatorPicks(ids, i, en);
    IndicatorPicks(ids, j, en);
    NormSqComb(1.0, ep, -1.0, en);
    DotConcat(delta, delta, Sub(ep, en), Sub(ep, en));
    hide Dot;
  }

  /**
   * The residual of a pair is the margin less the difference between its examples, each its score under the weights
   * plus its memory's bias.
   */
  lemma PairResidual(pair: Pair, ids: seq<int>, threadWeight: real, whereWeight: real, margin: real, weights: Vec,
                     biases: map<int, real>)
    requires ValidPair(pair, ids) && Distinct(ids) && |weights| == 6
    requires forall i :: 0 <= i < |ids| ==> ids[i] in biases
    ensures |TermOf(pair, ids, threadWeight, whereWeight).row| == |Flat(weights, biases, ids)|
    ensures Descent.Residual(TermOf(pair, ids, threadWeight, whereWeight), margin, Flat(weights, biases, ids))
         == margin
            - (ExampleScore(pair.positive, weights, threadWeight, whereWeight) + biases[pair.positive.memory])
            + (ExampleScore(pair.negative, weights, threadWeight, whereWeight) + biases[pair.negative.memory])
  {
    RowDifference(pair, ids, threadWeight, whereWeight, weights, biases);
    var a := Linearized(pair.positive, threadWeight, whereWeight).0;
    var b := Linearized(pair.negative, threadWeight, whereWeight).0;
    DotLinear(1.0, a, -1.0, b, weights);
    DotSymmetric(a, weights);
    DotSymmetric(b, weights);
    OneTimes(Dot(weights, a), Dot(weights, b));
    hide Linearized, Dot, Comb, Mul, Flat, Indicator, ValidPair;
  }

  lemma OneTimes(x: real, y: real)
    ensures Mul(1.0, x) == x && Mul(-1.0, y) == -y
  {
  }

  lemma ProblemIsWellFormed(pairs: seq<Pair>, ids: seq<int>, threadWeight: real, whereWeight: real,
                            settings: FitSettings)
    requires ValidPairs(pairs, ids) && settings.biasL2 >= 0.0
    ensures Descent.WellFormed(ProblemOf(pairs, ids, threadWeight, whereWeight, settings))
    ensures Descent.AllSound(TermsOf(pairs, ids, threadWeight, whereWeight), 6 + |ids|)
  {
    forall i | 0 <= i < |pairs|
      ensures Descent.Sound(TermOf(pairs[i], ids, threadWeight, whereWeight), 6 + |ids|)
    {
      RowNorm(pairs[i], ids, threadWeight, whereWeight);
    }
  }
}
