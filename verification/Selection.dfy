/** Choosing what to inject: pins, locked memories, and regular memories greedily within the token share. */
module Selection {
  import opened Outcomes
  import opened Sorting
  import opened Ordering

  /** A candidate with the score and token cost that the scorer gave it. */
  datatype Candidate = Candidate(memory: int, pin: bool, score: real, cost: nat)

  datatype Scored = Scored(candidate: Candidate, rank: nat)

  datatype Params = Params(tau: real, nearMisses: nat, share: real, legacyBudget: Option<nat>)

  datatype Selected = Selected(injected: seq<Scored>, nearMisses: seq<Scored>, budgetCuts: seq<Scored>,
                               unselected: seq<Scored>, regularBudget: int, pinCost: nat, regularCost: nat,
                               totalCost: nat, pinnedOverflow: nat)

  datatype SelectionError = ContextNotPositive | BadPartition | LockedNotEligible

  function CostOf(items: seq<Scored>): nat {
    if |items| == 0 then 0 else CostOf(items[..|items| - 1]) + items[|items| - 1].candidate.cost
  }

  // The greedy choice.

  predicate Selectable(item: Scored, tau: real, remaining: int) {
    item.candidate.score >= tau && item.candidate.cost <= remaining
  }

  /** What the greedy pass has chosen after all of these, best first. */
  function Chosen(ranked: seq<Scored>, tau: real, budget: int): seq<Scored> {
    if |ranked| == 0 then []
    else
      var before := Chosen(ranked[..|ranked| - 1], tau, budget);
      var last := ranked[|ranked| - 1];
      if Selectable(last, tau, budget - CostOf(before)) then before + [last] else before
  }

  function Unchosen(ranked: seq<Scored>, tau: real, budget: int): seq<Scored> {
    if |ranked| == 0 then []
    else
      var before := Unchosen(ranked[..|ranked| - 1], tau, budget);
      var last := ranked[|ranked| - 1];
      if Selectable(last, tau, budget - CostOf(Chosen(ranked[..|ranked| - 1], tau, budget)))
      then before else before + [last]
  }

  function AtLeast(items: seq<Scored>, tau: real): seq<Scored> {
    if |items| == 0 then []
    else
      AtLeast(items[..|items| - 1], tau)
      + if items[|items| - 1].candidate.score >= tau then [items[|items| - 1]] else []
  }

  lemma NothingCosts(tau: real)
    ensures CostOf([]) == 0 && AtLeast([], tau) == []
  {
  }

  lemma CostGrows(items: seq<Scored>, item: Scored)
    ensures CostOf(items + [item]) == CostOf(items) + item.candidate.cost
  {
    assert (items + [item])[..|items|] == items;
  }

  lemma AtLeastGrows(items: seq<Scored>, item: Scored, tau: real)
    ensures AtLeast(items + [item], tau) == AtLeast(items, tau) + if item.candidate.score >= tau then [item] else []
  {
    assert (items + [item])[..|items|] == items;
  }

  /** The loop over the ranked candidates. */
  method Choose(ranked: seq<Scored>, tau: real, budget: nat)
    returns (chosen: seq<Scored>, unchosen: seq<Scored>, cuts: seq<Scored>)
    ensures chosen == Chosen(ranked, tau, budget) && unchosen == Unchosen(ranked, tau, budget)
    ensures cuts == AtLeast(unchosen, tau)
  {
    hide CostOf, AtLeast;
    NothingCosts(tau);
    chosen, unchosen, cuts := [], [], [];
    var remaining: int := budget;
    for i := 0 to |ranked|
      invariant chosen == Chosen(ranked[..i], tau, budget) && unchosen == Unchosen(ranked[..i], tau, budget)
      invariant cuts == AtLeast(unchosen, tau)
      invariant remaining == budget - CostOf(chosen)
    {
      assert ranked[..i + 1][..i] == ranked[..i];
      var item := ranked[i];
      var cutByBudget := item.candidate.score >= tau && item.candidate.cost > remaining;
      var selectable := item.candidate.score >= tau && item.candidate.cost <= remaining;
      if selectable {
        CostGrows(chosen, item);
        chosen := chosen + [item];
        remaining := remaining - item.candidate.cost;
      } else {
        AtLeastGrows(unchosen, item, tau);
        unchosen := unchosen + [item];
        if cutByBudget {
          cuts := cuts + [item];
        }
      }
    }
    assert ranked[..|ranked|] == ranked;
  }

  /** Every candidate is chosen or not, never both, never lost. */
  lemma {:induction false} ChoicesPartition(ranked: seq<Scored>, tau: real, budget: int)
    ensures multiset(Chosen(ranked, tau, budget)) + multiset(Unchosen(ranked, tau, budget)) == multiset(ranked)
  {
    hide CostOf;
    if |ranked| > 0 {
      var n := |ranked| - 1;
      ChoicesPartition(ranked[..n], tau, budget);
      assert ranked == ranked[..n] + [ranked[n]];
      Rotated(multiset(Chosen(ranked[..n], tau, budget)), multiset(Unchosen(ranked[..n], tau, budget)),
        multiset{ranked[n]});
    }
  }

  lemma {:induction false} ChosenWithinBudget(ranked: seq<Scored>, tau: real, budget: int)
    requires budget >= 0
    ensures CostOf(Chosen(ranked, tau, budget)) <= budget
  {
    if |ranked| > 0 {
      var before := Chosen(ranked[..|ranked| - 1], tau, budget);
      ChosenWithinBudget(ranked[..|ranked| - 1], tau, budget);
      assert (before + [ranked[|ranked| - 1]])[..|before|] == before;
    }
  }

  lemma {:induction false} ChosenAreRanked(ranked: seq<Scored>, tau: real, budget: int, x: Scored)
    ensures x in Chosen(ranked, tau, budget) ==> x in ranked && x.candidate.score >= tau
  {
    if |ranked| > 0 {
      ChosenAreRanked(ranked[..|ranked| - 1], tau, budget, x);
      assert ranked == ranked[..|ranked| - 1] + [ranked[|ranked| - 1]];
    }
  }

  /** A candidate is chosen exactly when it reaches tau and fits after the choices ranked above it. */
  lemma {:induction false} ChosenExactlyWhen(ranked: seq<Scored>, tau: real, budget: int, k: nat)
    requires Distinct(ranked) && k < |ranked|
    ensures ranked[k] in Chosen(ranked, tau, budget) <==>
      (ranked[k].candidate.score >= tau
        && ranked[k].candidate.cost <= budget - CostOf(Chosen(ranked[..k], tau, budget)))
    decreases |ranked|
  {
    var n := |ranked| - 1;
    if k < n {
      assert ranked[..n][..k] == ranked[..k];
      ChosenExactlyWhen(ranked[..n], tau, budget, k);
      assert ranked[k] != ranked[n];
    } else {
      ChosenAreRanked(ranked[..n], tau, budget, ranked[n]);
      assert ranked[n] !in ranked[..n];
    }
  }

  /** The candidates are in rank order, by falling score. */
  ghost predicate Falling(ranked: seq<Scored>) {
    forall i, j :: 0 <= i < j < |ranked| ==> ranked[i].candidate.score >= ranked[j].candidate.score
  }

  lemma {:induction false} AllAtLeast(items: seq<Scored>, tau: real)
    requires forall x :: x in items ==> x.candidate.score >= tau
    ensures AtLeast(items, tau) == items
  {
    if |items| > 0 {
      var n := |items| - 1;
      assert items == items[..n] + [items[n]];
      AllAtLeast(items[..n], tau);
    }
  }

  /** Raising tau yields the earlier choices filtered by the new tau: nothing new ever fits in. */
  lemma {:induction false} RaisingTauFilters(ranked: seq<Scored>, tau: real, higher: real, budget: int)
    requires Falling(ranked) && tau <= higher
    ensures Chosen(ranked, higher, budget) == AtLeast(Chosen(ranked, tau, budget), higher)
  {
    if |ranked| > 0 {
      var n := |ranked| - 1;
      RaisingTauFilters(ranked[..n], tau, higher, budget);
      var before := Chosen(ranked[..n], tau, budget);
      AtLeastGrows(before, ranked[n], higher);
      assert AtLeast(before, higher) + [] == AtLeast(before, higher);
      if ranked[n].candidate.score >= higher {
        ChosenBeforeHigher(ranked, tau, higher, budget);
      }
      hide AtLeast, CostOf, Falling;
    }
  }

  /** If even the last reaches a tau, all that were chosen before it do. */
  lemma ChosenBeforeHigher(ranked: seq<Scored>, tau: real, higher: real, budget: int)
    requires Falling(ranked) && |ranked| > 0 && ranked[|ranked| - 1].candidate.score >= higher
    ensures var before := Chosen(ranked[..|ranked| - 1], tau, budget); AtLeast(before, higher) == before
  {
    var n := |ranked| - 1;
    var before := Chosen(ranked[..n], tau, budget);
    hide Chosen, AtLeast;
    forall x | x in before
      ensures x.candidate.score >= higher
    {
      ChosenAreRanked(ranked[..n], tau, budget, x);
      var i :| 0 <= i < n && ranked[..n][i] == x;
      assert ranked[i].candidate.score >= ranked[n].candidate.score;
    }
    AllAtLeast(before, higher);
  }

  // Ranking.

  predicate ById(a: Candidate, b: Candidate) {
    a.memory < b.memory
  }

  predicate ByScore(a: Candidate, b: Candidate) {
    a.score > b.score || (a.score == b.score && a.memory < b.memory)
  }

  function WithRanks(items: seq<Candidate>, start: nat): (r: seq<Scored>)
    ensures |r| == |items| && forall i :: 0 <= i < |items| ==> r[i] == Scored(items[i], start + i)
  {
    seq(|items|, i requires 0 <= i < |items| => Scored(items[i], start + i))
  }

  function Those(items: seq<Candidate>, ids: set<int>, locked: bool): seq<Candidate> {
    if |items| == 0 then []
    else
      var last := items[|items| - 1];
      var before := Those(items[..|items| - 1], ids, locked);
      if (last.memory in ids) == locked then before + [last] else before
  }

  function Ids(items: seq<Candidate>): (r: seq<int>)
    ensures |r| == |items| && forall i :: 0 <= i < |items| ==> r[i] == items[i].memory
  {
    seq(|items|, i requires 0 <= i < |items| => items[i].memory)
  }

  function IdSet(items: seq<Candidate>): set<int> {
    set i | 0 <= i < |items| :: items[i].memory
  }

  /** Pins by id, then locked and then regular memories by falling score; ranks count through all three. */
  function RankedPins(pins: seq<Candidate>): seq<Scored> {
    WithRanks(SortBy(ById, pins), 1)
  }

  function RankedLocked(pins: seq<Candidate>, regular: seq<Candidate>, locked: set<int>): seq<Scored> {
    WithRanks(SortBy(ByScore, Those(regular, locked - IdSet(pins), true)), |pins| + 1)
  }

  function RankedRegular(pins: seq<Candidate>, regular: seq<Candidate>, locked: set<int>): seq<Scored> {
    WithRanks(SortBy(ByScore, Those(regular, locked - IdSet(pins), false)),
              |pins| + |Those(regular, locked - IdSet(pins), true)| + 1)
  }

  function RankedAll(pins: seq<Candidate>, regular: seq<Candidate>, locked: set<int>): seq<Scored> {
    RankedPins(pins) + RankedLocked(pins, regular, locked) + RankedRegular(pins, regular, locked)
  }

  predicate Partition(pins: seq<Candidate>, regular: seq<Candidate>) {
    && (forall i :: 0 <= i < |pins| ==> pins[i].pin)
    && (forall i :: 0 <= i < |regular| ==> !regular[i].pin)
    && (forall i, j :: 0 <= i < j < |pins + regular| ==> (pins + regular)[i].memory != (pins + regular)[j].memory)
  }

  lemma {:induction false} ThoseCounts(items: seq<Candidate>, ids: set<int>, x: Candidate)
    ensures multiset(Those(items, ids, true))[x] + multiset(Those(items, ids, false))[x] == multiset(items)[x]
  {
    if |items| > 0 {
      var n := |items| - 1;
      ThoseCounts(items[..n], ids, x);
      assert items == items[..n] + [items[n]];
    }
  }

  lemma ThoseSplit(items: seq<Candidate>, ids: set<int>)
    ensures multiset(Those(items, ids, true)) + multiset(Those(items, ids, false)) == multiset(items)
  {
    forall x
      ensures (multiset(Those(items, ids, true)) + multiset(Those(items, ids, false)))[x] == multiset(items)[x]
    {
      ThoseCounts(items, ids, x);
    }
  }

  lemma {:induction false} ThoseCount(items: seq<Candidate>, ids: set<int>)
    ensures |Those(items, ids, true)| + |Those(items, ids, false)| == |items|
  {
    if |items| > 0 {
      ThoseCount(items[..|items| - 1], ids);
    }
  }

  function CandidatesOf(items: seq<Scored>): (r: seq<Candidate>)
    ensures |r| == |items| && forall i :: 0 <= i < |items| ==> r[i] == items[i].candidate
  {
    seq(|items|, i requires 0 <= i < |items| => items[i].candidate)
  }

  /** All candidates are ranked, each once, and the ranks are 1, 2, 3 and so on. */
  lemma RanksAreComplete(pins: seq<Candidate>, regular: seq<Candidate>, locked: set<int>)
    ensures var all := RankedAll(pins, regular, locked);
      && |all| == |pins| + |regular|
      && (forall i :: 0 <= i < |all| ==> all[i].rank == i + 1)
      && multiset(CandidatesOf(all)) == multiset(pins + regular)
  {
    var ids := locked - IdSet(pins);
    var a, b, c := SortBy(ById, pins), SortBy(ByScore, Those(regular, ids, true)),
      SortBy(ByScore, Those(regular, ids, false));
    ThoseSplit(regular, ids);
    ThoseCount(regular, ids);
    SortKeepsElements(ById, pins);
    SortKeepsElements(ByScore, Those(regular, ids, true));
    SortKeepsElements(ByScore, Those(regular, ids, false));
    hide Those, SortBy, IdSet;
    var all := RankedAll(pins, regular, locked);
    assert CandidatesOf(all) == a + b + c;
    hide RankedAll, RankedPins, RankedLocked, RankedRegular, CandidatesOf;
    assert multiset(a + b + c) == multiset(a) + multiset(b) + multiset(c);
    Rotated(multiset(pins), multiset(Those(regular, ids, true)), multiset(Those(regular, ids, false)));
  }

  lemma RegularFalls(pins: seq<Candidate>, regular: seq<Candidate>, locked: set<int>)
    ensures Falling(RankedRegular(pins, regular, locked))
  {
    var pool := Those(regular, locked - IdSet(pins), false);
    SortSorts(ByScore, pool);
    var sorted := SortBy(ByScore, pool);
    hide Those, SortBy, IdSet;
    forall i, j | 0 <= i < j < |sorted|
      ensures sorted[i].score >= sorted[j].score
    {
      assert !ByScore(sorted[j], sorted[i]);
    }
  }

  lemma IdSetHas(items: seq<Candidate>, m: int)
    ensures m in IdSet(items) <==> exists x :: x in items && x.memory == m
  {
    if m in IdSet(items) {
      var i :| 0 <= i < |items| && items[i].memory == m;
      assert items[i] in items;
    }
  }

  /** The three groups by content: the pins, the locked regular memories that are no pins, the other regular ones. */
  lemma GroupsHold(pins: seq<Candidate>, regular: seq<Candidate>, locked: set<int>, x: Candidate)
    ensures x in CandidatesOf(RankedPins(pins)) <==> x in pins
    ensures x in CandidatesOf(RankedLocked(pins, regular, locked)) <==>
      x in regular && x.memory in locked && !exists p :: p in pins && p.memory == x.memory
    ensures x in CandidatesOf(RankedRegular(pins, regular, locked)) <==>
      x in regular && !(x.memory in locked && !exists p :: p in pins && p.memory == x.memory)
  {
    var ids := locked - IdSet(pins);
    IdSetHas(pins, x.memory);
    ThoseMembers(regular, ids, true, x);
    ThoseMembers(regular, ids, false, x);
    RanksKeepMembers(ById, pins, 1, x);
    RanksKeepMembers(ByScore, Those(regular, ids, true), |pins| + 1, x);
    RanksKeepMembers(ByScore, Those(regular, ids, false), |pins| + |Those(regular, ids, true)| + 1, x);
    hide Those, SortBy, IdSet, CandidatesOf, WithRanks;
  }

  lemma RanksKeepMembers(less: (Candidate, Candidate) -> bool, items: seq<Candidate>, start: nat, x: Candidate)
    ensures x in CandidatesOf(WithRanks(SortBy(less, items), start)) <==> x in items
  {
    SortSameMembers(less, items, x);
    hide SortBy;
    var sorted := SortBy(less, items);
    assert CandidatesOf(WithRanks(sorted, start)) == sorted;
  }

  /** The three groups by order: pins by id, the others by falling score and equal scores by id. */
  lemma GroupsAreOrdered(pins: seq<Candidate>, regular: seq<Candidate>, locked: set<int>, i: nat, j: nat)
    ensures var p := RankedPins(pins);
      i < j < |p| ==> p[i].candidate.memory <= p[j].candidate.memory
    ensures var l := RankedLocked(pins, regular, locked);
      i < j < |l| ==>
        l[i].candidate.score > l[j].candidate.score
        || (l[i].candidate.score == l[j].candidate.score && l[i].candidate.memory <= l[j].candidate.memory)
    ensures var r := RankedRegular(pins, regular, locked);
      i < j < |r| ==>
        r[i].candidate.score > r[j].candidate.score
        || (r[i].candidate.score == r[j].candidate.score && r[i].candidate.memory <= r[j].candidate.memory)
  {
    var ids := locked - IdSet(pins);
    SortSorts(ById, pins);
    SortSorts(ByScore, Those(regular, ids, true));
    SortSorts(ByScore, Those(regular, ids, false));
    hide Those, SortBy, IdSet;
    var p, l, r := SortBy(ById, pins), SortBy(ByScore, Those(regular, ids, true)),
      SortBy(ByScore, Those(regular, ids, false));
    assert i < j < |p| ==> !ById(p[j], p[i]);
    assert i < j < |l| ==> !ByScore(l[j], l[i]);
    assert i < j < |r| ==> !ByScore(r[j], r[i]);
  }

  // The operation.

  function Min(a: int, b: int): (m: int)
    ensures m <= a && m <= b && (m == a || m == b)
  {
    if a < b then a else b
  }

  function Max(a: int, b: int): (m: int)
    ensures m >= a && m >= b && (m == a || m == b)
  {
    if a < b then b else a
  }

  function ShareTokens(context: int, params: Params): int {
    var tokens := (params.share * context as real).Floor;
    match params.legacyBudget
    case Some(budget) => Min(budget, tokens)
    case None => tokens
  }

  function RegularBudget(pins: seq<Candidate>, regular: seq<Candidate>, locked: set<int>, context: int, params: Params)
    : nat
  {
    Max(0, ShareTokens(context, params) - CostOf(RankedLocked(pins, regular, locked)))
  }

  predicate Eligible(pins: seq<Candidate>, regular: seq<Candidate>, locked: set<int>) {
    forall id :: id in locked ==> id in IdSet(pins) || id in IdSet(regular)
  }

  /** What a selection is, group by group. */
  ghost predicate SelectsFrom(r: Selected, pins: seq<Candidate>, regular: seq<Candidate>, locked: set<int>,
                              context: int, params: Params)
  {
    var ranked := RankedRegular(pins, regular, locked);
    var budget := RegularBudget(pins, regular, locked, context, params);
    var chosen := Chosen(ranked, params.tau, budget);
    && r.injected == RankedPins(pins) + RankedLocked(pins, regular, locked) + chosen
    && r.unselected == Unchosen(ranked, params.tau, budget)
    && r.nearMisses == r.unselected[..Min(params.nearMisses, |r.unselected|)]
    && r.budgetCuts == AtLeast(r.unselected, params.tau)
    && r.regularBudget == ShareTokens(context, params)
    && r.pinCost == CostOf(RankedPins(pins))
    && r.regularCost == CostOf(RankedLocked(pins, regular, locked)) + CostOf(chosen)
    && r.totalCost == r.pinCost + r.regularCost
    && r.pinnedOverflow == Min(r.pinCost, Max(0, r.totalCost - r.regularBudget))
  }

  /** The three ranked groups, or the refusal when a locked memory is no candidate. */
  method Rank(pins: seq<Candidate>, regular: seq<Candidate>, locked: set<int>)
    returns (r: Result<(seq<Scored>, seq<Scored>, seq<Scored>), SelectionError>)
    requires Partition(pins, regular)
    ensures r.Ok? <==> Eligible(pins, regular, locked)
    ensures r.Err? ==> r.error == LockedNotEligible
    ensures r.Ok?
      ==> r.value == (RankedPins(pins), RankedLocked(pins, regular, locked), RankedRegular(pins, regular, locked))
  {
    var lockedIds := locked - IdSet(pins);
    var lockedPool := Those(regular, lockedIds, true);
    var regularPool := Those(regular, lockedIds, false);
    LockedCount(pins, regular, locked);
    hide Those, SortBy, IdSet, Partition, Eligible;
    if |lockedPool| != |lockedIds| {
      return Err(LockedNotEligible);
    }
    var rankedPins := WithRanks(SortBy(ById, pins), 1);
    var rankedLocked := WithRanks(SortBy(ByScore, lockedPool), |rankedPins| + 1);
    var rankedRegular := WithRanks(SortBy(ByScore, regularPool), |rankedPins| + |rankedLocked| + 1);
    return Ok((rankedPins, rankedLocked, rankedRegular));
  }

  method ScoreAndSelect(pins: seq<Candidate>, regular: seq<Candidate>, locked: set<int>, context: int, params: Params)
    returns (r: Result<Selected, SelectionError>)
    ensures r.Ok? <==> context > 0 && Partition(pins, regular) && Eligible(pins, regular, locked)
    ensures r == Err(ContextNotPositive) <==> context <= 0
    ensures r == Err(BadPartition) <==> context > 0 && !Partition(pins, regular)
    ensures r.Ok? ==> SelectsFrom(r.value, pins, regular, locked, context, params)
  {
    if context <= 0 {
      return Err(ContextNotPositive);
    }
    var valid := ValidPartition(pins, regular);
    if !valid {
      return Err(BadPartition);
    }
    var ranking := Rank(pins, regular, locked);
    if ranking.Err? {
      return Err(ranking.error);
    }
    var (rankedPins, rankedLocked, rankedRegular) := ranking.value;
    hide *;
    var pinCost, lockedCost := CostOf(rankedPins), CostOf(rankedLocked);
    var shareTokens := ShareTokens(context, params);
    var remaining: nat := Max(0, shareTokens - lockedCost);
    var chosen, unchosen, cuts := Choose(rankedRegular, params.tau, remaining);
    var regularCost := lockedCost + CostOf(chosen);
    var totalCost := pinCost + regularCost;
    var nearMisses := unchosen[..Min(params.nearMisses, |unchosen|)];
    var overflow := Min(pinCost, Max(0, totalCost - shareTokens));
    var selected := Selected(rankedPins + rankedLocked + chosen, nearMisses, cuts, unchosen,
                             shareTokens, pinCost, regularCost, totalCost, overflow);
    SelectsUnfolded(selected, pins, regular, locked, context, params, remaining);
    return Ok(selected);
  }

  lemma SelectsUnfolded(r: Selected, pins: seq<Candidate>, regular: seq<Candidate>, locked: set<int>, context: int,
                        params: Params, budget: nat)
    requires budget == Max(0, ShareTokens(context, params) - CostOf(RankedLocked(pins, regular, locked)))
    ensures budget == RegularBudget(pins, regular, locked, context, params)
    ensures var ranked := RankedRegular(pins, regular, locked);
      var chosen := Chosen(ranked, params.tau, budget);
      SelectsFrom(r, pins, regular, locked, context, params) <==> (
        && r.injected == RankedPins(pins) + RankedLocked(pins, regular, locked) + chosen
        && r.unselected == Unchosen(ranked, params.tau, budget)
        && r.nearMisses == r.unselected[..Min(params.nearMisses, |r.unselected|)]
        && r.budgetCuts == AtLeast(r.unselected, params.tau)
        && r.regularBudget == ShareTokens(context, params)
        && r.pinCost == CostOf(RankedPins(pins))
        && r.regularCost == CostOf(RankedLocked(pins, regular, locked)) + CostOf(chosen)
        && r.totalCost == r.pinCost + r.regularCost
        && r.pinnedOverflow == Min(r.pinCost, Max(0, r.totalCost - r.regularBudget)))
  {
    hide RankedPins, RankedLocked, RankedRegular, ShareTokens, CostOf, Chosen, Unchosen, AtLeast;
  }

  method ValidPartition(pins: seq<Candidate>, regular: seq<Candidate>) returns (ok: bool)
    ensures ok <==> Partition(pins, regular)
  {
    if exists i :: 0 <= i < |pins| && !pins[i].pin {
      return false;
    }
    if exists i :: 0 <= i < |regular| && regular[i].pin {
      return false;
    }
    var ids := Ids(pins + regular);
    var distinct := SetOf(ids);
    ok := |distinct| == |ids|;
  }

  // Locked memories are counted.

  lemma {:induction false} ThoseMembers(items: seq<Candidate>, ids: set<int>, locked: bool, x: Candidate)
    ensures x in Those(items, ids, locked) <==> x in items && (x.memory in ids) == locked
  {
    if |items| > 0 {
      ThoseMembers(items[..|items| - 1], ids, locked, x);
      assert items == items[..|items| - 1] + [items[|items| - 1]];
    }
  }

  lemma IdSetGrows(items: seq<Candidate>)
    requires |items| > 0
    ensures IdSet(items) == IdSet(items[..|items| - 1]) + {items[|items| - 1].memory}
  {
    var n := |items| - 1;
    forall x | x in IdSet(items)
      ensures x in IdSet(items[..n]) + {items[n].memory}
    {
      var i :| 0 <= i < |items| && items[i].memory == x;
      assert i < n ==> items[..n][i].memory == x;
    }
  }

  lemma {:induction false} LockedIds(items: seq<Candidate>, ids: set<int>)
    requires forall i, j :: 0 <= i < j < |items| ==> items[i].memory != items[j].memory
    ensures |Those(items, ids, true)| == |ids * IdSet(items)|
  {
    if |items| > 0 {
      var n := |items| - 1;
      var m := items[n].memory;
      LockedIds(items[..n], ids);
      IdSetGrows(items);
      assert m !in IdSet(items[..n]);
      hide IdSet;
      OneMoreShared(ids, IdSet(items[..n]), m);
    } else {
      assert ids * IdSet(items) == {};
    }
  }

  lemma OneMoreShared(ids: set<int>, others: set<int>, m: int)
    requires m !in others
    ensures |ids * (others + {m})| == |ids * others| + if m in ids then 1 else 0
  {
    if m in ids {
      assert ids * (others + {m}) == ids * others + {m};
    } else {
      assert ids * (others + {m}) == ids * others;
    }
  }

  /** A subset as large as the whole is the whole. */
  lemma SameSize(a: set<int>, b: set<int>)
    requires a <= b && |a| == |b|
    ensures a == b
  {
    assert b == a + (b - a);
    assert |b| == |a| + |b - a|;
  }

  lemma RegularDistinct(pins: seq<Candidate>, regular: seq<Candidate>)
    requires Partition(pins, regular)
    ensures forall i, j :: 0 <= i < j < |regular| ==> regular[i].memory != regular[j].memory
  {
    forall i, j | 0 <= i < j < |regular|
      ensures regular[i].memory != regular[j].memory
    {
      assert (pins + regular)[|pins| + i] == regular[i] && (pins + regular)[|pins| + j] == regular[j];
    }
  }

  lemma LockedCount(pins: seq<Candidate>, regular: seq<Candidate>, locked: set<int>)
    requires Partition(pins, regular)
    ensures |Those(regular, locked - IdSet(pins), true)| == |locked - IdSet(pins)| <==> Eligible(pins, regular, locked)
  {
    var ids := locked - IdSet(pins);
    RegularDistinct(pins, regular);
    LockedIds(regular, ids);
    hide Those, IdSet, Partition;
    var inside := ids * IdSet(regular);
    if |inside| == |ids| {
      SameSize(inside, ids);
      forall id | id in locked
        ensures id in IdSet(pins) || id in IdSet(regular)
      {
        assert id in IdSet(pins) || id in inside;
      }
    }
    if Eligible(pins, regular, locked) {
      forall id | id in ids
        ensures id in inside
      {
        assert id in locked;
      }
      assert inside == ids;
    }
  }

  // What the selection guarantees.

  lemma RankedAllDistinct(pins: seq<Candidate>, regular: seq<Candidate>, locked: set<int>)
    ensures Distinct(RankedAll(pins, regular, locked)) && Distinct(RankedRegular(pins, regular, locked))
  {
    RanksAreComplete(pins, regular, locked);
    hide WithRanks, SortBy, Those, IdSet, RankedPins, RankedLocked;
    var all := RankedAll(pins, regular, locked);
    var r := RankedRegular(pins, regular, locked);
    var before := |all| - |r|;
    forall i, j | 0 <= i < j < |r|
      ensures r[i] != r[j]
    {
      assert r[i] == all[before + i] && r[j] == all[before + j];
    }
  }

  /**
   * The figures of a selection: the budget is the whole tokens of the share, or less if the legacy budget is less;
   * the near misses lead the unselected; what exceeds the budget is charged to the pins as far as they cost it.
   */
  lemma SelectionFigures(r: Selected, pins: seq<Candidate>, regular: seq<Candidate>, locked: set<int>, context: int,
                         params: Params)
    requires SelectsFrom(r, pins, regular, locked, context, params)
    ensures var share := params.share * context as real;
      && r.regularBudget as real <= share
      && (params.legacyBudget.Some? ==> r.regularBudget <= params.legacyBudget.value)
      && (r.regularBudget as real > share - 1.0
          || (params.legacyBudget.Some? && r.regularBudget == params.legacyBudget.value))
    ensures |r.nearMisses| <= params.nearMisses && r.nearMisses <= r.unselected
    ensures |r.nearMisses| < params.nearMisses ==> r.nearMisses == r.unselected
    ensures r.totalCost == r.pinCost + r.regularCost == CostOf(r.injected)
    ensures r.pinnedOverflow <= r.pinCost
    ensures r.totalCost <= r.regularBudget ==> r.pinnedOverflow == 0
    ensures r.totalCost > r.regularBudget ==>
      r.totalCost - r.pinnedOverflow == r.regularBudget
      || (r.pinnedOverflow == r.pinCost && r.regularCost >= r.regularBudget)
  {
    var a, b, c := RankedPins(pins), RankedLocked(pins, regular, locked),
      Chosen(RankedRegular(pins, regular, locked), params.tau, RegularBudget(pins, regular, locked, context, params));
    CostAdds(a, b);
    CostAdds(a + b, c);
    hide RankedPins, RankedLocked, RankedRegular, Chosen, Unchosen, AtLeast, CostOf, RegularBudget;
  }

  lemma {:induction false} CostAdds(a: seq<Scored>, b: seq<Scored>)
    ensures CostOf(a + b) == CostOf(a) + CostOf(b)
  {
    if |b| == 0 {
      assert a + b == a;
    } else {
      CostAdds(a, b[..|b| - 1]);
      assert (a + b)[..|a + b| - 1] == a + b[..|b| - 1];
    }
  }

  /** Every candidate is injected or unselected, once; regular ones cost no more than the share or the locked ones. */
  lemma SelectionPartitions(r: Selected, pins: seq<Candidate>, regular: seq<Candidate>, locked: set<int>, context: int,
                            params: Params)
    requires SelectsFrom(r, pins, regular, locked, context, params)
    ensures multiset(r.injected + r.unselected) == multiset(RankedAll(pins, regular, locked))
    ensures r.regularCost <= Max(r.regularBudget, CostOf(RankedLocked(pins, regular, locked)))
    ensures forall x :: x in r.budgetCuts <==> x in r.unselected && x.candidate.score >= params.tau
  {
    var ranked := RankedRegular(pins, regular, locked);
    var budget := RegularBudget(pins, regular, locked, context, params);
    ChoicesPartition(ranked, params.tau, budget);
    ChosenWithinBudget(ranked, params.tau, budget);
    AtLeastMembers(r.unselected, params.tau);
    hide RankedPins, RankedLocked, RankedRegular, Chosen, Unchosen, AtLeast, CostOf, ShareTokens;
  }

  lemma {:induction false} AtLeastMembers(items: seq<Scored>, tau: real)
    ensures forall x :: x in AtLeast(items, tau) <==> x in items && x.candidate.score >= tau
  {
    if |items| > 0 {
      var n := |items| - 1;
      AtLeastMembers(items[..n], tau);
      assert items == items[..n] + [items[n]];
    }
  }

  /** A regular memory is injected exactly when it reaches tau and fits after the regular choices ranked above it. */
  lemma RegularInjectedExactlyWhen(r: Selected, pins: seq<Candidate>, regular: seq<Candidate>, locked: set<int>,
                                   context: int, params: Params, k: nat)
    requires SelectsFrom(r, pins, regular, locked, context, params)
    requires k < |RankedRegular(pins, regular, locked)|
    ensures var ranked := RankedRegular(pins, regular, locked);
      var budget := RegularBudget(pins, regular, locked, context, params);
      ranked[k] in r.injected <==> (ranked[k].candidate.score >= params.tau
        && ranked[k].candidate.cost <= budget - CostOf(Chosen(ranked[..k], params.tau, budget)))
  {
    var ranked := RankedRegular(pins, regular, locked);
    var budget := RegularBudget(pins, regular, locked, context, params);
    RankedAllDistinct(pins, regular, locked);
    ChosenExactlyWhen(ranked, params.tau, budget, k);
    var first := RankedPins(pins) + RankedLocked(pins, regular, locked);
    RanksAreComplete(pins, regular, locked);
    hide RankedPins, RankedLocked, RankedRegular, Chosen, Unchosen, AtLeast, CostOf, ShareTokens;
    var all := RankedAll(pins, regular, locked);
    assert ranked[k] == all[|first| + k];
    forall i | 0 <= i < |first|
      ensures first[i] != ranked[k]
    {
      assert first[i] == all[i];
    }
  }

  lemma BudgetIgnoresTau(pins: seq<Candidate>, regular: seq<Candidate>, locked: set<int>, context: int, params: Params,
                         tau: real)
    ensures RegularBudget(pins, regular, locked, context, params.(tau := tau))
      == RegularBudget(pins, regular, locked, context, params)
  {
    hide RankedLocked, CostOf;
    assert params.(tau := tau).share == params.share && params.(tau := tau).legacyBudget == params.legacyBudget;
    assert ShareTokens(context, params.(tau := tau)) == ShareTokens(context, params);
  }

  /** Raising tau alone keeps pins and locked memories and filters the regular choices. */
  lemma RaisingTauKeepsTheRest(low: Selected, high: Selected, pins: seq<Candidate>, regular: seq<Candidate>,
                               locked: set<int>, context: int, params: Params, tau: real)
    requires params.tau <= tau
    requires SelectsFrom(low, pins, regular, locked, context, params)
    requires SelectsFrom(high, pins, regular, locked, context, params.(tau := tau))
    ensures var first := RankedPins(pins) + RankedLocked(pins, regular, locked);
      && |first| <= |low.injected|
      && high.injected == first + AtLeast(low.injected[|first|..], tau)
  {
    RegularFalls(pins, regular, locked);
    BudgetIgnoresTau(pins, regular, locked, context, params, tau);
    RaisingTauFilters(RankedRegular(pins, regular, locked), params.tau, tau,
      RegularBudget(pins, regular, locked, context, params));
    hide RankedPins, RankedLocked, RankedRegular, Chosen, Unchosen, AtLeast, CostOf, Falling, ShareTokens,
      RegularBudget;
    var first := RankedPins(pins) + RankedLocked(pins, regular, locked);
    assert low.injected[|first|..]
      == Chosen(RankedRegular(pins, regular, locked), params.tau,
         RegularBudget(pins, regular, locked, context, params));
  }

  /** No memory is both injected and unselected, or either twice. */
  lemma SelectedOnce(r: Selected, pins: seq<Candidate>, regular: seq<Candidate>, locked: set<int>, context: int,
                     params: Params)
    requires SelectsFrom(r, pins, regular, locked, context, params) && Partition(pins, regular)
    ensures OnceEach(r.injected + r.unselected)
  {
    var all := RankedAll(pins, regular, locked);
    var both := r.injected + r.unselected;
    SelectionPartitions(r, pins, regular, locked, context, params);
    RankedAllDistinct(pins, regular, locked);
    CandidatesOnce(pins, regular, locked);
    hide SelectsFrom, RankedAll, Partition, Max, OnceEach;
    Rearranged(all, both);
    OnceEachRearranged(all, both);
  }

  lemma OnceEachRearranged(a: seq<Scored>, b: seq<Scored>)
    requires multiset(a) == multiset(b) && OnceEach(a) && Distinct(b)
    ensures OnceEach(b)
  {
    forall i, j | 0 <= i < j < |b|
      ensures b[i].candidate.memory != b[j].candidate.memory
    {
      assert b[i] in multiset(b) && b[j] in multiset(b);
      assert b[i] in a && b[j] in a && b[i] != b[j];
      var m :| 0 <= m < |a| && a[m] == b[i];
      var n :| 0 <= n < |a| && a[n] == b[j];
      assert m != n;
    }
  }

  ghost predicate OnceEach(items: seq<Scored>) {
    forall i, j :: 0 <= i < j < |items| ==> items[i].candidate.memory != items[j].candidate.memory
  }

  lemma Rearranged(a: seq<Scored>, b: seq<Scored>)
    requires multiset(a) == multiset(b) && Distinct(a)
    ensures Distinct(b)
  {
    forall i, j | 0 <= i < j < |b|
      ensures b[i] != b[j]
    {
      if b[i] == b[j] {
        TwiceCounts(b, i, j);
        OnceCounts(a, b[i]);
      }
    }
  }

  lemma CandidatesOnce(pins: seq<Candidate>, regular: seq<Candidate>, locked: set<int>)
    requires Partition(pins, regular)
    ensures OnceEach(RankedAll(pins, regular, locked))
  {
    var all := RankedAll(pins, regular, locked);
    RanksAreComplete(pins, regular, locked);
    hide RankedAll;
    var cs := CandidatesOf(all);
    var given := pins + regular;
    forall i, j | 0 <= i < j < |given|
      ensures given[i] != given[j]
    {
      assert given[i].memory != given[j].memory;
    }
    forall i, j | 0 <= i < j < |all|
      ensures all[i].candidate.memory != all[j].candidate.memory
    {
      if cs[i] == cs[j] {
        TwiceCounts(cs, i, j);
        OnceCounts(given, cs[i]);
      } else {
        assert cs[i] in multiset(cs) && cs[j] in multiset(cs);
        assert cs[i] in given && cs[j] in given;
        var a :| 0 <= a < |given| && given[a] == cs[i];
        var b :| 0 <= b < |given| && given[b] == cs[j];
      }
    }
  }
}
