/**
 * Capping the training corpus: whole gates only, one thread after the other in turn, newest and oldest history
 * alternating.
 */
module Corpus {
  import opened Outcomes

  /** The fields of a learning example that balancing reads. */
  datatype Disposition = Disposition(eventUid: string, injection: int, thread: Option<string>, ts: int)

  type Gate = seq<Disposition>

  datatype CorpusError = CrossesThreads(injection: int) | ExceedsMaximum(injection: int)

  // Newest and oldest in turn.

  function Spread(history: seq<Gate>, newest: bool): (r: seq<Gate>)
    ensures |r| == |history|
  {
    var n := |history|;
    if n == 0 then []
    else if newest then [history[n - 1]] + Spread(history[..n - 1], false)
    else [history[0]] + Spread(history[1..], true)
  }

  /** The deque loop: pop from the newest end, then from the oldest, and so on. */
  method SpreadOut(chronological: seq<Gate>) returns (spread: seq<Gate>)
    ensures spread == Spread(chronological, true)
  {
    spread := [];
    var history, newest := chronological, true;
    while |history| > 0
      invariant spread + Spread(history, newest) == Spread(chronological, true)
      decreases |history|
    {
      ghost var whole := spread + Spread(history, newest);
      if newest {
        spread := spread + [history[|history| - 1]];
        history := history[..|history| - 1];
      } else {
        spread := spread + [history[0]];
        history := history[1..];
      }
      newest := !newest;
      assert spread + Spread(history, newest) == whole;
    }
  }

  /** How many of the first k come from the newest end, and how many from the oldest. */
  function FromNew(newest: bool, k: nat): nat {
    if newest then (k + 1) / 2 else k / 2
  }

  ghost function BothEnds(history: seq<Gate>, newest: bool, k: nat): multiset<Gate>
    requires k <= |history|
  {
    multiset(history[|history| - FromNew(newest, k)..]) + multiset(history[..k - FromNew(newest, k)])
  }

  /** How often a gate is among those taken from the two ends. */
  ghost function AtEnds(history: seq<Gate>, newest: bool, k: nat, gate: Gate): nat
    requires k <= |history|
  {
    multiset(history[|history| - FromNew(newest, k)..])[gate] + multiset(history[..k - FromNew(newest, k)])[gate]
  }

  function Once(same: bool): nat {
    if same then 1 else 0
  }

  lemma FirstCounts(first: Gate, rest: seq<Gate>, gate: Gate)
    ensures multiset([first] + rest)[gate] == Once(first == gate) + multiset(rest)[gate]
  {
  }

  lemma LastCounts(rest: seq<Gate>, last: Gate, gate: Gate)
    ensures multiset(rest + [last])[gate] == multiset(rest)[gate] + Once(last == gate)
  {
  }

  lemma NewestJoins(history: seq<Gate>, k: nat, gate: Gate)
    requires 0 < k <= |history|
    ensures var n := |history|;
      AtEnds(history, true, k, gate) == Once(history[n - 1] == gate) + AtEnds(history[..n - 1], false, k - 1, gate)
  {
    var n := |history|;
    var rest, a := history[..n - 1], FromNew(true, k);
    assert FromNew(false, k - 1) == a - 1;
    assert history[n - a..] == rest[n - a..] + [history[n - 1]];
    assert history[..k - a] == rest[..k - a];
    hide FromNew;
    LastCounts(rest[n - a..], history[n - 1], gate);
  }

  lemma OldestJoins(history: seq<Gate>, k: nat, gate: Gate)
    requires 0 < k <= |history|
    ensures AtEnds(history, false, k, gate) == Once(history[0] == gate) + AtEnds(history[1..], true, k - 1, gate)
  {
    var n := |history|;
    var rest, a := history[1..], FromNew(false, k);
    assert FromNew(true, k - 1) == a;
    assert history[n - a..] == rest[n - 1 - a..];
    assert history[..k - a] == [history[0]] + rest[..k - 1 - a];
    hide FromNew;
    FirstCounts(history[0], rest[..k - 1 - a], gate);
  }

  lemma HeadOfPrefix(first: Gate, rest: seq<Gate>, k: nat, gate: Gate)
    requires 0 < k <= |rest| + 1
    ensures multiset(([first] + rest)[..k])[gate] == Once(first == gate) + multiset(rest[..k - 1])[gate]
  {
    assert ([first] + rest)[..k] == [first] + rest[..k - 1];
    FirstCounts(first, rest[..k - 1], gate);
  }

  lemma SpreadUnfolds(history: seq<Gate>, newest: bool)
    requires |history| > 0
    ensures var n := |history|;
      Spread(history, newest) ==
        if newest then [history[n - 1]] + Spread(history[..n - 1], false) else [history[0]] + Spread(history[1..], true)
  {
  }

  lemma NothingFromEnds(history: seq<Gate>, newest: bool, gate: Gate)
    ensures multiset(Spread(history, newest)[..0])[gate] == 0 == AtEnds(history, newest, 0, gate)
  {
    assert Spread(history, newest)[..0] == [] && history[|history|..] == [] && history[..0] == [];
  }

  lemma {:induction false} SpreadCounts(history: seq<Gate>, newest: bool, k: nat, gate: Gate)
    requires k <= |history|
    ensures multiset(Spread(history, newest)[..k])[gate] == AtEnds(history, newest, k, gate)
    decreases k
  {
    hide AtEnds, Spread;
    if k == 0 {
      NothingFromEnds(history, newest, gate);
    } else {
      SpreadUnfolds(history, newest);
      if newest {
        var n := |history|;
        SpreadCounts(history[..n - 1], false, k - 1, gate);
        NewestJoins(history, k, gate);
        HeadOfPrefix(history[n - 1], Spread(history[..n - 1], false), k, gate);
      } else {
        SpreadCounts(history[1..], true, k - 1, gate);
        OldestJoins(history, k, gate);
        HeadOfPrefix(history[0], Spread(history[1..], true), k, gate);
      }
    }
  }

  /** The first k of a spread are its ceil(k/2) newest and floor(k/2) oldest gates. */
  lemma SpreadTakesBothEnds(history: seq<Gate>, newest: bool, k: nat)
    requires k <= |history|
    ensures multiset(Spread(history, newest)[..k]) == BothEnds(history, newest, k)
  {
    var first := multiset(Spread(history, newest)[..k]);
    hide Spread;
    forall gate
      ensures first[gate] == BothEnds(history, newest, k)[gate]
    {
      hide BothEnds;
      SpreadCounts(history, newest, k, gate);
      EndsCount(history, newest, k, gate);
    }
    hide BothEnds;
  }

  lemma EndsCount(history: seq<Gate>, newest: bool, k: nat, gate: Gate)
    requires k <= |history|
    ensures BothEnds(history, newest, k)[gate] == AtEnds(history, newest, k, gate)
  {
  }

  // What has been taken.

  function RowsOf(gates: seq<Gate>): (r: seq<Disposition>) {
    if |gates| == 0 then [] else RowsOf(gates[..|gates| - 1]) + gates[|gates| - 1]
  }

  ghost predicate Taking(spreads: seq<seq<Gate>>, taken: seq<nat>) {
    |taken| == |spreads| && forall i :: 0 <= i < |spreads| ==> taken[i] <= |spreads[i]|
  }

  /** All rows taken, thread by thread, as a multiset. */
  ghost function TakenRows(spreads: seq<seq<Gate>>, taken: seq<nat>): multiset<Disposition>
    requires Taking(spreads, taken)
  {
    if |spreads| == 0 then multiset{}
    else
      var n := |spreads| - 1;
      TakenRows(spreads[..n], taken[..n]) + multiset(RowsOf(spreads[n][..taken[n]]))
  }

  /** The thread's next gate exists and still fits. */
  ghost predicate NextFits(spreads: seq<seq<Gate>>, taken: seq<nat>, remaining: int, i: int)
    requires Taking(spreads, taken) && 0 <= i < |spreads|
  {
    taken[i] < |spreads[i]| && |spreads[i][taken[i]]| <= remaining
  }

  /** No thread is more than one gate ahead of any thread whose next gate still fits. */
  ghost predicate Fair(spreads: seq<seq<Gate>>, taken: seq<nat>, remaining: int)
    requires Taking(spreads, taken)
  {
    forall t, u :: 0 <= t < |spreads| && 0 <= u < |spreads| && NextFits(spreads, taken, remaining, u)
      ==> taken[t] <= taken[u] + 1
  }

  lemma OneGateMore(gates: seq<Gate>, k: nat, row: Disposition)
    requires k < |gates|
    ensures multiset(RowsOf(gates[..k + 1]))[row] == multiset(RowsOf(gates[..k]))[row] + multiset(gates[k])[row]
  {
    assert gates[..k + 1][..k] == gates[..k];
  }

  lemma TakenUnfolds(spreads: seq<seq<Gate>>, taken: seq<nat>, row: Disposition)
    requires Taking(spreads, taken) && |spreads| > 0
    ensures var n := |spreads| - 1;
      && Taking(spreads[..n], taken[..n])
      && TakenRows(spreads, taken)[row]
           == TakenRows(spreads[..n], taken[..n])[row] + multiset(RowsOf(spreads[n][..taken[n]]))[row]
  {
  }

  lemma {:induction false} TakeOneCounts(spreads: seq<seq<Gate>>, taken: seq<nat>, i: nat, row: Disposition)
    requires Taking(spreads, taken) && i < |spreads| && taken[i] < |spreads[i]|
    ensures Taking(spreads, taken[i := taken[i] + 1])
    ensures TakenRows(spreads, taken[i := taken[i] + 1])[row]
      == TakenRows(spreads, taken)[row] + multiset(spreads[i][taken[i]])[row]
    decreases |spreads|
  {
    var n := |spreads| - 1;
    var next := taken[i := taken[i] + 1];
    TakenUnfolds(spreads, taken, row);
    TakenUnfolds(spreads, next, row);
    hide RowsOf, TakenRows;
    if i == n {
      assert next[..n] == taken[..n];
      OneGateMore(spreads[n], taken[n], row);
    } else {
      TakeOneCounts(spreads[..n], taken[..n], i, row);
      assert next[..n] == taken[..n][i := taken[i] + 1];
    }
  }

  lemma TakeOne(spreads: seq<seq<Gate>>, taken: seq<nat>, i: nat)
    requires Taking(spreads, taken) && i < |spreads| && taken[i] < |spreads[i]|
    ensures Taking(spreads, taken[i := taken[i] + 1])
    ensures TakenRows(spreads, taken[i := taken[i] + 1]) == TakenRows(spreads, taken) + multiset(spreads[i][taken[i]])
  {
    var next := taken[i := taken[i] + 1];
    assert Taking(spreads, next);
    hide TakenRows;
    forall row
      ensures TakenRows(spreads, next)[row] == (TakenRows(spreads, taken) + multiset(spreads[i][taken[i]]))[row]
    {
      TakeOneCounts(spreads, taken, i, row);
    }
  }

  lemma {:induction false} NothingTaken(spreads: seq<seq<Gate>>)
    ensures TakenRows(spreads, seq(|spreads|, _ => 0)) == multiset{}
  {
    if |spreads| > 0 {
      var n := |spreads| - 1;
      NothingTaken(spreads[..n]);
      assert seq(|spreads|, _ => 0)[..n] == seq(n, _ => 0);
      assert spreads[n][..0] == [];
    }
  }

  ghost function Everything(spreads: seq<seq<Gate>>): (r: seq<nat>)
    ensures |r| == |spreads| && forall i :: 0 <= i < |spreads| ==> r[i] == |spreads[i]|
  {
    seq(|spreads|, i requires 0 <= i < |spreads| => |spreads[i]|)
  }

  ghost function RowCount(spreads: seq<seq<Gate>>, taken: seq<nat>): nat
    requires Taking(spreads, taken)
  {
    if |spreads| == 0 then 0
    else
      var n := |spreads| - 1;
      RowCount(spreads[..n], taken[..n]) + |RowsOf(spreads[n][..taken[n]])|
  }

  lemma {:induction false} RowCountCounts(spreads: seq<seq<Gate>>, taken: seq<nat>)
    requires Taking(spreads, taken)
    ensures |TakenRows(spreads, taken)| == RowCount(spreads, taken)
  {
    if |spreads| > 0 {
      RowCountCounts(spreads[..|spreads| - 1], taken[..|spreads| - 1]);
    }
  }

  /** If a thread has a gate left, what is taken plus that gate is no more than everything. */
  lemma {:induction false} LeftoverBounded(spreads: seq<seq<Gate>>, taken: seq<nat>, i: nat)
    requires Taking(spreads, taken) && i < |spreads| && taken[i] < |spreads[i]|
    ensures RowCount(spreads, taken) + |spreads[i][taken[i]]| <= RowCount(spreads, Everything(spreads))
    decreases |spreads|
  {
    var n := |spreads| - 1;
    var all := Everything(spreads);
    assert all[..n] == Everything(spreads[..n]);
    PrefixRows(spreads[n], taken[n]);
    assert spreads[n][..|spreads[n]|] == spreads[n];
    if i == n {
      TakenBounded(spreads[..n], taken[..n]);
    } else {
      LeftoverBounded(spreads[..n], taken[..n], i);
    }
  }

  lemma {:induction false} TakenBounded(spreads: seq<seq<Gate>>, taken: seq<nat>)
    requires Taking(spreads, taken)
    ensures RowCount(spreads, taken) <= RowCount(spreads, Everything(spreads))
  {
    if |spreads| > 0 {
      var n := |spreads| - 1;
      assert Everything(spreads)[..n] == Everything(spreads[..n]);
      TakenBounded(spreads[..n], taken[..n]);
      PrefixRows(spreads[n], taken[n]);
      assert spreads[n][..|spreads[n]|] == spreads[n];
    }
  }

  lemma {:induction false} PrefixRows(gates: seq<Gate>, k: nat)
    requires k <= |gates|
    ensures |RowsOf(gates[..k])| <= |RowsOf(gates)|
    ensures k < |gates| ==> |RowsOf(gates[..k])| + |gates[k]| <= |RowsOf(gates)|
    decreases |gates|
  {
    var n := |gates| - 1;
    if k < |gates| {
      if k < n {
        PrefixRows(gates[..n], k);
        assert gates[..n][..k] == gates[..k];
      } else {
        assert gates[..k] == gates[..n];
      }
    } else {
      assert gates[..k] == gates;
    }
  }

  // The round robin.

  ghost predicate Gates(spreads: seq<seq<Gate>>) {
    forall i, k :: 0 <= i < |spreads| && 0 <= k < |spreads[i]| ==> |spreads[i][k]| > 0
  }

  /** During a pass: threads before j had their turn, and a thread whose next gate fits never missed one. */
  ghost predicate InTurn(spreads: seq<seq<Gate>>, taken: seq<nat>, remaining: int, pass: nat, j: nat)
    requires Taking(spreads, taken)
  {
    forall i :: 0 <= i < |spreads| ==>
      var turns := if i < j then pass + 1 else pass;
      taken[i] <= turns && (NextFits(spreads, taken, remaining, i) ==> taken[i] == turns)
  }

  lemma InTurnIsFair(spreads: seq<seq<Gate>>, taken: seq<nat>, remaining: int, pass: nat, j: nat)
    requires Taking(spreads, taken) && InTurn(spreads, taken, remaining, pass, j)
    ensures Fair(spreads, taken, remaining)
  {
  }

  /** The states after each pick, each of them fair. */
  ghost predicate FairThroughout(spreads: seq<seq<Gate>>, states: seq<(seq<nat>, int)>) {
    forall k :: 0 <= k < |states| ==> Taking(spreads, states[k].0) && Fair(spreads, states[k].0, states[k].1)
  }

  /** Every state but the first takes exactly one more gate than the one before it. */
  ghost predicate OneByOne(spreads: seq<seq<Gate>>, cap: nat, states: seq<(seq<nat>, int)>) {
    && |states| > 0 && states[0] == (seq(|spreads|, _ => 0), cap as int)
    && forall k :: 0 < k < |states| ==> Picked(spreads, states[k - 1], states[k])
  }

  ghost predicate Picked(spreads: seq<seq<Gate>>, a: (seq<nat>, int), b: (seq<nat>, int)) {
    exists i :: 0 <= i < |spreads| && |a.0| == |spreads| && a.0[i] < |spreads[i]|
      && b == (a.0[i := a.0[i] + 1], a.1 - |spreads[i][a.0[i]]|)
  }

  ghost predicate NothingFits(spreads: seq<seq<Gate>>, taken: seq<nat>, remaining: int)
    requires Taking(spreads, taken)
  {
    forall i :: 0 <= i < |spreads| ==> !NextFits(spreads, taken, remaining, i)
  }

  /** What holds after every pick: the rows selected are the rows taken, and every state so far was fair. */
  ghost predicate Running(spreads: seq<seq<Gate>>, cap: nat, taken: seq<nat>, selected: seq<Disposition>,
                          states: seq<(seq<nat>, int)>)
  {
    && Taking(spreads, taken) && |selected| <= cap
    && multiset(selected) == TakenRows(spreads, taken)
    && OneByOne(spreads, cap, states) && FairThroughout(spreads, states)
    && states[|states| - 1] == (taken, cap - |selected|)
  }

  lemma PickKeepsRunning(spreads: seq<seq<Gate>>, cap: nat, taken: seq<nat>, selected: seq<Disposition>,
                         states: seq<(seq<nat>, int)>, pass: nat, j: nat)
    requires Running(spreads, cap, taken, selected, states) && j < |spreads|
    requires NextFits(spreads, taken, cap - |selected|, j) && InTurn(spreads, taken, cap - |selected|, pass, j)
    ensures var gate, next := spreads[j][taken[j]], taken[j := taken[j] + 1];
      && Running(spreads, cap, next, selected + gate, states + [(next, cap - |selected| - |gate|)])
      && InTurn(spreads, next, cap - |selected| - |gate|, pass, j + 1)
  {
    var gate, next := spreads[j][taken[j]], taken[j := taken[j] + 1];
    var left := cap - |selected| - |gate|;
    TakeOne(spreads, taken, j);
    PickInTurn(spreads, taken, cap - |selected|, pass, j);
    InTurnIsFair(spreads, next, left, pass, j + 1);
    hide TakenRows, InTurn, Fair, OneByOne, FairThroughout, Taking;
    Extend(spreads, cap, states, (taken, cap - |selected|), (next, left), j);
    assert multiset(selected + gate) == multiset(selected) + multiset(gate);
  }

  /** One pass over the threads, each giving its next gate if it still fits, stopping when nothing remains. */
  method OnePass(spreads: seq<seq<Gate>>, cap: nat, taken0: seq<nat>, selected0: seq<Disposition>,
                 ghost states0: seq<(seq<nat>, int)>, ghost pass: nat)
    returns (taken: seq<nat>, selected: seq<Disposition>, ghost states: seq<(seq<nat>, int)>, progress: bool)
    requires Gates(spreads) && Running(spreads, cap, taken0, selected0, states0)
    requires InTurn(spreads, taken0, cap - |selected0|, pass, 0)
    ensures Running(spreads, cap, taken, selected, states)
    ensures InTurn(spreads, taken, cap - |selected|, pass + 1, 0)
    ensures |selected0| <= |selected| && (progress <==> |selected0| < |selected|)
    ensures !progress && |selected| < cap ==> NothingFits(spreads, taken, cap - |selected|)
  {
    hide TakenRows, OneByOne, FairThroughout;
    taken, selected, states, progress := taken0, selected0, states0, false;
    var remaining := cap - |selected|;
    var j := 0;
    while j < |spreads| && remaining > 0
      invariant 0 <= j <= |spreads| && remaining == cap - |selected|
      invariant Running(spreads, cap, taken, selected, states)
      invariant InTurn(spreads, taken, remaining, pass, j)
      invariant |selected0| <= |selected| && (progress <==> |selected0| < |selected|)
      invariant !progress ==> forall i :: 0 <= i < j ==> !NextFits(spreads, taken, remaining, i)
    {
      if taken[j] < |spreads[j]| && |spreads[j][taken[j]]| <= remaining {
        PickKeepsRunning(spreads, cap, taken, selected, states, pass, j);
        var gate := spreads[j][taken[j]];
        selected := selected + gate;
        remaining := remaining - |gate|;
        taken := taken[j := taken[j] + 1];
        states := states + [(taken, remaining as int)];
        progress := true;
      }
      j := j + 1;
    }
    if remaining == 0 {
      PassCutShort(spreads, taken, pass, j);
    }
  }

  /**
   * The threads in turn, while anything remains, something is queued and the last pass made progress:
   * whole gates only, never over the cap, every state on the way fair, and everything when everything fits.
   */
  method RoundRobin(spreads: seq<seq<Gate>>, cap: nat)
    returns (taken: seq<nat>, selected: seq<Disposition>, ghost states: seq<(seq<nat>, int)>)
    requires Gates(spreads)
    ensures Running(spreads, cap, taken, selected, states)
    ensures NothingFits(spreads, taken, cap - |selected|)
    ensures |TakenRows(spreads, Everything(spreads))| <= cap ==> taken == Everything(spreads)
  {
    taken, selected := seq(|spreads|, _ => 0), [];
    states := [(taken, cap as int)];
    NothingTaken(spreads);
    ghost var pass := 0;
    var progress := true;
    while |selected| < cap && progress && exists i :: 0 <= i < |spreads| && taken[i] < |spreads[i]|
      invariant Running(spreads, cap, taken, selected, states)
      invariant InTurn(spreads, taken, cap - |selected|, pass, 0)
      invariant !progress && |selected| < cap ==> NothingFits(spreads, taken, cap - |selected|)
      decreases cap - |selected|, if progress then 1 else 0
    {
      hide TakenRows, OneByOne, FairThroughout, InTurn, NothingFits;
      taken, selected, states, progress := OnePass(spreads, cap, taken, selected, states, pass);
      pass := pass + 1;
    }
    EndedFull(spreads, cap, taken, selected);
  }

  /** If all rows together are within the cap, a gate that is left over fits. */
  lemma LeftoverFits(spreads: seq<seq<Gate>>, cap: nat, taken: seq<nat>, selected: seq<Disposition>, i: nat)
    requires Taking(spreads, taken) && multiset(selected) == TakenRows(spreads, taken)
    requires |TakenRows(spreads, Everything(spreads))| <= cap && i < |spreads| && taken[i] < |spreads[i]|
    ensures NextFits(spreads, taken, cap - |selected|, i)
  {
    LeftoverBounded(spreads, taken, i);
    RowCountCounts(spreads, taken);
    RowCountCounts(spreads, Everything(spreads));
    CardinalityOf(selected);
  }

  lemma EndedFull(spreads: seq<seq<Gate>>, cap: nat, taken: seq<nat>, selected: seq<Disposition>)
    requires Taking(spreads, taken) && multiset(selected) == TakenRows(spreads, taken)
    requires NothingFits(spreads, taken, cap - |selected|)
    ensures |TakenRows(spreads, Everything(spreads))| <= cap ==> taken == Everything(spreads)
  {
    if |TakenRows(spreads, Everything(spreads))| <= cap {
      forall i | 0 <= i < |spreads|
        ensures taken[i] == |spreads[i]|
      {
        if taken[i] < |spreads[i]| {
          LeftoverFits(spreads, cap, taken, selected, i);
        }
      }
    }
  }

  lemma CardinalityOf(s: seq<Disposition>)
    ensures |multiset(s)| == |s|
  {
  }

  lemma PickInTurn(spreads: seq<seq<Gate>>, taken: seq<nat>, remaining: int, pass: nat, j: nat)
    requires Taking(spreads, taken) && j < |spreads| && NextFits(spreads, taken, remaining, j)
    requires InTurn(spreads, taken, remaining, pass, j)
    ensures var next := taken[j := taken[j] + 1];
      Taking(spreads, next) && InTurn(spreads, next, remaining - |spreads[j][taken[j]]|, pass, j + 1)
  {
    var next := taken[j := taken[j] + 1];
    var left := remaining - |spreads[j][taken[j]]|;
    forall i | 0 <= i < |spreads| && i != j
      ensures NextFits(spreads, next, left, i) ==> NextFits(spreads, taken, remaining, i)
    {
      assert next[i] == taken[i];
    }
  }

  /** With nothing remaining no gate fits, so the turns not taken in this pass are not missed. */
  lemma PassCutShort(spreads: seq<seq<Gate>>, taken: seq<nat>, pass: nat, j: nat)
    requires Taking(spreads, taken) && Gates(spreads) && InTurn(spreads, taken, 0, pass, j)
    ensures InTurn(spreads, taken, 0, pass + 1, 0)
  {
    forall i | 0 <= i < |spreads|
      ensures !NextFits(spreads, taken, 0, i) && taken[i] <= pass + 1
    {
    }
  }

  lemma Extend(spreads: seq<seq<Gate>>, cap: nat, states: seq<(seq<nat>, int)>, last: (seq<nat>, int),
               next: (seq<nat>, int), i: nat)
    requires OneByOne(spreads, cap, states) && FairThroughout(spreads, states) && states[|states| - 1] == last
    requires i < |spreads| && |last.0| == |spreads| && last.0[i] < |spreads[i]|
    requires next == (last.0[i := last.0[i] + 1], last.1 - |spreads[i][last.0[i]]|)
    requires Taking(spreads, next.0) && Fair(spreads, next.0, next.1)
    ensures OneByOne(spreads, cap, states + [next]) && FairThroughout(spreads, states + [next])
  {
    var more := states + [next];
    assert Picked(spreads, last, next);
    hide Fair, Picked;
    forall k | 0 < k < |more|
      ensures Picked(spreads, more[k - 1], more[k])
    {
      if k < |states| {
        assert Picked(spreads, states[k - 1], states[k]);
      }
    }
    forall k | 0 <= k < |more|
      ensures Taking(spreads, more[k].0) && Fair(spreads, more[k].0, more[k].1)
    {
      if k < |states| {
        assert more[k] == states[k];
      }
    }
  }
}
