/** What the balanced corpus shows, in terms of its rows alone. */
module BalancingEffects {
  import opened Outcomes
  import opened Sorting
  import opened Ordering
  import opened Corpus
  import opened Balancing

  /** Selected rows come by time, then by injection, then by event. */
  lemma SelectionOrder(rows: seq<Disposition>, i: nat, j: nat)
    requires SortedBy(SelectedBefore, rows) && i < j < |rows|
    ensures var a, b := rows[i], rows[j];
      a.ts < b.ts
      || (a.ts == b.ts && a.injection < b.injection)
      || (a.ts == b.ts && a.injection == b.injection && !StrLess(b.eventUid, a.eventUid))
  {
    assert !SelectedBefore(rows[j], rows[i]);
  }

  /** The rows of a gate come by time, then by event. */
  lemma GateOrder(examples: seq<Disposition>, id: int, i: nat, j: nat)
    requires i < j < |GateOf(examples, id)|
    ensures var a, b := GateOf(examples, id)[i], GateOf(examples, id)[j];
      && a.injection == b.injection == id
      && (a.ts < b.ts || (a.ts == b.ts && !StrLess(b.eventUid, a.eventUid)))
  {
    KeyOrders();
    SortSorts(RowBefore, Bucket(InjectionOf, examples, id));
    var gate := GateOf(examples, id);
    assert !RowBefore(gate[j], gate[i]);
    GateRows(examples, id, gate[i]);
    GateRows(examples, id, gate[j]);
    assert gate[i] in gate && gate[j] in gate;
  }

  /** A gate is as new as its newest row. */
  lemma {:induction false} NewestIs(gate: Gate)
    requires |gate| > 0
    ensures forall x :: x in gate ==> x.ts <= Newest(gate)
    ensures exists x :: x in gate && x.ts == Newest(gate)
  {
    var n := |gate| - 1;
    assert gate == gate[..n] + [gate[n]];
    assert gate[n] in gate;
    if n > 0 {
      NewestIs(gate[..n]);
    }
  }

  /** The text under which a row's thread is queued. */
  ghost predicate Queued(e: Disposition, text: string) {
    e.thread == Some(text) || (e.thread == None && text == "not_recorded")
  }

  lemma GatesQueued(examples: seq<Disposition>, g: Gate, e: Disposition, text: string)
    requires OneThreadEach(examples) && g in AllGates(examples) && e in g
    ensures GateThread(g) == text <==> Queued(e, text)
  {
    var ids := Injections(examples);
    var i :| 0 <= i < |AllGates(examples)| && AllGates(examples)[i] == g;
    assert g == GateOf(examples, ids[i]);
    assert g[0] in g;
    GateRows(examples, ids[i], g[0]);
    GateRows(examples, ids[i], e);
  }

  lemma GateHolds(examples: seq<Disposition>, e: Disposition) returns (g: Gate)
    requires e in examples
    ensures g in AllGates(examples) && e in g
  {
    var ids := Injections(examples);
    InjectionsAreThose(examples);
    hide Injections;
    assert e.injection in ids;
    var i :| 0 <= i < |ids| && ids[i] == e.injection;
    g := AllGates(examples)[i];
    GateRows(examples, ids[i], e);
  }

  lemma {:induction false} GatesAreFilled(examples: seq<Disposition>, g: Gate)
    requires g in AllGates(examples)
    ensures |g| > 0
  {
    var ids := Injections(examples);
    InjectionsAreThose(examples);
    hide Injections;
    var i :| 0 <= i < |AllGates(examples)| && AllGates(examples)[i] == g;
    assert ids[i] in ids;
    var e :| e in examples && e.injection == ids[i];
    GateRows(examples, ids[i], e);
  }

  /** The queues are the texts of the rows' threads, ascending. */
  lemma ThreadsRead(examples: seq<Disposition>, text: string, i: nat, j: nat)
    requires OneThreadEach(examples)
    ensures text in ThreadsOf(AllGates(examples)) <==> exists e :: e in examples && Queued(e, text)
    ensures i < j < |ThreadsOf(AllGates(examples))| ==>
      !StrLess(ThreadsOf(AllGates(examples))[j], ThreadsOf(AllGates(examples))[i])
      && ThreadsOf(AllGates(examples))[i] != ThreadsOf(AllGates(examples))[j]
  {
    var gates := AllGates(examples);
    ThreadsAreThose(gates);
    ThreadsFrom(gates, text);
    hide AllGates, ThreadsOf, OneThreadEach;
    if text in ThreadsOf(gates) {
      var k :| 0 <= k < |gates| && GateThread(gates[k]) == text;
      GatesAreFilled(examples, gates[k]);
      var e := gates[k][0];
      assert e in gates[k];
      GatesQueued(examples, gates[k], e, text);
      RowOfGate(examples, gates[k], e);
    }
    if exists e :: e in examples && Queued(e, text) {
      var e :| e in examples && Queued(e, text);
      var g := GateHolds(examples, e);
      GatesQueued(examples, g, e, text);
      var k :| 0 <= k < |gates| && gates[k] == g;
    }
  }

  lemma RowOfGate(examples: seq<Disposition>, g: Gate, e: Disposition)
    requires g in AllGates(examples) && e in g
    ensures e in examples
  {
    var ids := Injections(examples);
    var i :| 0 <= i < |AllGates(examples)| && AllGates(examples)[i] == g;
    GateRows(examples, ids[i], e);
  }

  lemma ThreadsFrom(gates: seq<Gate>, text: string)
    ensures text in ThreadsOf(gates) ==> exists k :: 0 <= k < |gates| && GateThread(gates[k]) == text
  {
    var keys := KeysOf(GateThread, gates);
    DedupMembers(keys);
    SortSameMembers(StrLess, Dedup(keys), text);
    if text in ThreadsOf(gates) {
      assert text in keys;
      var k :| 0 <= k < |keys| && keys[k] == text;
      assert GateThread(gates[k]) == text;
    }
  }

  /**
   * The history of a queue holds exactly the gates whose rows are of its thread, oldest first by newest row, equally
   * new ones by injection.
   */
  lemma HistoryReads(examples: seq<Disposition>, text: string, g: Gate, e: Disposition, i: nat, j: nat)
    requires OneThreadEach(examples)
    ensures g in AllGates(examples) && e in g ==>
      (g in Chronological(AllGates(examples), text) <==> Queued(e, text))
    ensures var h := Chronological(AllGates(examples), text);
      i < j < |h| ==>
        && |h[i]| > 0 && |h[j]| > 0
        && (Newest(h[i]) < Newest(h[j])
            || (Newest(h[i]) == Newest(h[j]) && h[i][0].injection <= h[j][0].injection))
  {
    var gates := AllGates(examples);
    var pool := Bucket(GateThread, gates, text);
    var h := Chronological(gates, text);
    BucketMembers(GateThread, gates, text);
    SortSameMembers(GateBefore, pool, g);
    KeyOrders();
    SortSorts(GateBefore, pool);
    if g in gates && e in g {
      GatesQueued(examples, g, e, text);
    }
    if i < j < |h| {
      SortSameMembers(GateBefore, pool, h[i]);
      SortSameMembers(GateBefore, pool, h[j]);
      GatesAreFilled(examples, h[i]);
      GatesAreFilled(examples, h[j]);
      assert !GateBefore(h[j], h[i]);
    }
  }

  /** A boundary is kept exactly if a row of its injection is selected. */
  lemma {:induction false} KeptAre(boundaries: seq<Boundary>, selected: seq<Disposition>, b: Boundary)
    ensures b in Kept(boundaries, selected) <==>
      b in boundaries && exists e :: e in selected && e.injection == b.injection
  {
    if |boundaries| > 0 {
      var n := |boundaries| - 1;
      KeptAre(boundaries[..n], selected, b);
      assert boundaries == boundaries[..n] + [boundaries[n]];
      if exists e :: e in selected && e.injection == boundaries[n].injection {
        var e :| e in selected && e.injection == boundaries[n].injection;
        var i :| 0 <= i < |selected| && selected[i] == e;
      }
    }
  }

  /** What a refusal says: the injection it names lies in two threads, or in one and has more rows than the cap. */
  lemma {:induction false} RefusalNames(examples: seq<Disposition>, ids: seq<int>, cap: nat)
    requires FirstFault(examples, ids, cap).Some?
    ensures match FirstFault(examples, ids, cap).value
      case CrossesThreads(id) =>
        exists a, b :: a in examples && b in examples && a.injection == b.injection == id && a.thread != b.thread
      case ExceedsMaximum(id) =>
        && |Bucket(InjectionOf, examples, id)| > cap
        && forall a, b :: a in examples && b in examples && a.injection == b.injection == id ==> a.thread == b.thread
  {
    var n := |ids| - 1;
    if FirstFault(examples, ids[..n], cap).Some? {
      RefusalNames(examples, ids[..n], cap);
    } else {
      var rows := Bucket(InjectionOf, examples, ids[n]);
      BucketMembers(InjectionOf, examples, ids[n]);
      hide Bucket;
      if Crosses(rows) {
        var i :| 0 <= i < |rows| && rows[i].thread != rows[0].thread;
        assert rows[i] in rows && rows[0] in rows;
      } else {
        forall a | a in examples && a.injection == ids[n]
          ensures a in rows && a.thread == rows[0].thread
        {
          assert a in rows;
          var i :| 0 <= i < |rows| && rows[i] == a;
        }
      }
    }
  }
}
