/**
 * Balancing the training corpus: rows grouped into gates, refusals, the queues of the threads, the round robin over
 * them, and what its selection is worth.
 */
module Balancing {
  import opened Outcomes
  import opened Sorting
  import opened Ordering
  import opened Corpus

  // Grouping by a key, as a dictionary of lists does it.

  function KeysOf<T, K>(key: T -> K, items: seq<T>): (r: seq<K>)
    ensures |r| == |items| && forall i :: 0 <= i < |items| ==> r[i] == key(items[i])
  {
    seq(|items|, i requires 0 <= i < |items| => key(items[i]))
  }

  function Bucket<T, K(==)>(key: T -> K, items: seq<T>, k: K): (r: seq<T>)
    ensures |r| <= |items|
  {
    if |items| == 0 then []
    else
      var rest := Bucket(key, items[..|items| - 1], k);
      var last := items[|items| - 1];
      if key(last) == k then rest + [last] else rest
  }

  method GroupBy<T, K(==)>(key: T -> K, items: seq<T>) returns (keys: seq<K>, groups: map<K, seq<T>>)
    ensures keys == Dedup(KeysOf(key, items))
    ensures forall k :: k in keys <==> k in groups
    ensures forall k :: k in groups ==> groups[k] == Bucket(key, items, k)
  {
    keys, groups := [], map[];
    for i := 0 to |items|
      invariant keys == Dedup(KeysOf(key, items[..i]))
      invariant forall k :: k in keys <==> k in groups
      invariant forall k :: k in groups ==> groups[k] == Bucket(key, items[..i], k)
      invariant forall k :: k !in groups ==> Bucket(key, items[..i], k) == []
    {
      assert items[..i + 1][..i] == items[..i];
      assert KeysOf(key, items[..i + 1])[..i] == KeysOf(key, items[..i]);
      var k := key(items[i]);
      if k !in groups {
        keys, groups := keys + [k], groups[k := []];
      }
      forall q
        ensures Bucket(key, items[..i + 1], q) == Bucket(key, items[..i], q) + if q == k then [items[i]] else []
      {
      }
      ghost var before := groups;
      groups := groups[k := groups[k] + [items[i]]];
      forall q | q in groups
        ensures groups[q] == Bucket(key, items[..i + 1], q)
      {
        assert q in before && before[q] == Bucket(key, items[..i], q);
      }
    }
    assert items[..|items|] == items;
  }

  /** The members of a bucket are the items with that key. */
  lemma {:induction false} BucketMembers<T, K>(key: T -> K, items: seq<T>, k: K)
    ensures forall x :: x in Bucket(key, items, k) <==> x in items && key(x) == k
  {
    if |items| > 0 {
      BucketMembers(key, items[..|items| - 1], k);
      assert items == items[..|items| - 1] + [items[|items| - 1]];
    }
  }

  /** What a list of items weighs, and what its buckets weigh together. */
  ghost function Weigh<T>(weight: T -> multiset<Disposition>, items: seq<T>): multiset<Disposition> {
    if |items| == 0 then multiset{} else Weigh(weight, items[..|items| - 1]) + weight(items[|items| - 1])
  }

  ghost function WeighBuckets<T, K>(weight: T -> multiset<Disposition>, key: T -> K, items: seq<T>, keys: seq<K>)
    : multiset<Disposition>
  {
    if |keys| == 0 then multiset{}
    else WeighBuckets(weight, key, items, keys[..|keys| - 1]) + Weigh(weight, Bucket(key, items, keys[|keys| - 1]))
  }

  lemma BucketLast<T, K>(key: T -> K, items: seq<T>, k: K)
    requires |items| > 0
    ensures var n := |items| - 1;
      Bucket(key, items, k) == Bucket(key, items[..n], k) + if key(items[n]) == k then [items[n]] else []
  {
  }

  lemma WeighLast<T>(weight: T -> multiset<Disposition>, items: seq<T>, x: T)
    ensures Weigh(weight, items + [x]) == Weigh(weight, items) + weight(x)
  {
    assert (items + [x])[..|items|] == items;
  }

  /** What one more item adds to the bucket of a key. */
  lemma BucketGains<T, K>(weight: T -> multiset<Disposition>, key: T -> K, items: seq<T>, k: K)
    requires |items| > 0
    ensures var n := |items| - 1;
      Weigh(weight, Bucket(key, items, k))
        == Weigh(weight, Bucket(key, items[..n], k)) + if key(items[n]) == k then weight(items[n]) else multiset{}
  {
    var n := |items| - 1;
    BucketLast(key, items, k);
    hide Bucket, Weigh;
    WeighLast(weight, Bucket(key, items[..n], k), items[n]);
    assert Bucket(key, items[..n], k) + [] == Bucket(key, items[..n], k);
  }

  lemma {:induction false} OneMoreItem<T, K>(weight: T -> multiset<Disposition>, key: T -> K, items: seq<T>,
                                             keys: seq<K>)
    requires |items| > 0 && Distinct(keys)
    ensures var n := |items| - 1;
      WeighBuckets(weight, key, items, keys)
        == WeighBuckets(weight, key, items[..n], keys) + if key(items[n]) in keys then weight(items[n]) else multiset{}
    decreases |keys|
  {
    hide Bucket, Weigh;
    if |keys| > 0 {
      var m, n := |keys| - 1, |items| - 1;
      OneMoreItem(weight, key, items, keys[..m]);
      BucketGains(weight, key, items, keys[m]);
      assert keys == keys[..m] + [keys[m]];
      assert keys[m] !in keys[..m];
      Rotated(WeighBuckets(weight, key, items[..n], keys[..m]), Weigh(weight, Bucket(key, items[..n], keys[m])),
        weight(items[n]));
      hide WeighBuckets;
    }
  }

  /** Grouping loses nothing and repeats nothing. */
  lemma {:induction false} BucketsPartition<T, K>(weight: T -> multiset<Disposition>, key: T -> K, items: seq<T>,
                                                  keys: seq<K>)
    requires Distinct(keys) && forall i :: 0 <= i < |items| ==> key(items[i]) in keys
    ensures WeighBuckets(weight, key, items, keys) == Weigh(weight, items)
    decreases |items|
  {
    if |items| == 0 {
      NoItems(weight, key, keys);
      assert items == [];
    } else {
      OneMoreItem(weight, key, items, keys);
      BucketsPartition(weight, key, items[..|items| - 1], keys);
    }
  }

  lemma {:induction false} NoItems<T, K>(weight: T -> multiset<Disposition>, key: T -> K, keys: seq<K>)
    ensures WeighBuckets(weight, key, [], keys) == multiset{}
    decreases |keys|
  {
    if |keys| > 0 {
      NoItems(weight, key, keys[..|keys| - 1]);
    }
  }

  lemma WithoutSame<T>(a: seq<T>, b: seq<T>, i: nat)
    requires |a| > 0 && i < |b| && b[i] == a[|a| - 1] && multiset(a) == multiset(b)
    ensures multiset(b[..i] + b[i + 1..]) == multiset(a[..|a| - 1])
  {
    var n := |a| - 1;
    var rest := b[..i] + b[i + 1..];
    assert a == a[..n] + [a[n]] && b == b[..i] + [b[i]] + b[i + 1..];
    assert multiset(rest) + multiset{b[i]} == multiset(b) == multiset(a[..n]) + multiset{a[n]};
    assert multiset(rest) == multiset(b) - multiset{b[i]};
  }

  /** Rearranging does not change the weight. */
  lemma {:induction false} WeighRearranged<T>(weight: T -> multiset<Disposition>, a: seq<T>, b: seq<T>)
    requires multiset(a) == multiset(b)
    ensures Weigh(weight, a) == Weigh(weight, b)
    decreases |a|
  {
    if |a| == 0 {
      assert |multiset(b)| == 0;
      assert b == [];
    } else {
      var n := |a| - 1;
      assert a[n] in multiset(a) && a[n] in multiset(b);
      var i :| 0 <= i < |b| && b[i] == a[n];
      WithoutSame(a, b, i);
      WeighRearranged(weight, a[..n], b[..i] + b[i + 1..]);
      WeighWithout(weight, b, i);
    }
  }

  lemma {:induction false} WeighWithout<T>(weight: T -> multiset<Disposition>, b: seq<T>, i: nat)
    requires i < |b|
    ensures Weigh(weight, b) == Weigh(weight, b[..i] + b[i + 1..]) + weight(b[i])
    decreases |b|
  {
    var n := |b| - 1;
    if i == n {
      assert b[..i] + b[i + 1..] == b[..n];
    } else {
      WeighWithout(weight, b[..n], i);
      var rest := b[..i] + b[i + 1..];
      assert rest[..n - 1] == b[..n][..i] + b[..n][i + 1..];
      assert rest[n - 1] == b[n];
    }
  }

  // The entities.

  function InjectionOf(row: Disposition): int {
    row.injection
  }

  /** A thread's text, or the placeholder of rows without one. */
  function ThreadText(row: Disposition): string {
    match row.thread
    case Some(text) => text
    case None => "not_recorded"
  }

  function GateThread(gate: Gate): string {
    if |gate| == 0 then "" else ThreadText(gate[0])
  }

  predicate RowBefore(a: Disposition, b: Disposition) {
    a.ts < b.ts || (a.ts == b.ts && StrLess(a.eventUid, b.eventUid))
  }

  function Newest(gate: Gate): int {
    if |gate| == 0 then 0
    else if |gate| == 1 then gate[0].ts
    else
      var n := Newest(gate[..|gate| - 1]);
      if gate[|gate| - 1].ts > n then gate[|gate| - 1].ts else n
  }

  function GateInjection(gate: Gate): int {
    if |gate| == 0 then 0 else gate[0].injection
  }

  predicate GateBefore(a: Gate, b: Gate) {
    Newest(a) < Newest(b) || (Newest(a) == Newest(b) && GateInjection(a) < GateInjection(b))
  }

  predicate SelectedBefore(a: Disposition, b: Disposition) {
    a.ts < b.ts || (a.ts == b.ts
      && (a.injection < b.injection || (a.injection == b.injection && StrLess(a.eventUid, b.eventUid))))
  }

  lemma KeyOrders()
    ensures KeyOrder(RowBefore) && KeyOrder(GateBefore) && KeyOrder(SelectedBefore) && KeyOrder(StrLess)
  {
    forall a, b, c
      ensures StrLess(a, b) ==> !StrLess(b, a)
      ensures StrLess(a, c) ==> StrLess(a, b) || StrLess(b, c)
    {
      StrAsymmetric(a, b);
      StrBetween(a, b, c);
    }
    hide StrLess, Newest, GateInjection;
    assert KeyOrder(RowBefore);
    assert KeyOrder(GateBefore);
    assert KeyOrder(SelectedBefore);
  }

  // What balancing builds from the examples.

  function Injections(examples: seq<Disposition>): seq<int> {
    Dedup(KeysOf(InjectionOf, examples))
  }

  /** The rows of one injection, in time order. */
  function GateOf(examples: seq<Disposition>, id: int): Gate {
    SortBy(RowBefore, Bucket(InjectionOf, examples, id))
  }

  function GatesOf(examples: seq<Disposition>, ids: seq<int>): (r: seq<Gate>)
    ensures |r| == |ids| && forall i :: 0 <= i < |ids| ==> r[i] == GateOf(examples, ids[i])
  {
    seq(|ids|, i requires 0 <= i < |ids| => GateOf(examples, ids[i]))
  }

  function ThreadsOf(gates: seq<Gate>): seq<string> {
    SortBy(StrLess, Dedup(KeysOf(GateThread, gates)))
  }

  function Chronological(gates: seq<Gate>, thread: string): seq<Gate> {
    SortBy(GateBefore, Bucket(GateThread, gates, thread))
  }

  function Spreads(gates: seq<Gate>, threads: seq<string>): (r: seq<seq<Gate>>)
    ensures |r| == |threads|
    ensures forall i :: 0 <= i < |threads| ==> r[i] == Spread(Chronological(gates, threads[i]), true)
  {
    seq(|threads|, i requires 0 <= i < |threads| => Spread(Chronological(gates, threads[i]), true))
  }

  // Refusals.

  predicate Crosses(rows: seq<Disposition>) {
    exists i :: 0 <= i < |rows| && rows[i].thread != rows[0].thread
  }

  function Fault(rows: seq<Disposition>, id: int, cap: nat): Option<CorpusError> {
    if Crosses(rows) then Some(CrossesThreads(id))
    else if |rows| > cap then Some(ExceedsMaximum(id))
    else None
  }

  /** The fault of the earliest injection that has one. */
  function FirstFault(examples: seq<Disposition>, ids: seq<int>, cap: nat): Option<CorpusError> {
    if |ids| == 0 then None
    else
      var n := |ids| - 1;
      var before := FirstFault(examples, ids[..n], cap);
      if before.Some? then before else Fault(Bucket(InjectionOf, examples, ids[n]), ids[n], cap)
  }

  lemma {:induction false} FirstFaultFindsAny(examples: seq<Disposition>, ids: seq<int>, cap: nat)
    ensures FirstFault(examples, ids, cap).None? <==>
      forall i :: 0 <= i < |ids| ==> Fault(Bucket(InjectionOf, examples, ids[i]), ids[i], cap).None?
    decreases |ids|
  {
    if |ids| > 0 {
      var n := |ids| - 1;
      FirstFaultFindsAny(examples, ids[..n], cap);
      assert forall i :: 0 <= i < n ==> ids[..n][i] == ids[i];
    }
  }

  ghost predicate OneThreadEach(examples: seq<Disposition>) {
    forall a, b :: a in examples && b in examples && a.injection == b.injection ==> a.thread == b.thread
  }

  ghost predicate WithinCap(examples: seq<Disposition>, cap: nat) {
    forall id :: |Bucket(InjectionOf, examples, id)| <= cap
  }

  lemma InjectionsAreThose(examples: seq<Disposition>)
    ensures Distinct(Injections(examples))
    ensures forall e :: e in examples ==> e.injection in Injections(examples)
    ensures forall id :: id in Injections(examples) ==> exists e :: e in examples && e.injection == id
  {
    var keys := KeysOf(InjectionOf, examples);
    DedupMembers(keys);
    forall e | e in examples
      ensures e.injection in Injections(examples)
    {
      var i :| 0 <= i < |examples| && examples[i] == e;
      assert keys[i] == e.injection;
    }
    forall id | id in Injections(examples)
      ensures exists e :: e in examples && e.injection == id
    {
      assert id in keys;
      var i :| 0 <= i < |keys| && keys[i] == id;
      assert examples[i] in examples;
    }
  }

  /** Balancing refuses exactly when an injection's rows lie in two threads or outnumber the cap. */
  lemma RefusalExactlyWhen(examples: seq<Disposition>, cap: nat)
    ensures FirstFault(examples, Injections(examples), cap).None?
      <==> OneThreadEach(examples) && WithinCap(examples, cap)
  {
    var ids := Injections(examples);
    FirstFaultFindsAny(examples, ids, cap);
    InjectionsAreThose(examples);
    hide Injections;
    forall id
      ensures forall x :: x in Bucket(InjectionOf, examples, id) <==> x in examples && x.injection == id
    {
      BucketMembers(InjectionOf, examples, id);
    }
    if FirstFault(examples, ids, cap).None? {
      forall a, b | a in examples && b in examples && a.injection == b.injection
        ensures a.thread == b.thread
      {
        NoFaultOneThread(Bucket(InjectionOf, examples, a.injection), a, b);
      }
      forall id
        ensures |Bucket(InjectionOf, examples, id)| <= cap
      {
        var rows := Bucket(InjectionOf, examples, id);
        if |rows| > 0 {
          assert rows[0] in rows;
          assert id in ids;
        }
      }
    }
    if OneThreadEach(examples) && WithinCap(examples, cap) {
      forall i | 0 <= i < |ids|
        ensures Fault(Bucket(InjectionOf, examples, ids[i]), ids[i], cap).None?
      {
        var rows := Bucket(InjectionOf, examples, ids[i]);
        assert forall k :: 0 <= k < |rows| ==> rows[k] in rows;
      }
    }
  }

  lemma NoFaultOneThread(rows: seq<Disposition>, a: Disposition, b: Disposition)
    requires !Crosses(rows) && a in rows && b in rows
    ensures a.thread == b.thread
  {
  }

  // Everything taken is everything given.

  function RowWeight(row: Disposition): multiset<Disposition> {
    multiset{row}
  }

  function GateWeight(gate: Gate): multiset<Disposition> {
    multiset(gate)
  }

  lemma {:induction false} WeighRows(rows: seq<Disposition>)
    ensures Weigh(RowWeight, rows) == multiset(rows)
  {
    if |rows| > 0 {
      WeighRows(rows[..|rows| - 1]);
      assert rows == rows[..|rows| - 1] + [rows[|rows| - 1]];
    }
  }

  lemma {:induction false} WeighGates(gates: seq<Gate>)
    ensures Weigh(GateWeight, gates) == multiset(RowsOf(gates))
  {
    if |gates| > 0 {
      WeighGates(gates[..|gates| - 1]);
    }
  }

  lemma SpreadRearranges(history: seq<Gate>)
    ensures multiset(Spread(history, true)) == multiset(history)
  {
    var n := |history|;
    SpreadTakesBothEnds(history, true, n);
    var a := FromNew(true, n);
    assert Spread(history, true)[..n] == Spread(history, true);
    assert history == history[..n - a] + history[n - a..];
  }

  lemma SpreadRows(gates: seq<Gate>, thread: string)
    ensures multiset(RowsOf(Spread(Chronological(gates, thread), true)))
      == Weigh(GateWeight, Bucket(GateThread, gates, thread))
  {
    var bucket := Bucket(GateThread, gates, thread);
    SortKeepsElements(GateBefore, bucket);
    SpreadRearranges(Chronological(gates, thread));
    WeighRearranged(GateWeight, Spread(Chronological(gates, thread), true), bucket);
    WeighGates(Spread(Chronological(gates, thread), true));
  }

  lemma {:induction false} EverythingIsAllBuckets(gates: seq<Gate>, threads: seq<string>)
    ensures var spreads := Spreads(gates, threads);
      TakenRows(spreads, Everything(spreads)) == WeighBuckets(GateWeight, GateThread, gates, threads)
  {
    var spreads := Spreads(gates, threads);
    hide Weigh, Bucket, Spread, Spreads, Chronological, SortBy, RowsOf, Everything;
    if |threads| > 0 {
      var n := |threads| - 1;
      EverythingIsAllBuckets(gates, threads[..n]);
      assert spreads[..n] == Spreads(gates, threads[..n]);
      assert Everything(spreads)[..n] == Everything(spreads[..n]);
      assert spreads[n][..|spreads[n]|] == spreads[n];
      SpreadRows(gates, threads[n]);
    }
  }

  lemma GateWeighsBucket(examples: seq<Disposition>, id: int)
    ensures GateWeight(GateOf(examples, id)) == Weigh(RowWeight, Bucket(InjectionOf, examples, id))
  {
    var bucket := Bucket(InjectionOf, examples, id);
    SortKeepsElements(RowBefore, bucket);
    WeighRows(bucket);
    hide SortBy, Bucket, Weigh;
  }

  lemma GatesOfPrefix(examples: seq<Disposition>, ids: seq<int>, n: nat)
    requires n <= |ids|
    ensures GatesOf(examples, ids)[..n] == GatesOf(examples, ids[..n])
  {
    hide GateOf;
  }

  lemma {:induction false} GatesWeighBuckets(examples: seq<Disposition>, ids: seq<int>)
    ensures Weigh(GateWeight, GatesOf(examples, ids)) == WeighBuckets(RowWeight, InjectionOf, examples, ids)
  {
    hide GatesOf, GateOf, Bucket, GateWeight, RowWeight;
    if |ids| > 0 {
      var n := |ids| - 1;
      GatesWeighBuckets(examples, ids[..n]);
      GatesOfPrefix(examples, ids, n);
      GateWeighsBucket(examples, ids[n]);
    }
  }

  function AllGates(examples: seq<Disposition>): seq<Gate> {
    GatesOf(examples, Injections(examples))
  }

  function SpreadsOf(examples: seq<Disposition>): seq<seq<Gate>> {
    Spreads(AllGates(examples), ThreadsOf(AllGates(examples)))
  }

  lemma ThreadsAreThose(gates: seq<Gate>)
    ensures Distinct(ThreadsOf(gates)) && SortedBy(StrLess, ThreadsOf(gates))
    ensures forall i :: 0 <= i < |gates| ==> GateThread(gates[i]) in ThreadsOf(gates)
  {
    var keys := KeysOf(GateThread, gates);
    DedupMembers(keys);
    SortKeepsDistinct(StrLess, Dedup(keys));
    KeyOrders();
    SortSorts(StrLess, Dedup(keys));
    forall i | 0 <= i < |gates|
      ensures GateThread(gates[i]) in ThreadsOf(gates)
    {
      assert keys[i] in keys;
      SortSameMembers(StrLess, Dedup(keys), keys[i]);
    }
  }

  /** The queues hold every example exactly once. */
  lemma NothingLost(examples: seq<Disposition>)
    ensures TakenRows(SpreadsOf(examples), Everything(SpreadsOf(examples))) == multiset(examples)
  {
    var ids := Injections(examples);
    var gates := AllGates(examples);
    ThreadsAreThose(gates);
    InjectionsAreThose(examples);
    hide Injections, ThreadsOf, TakenRows, Weigh, WeighBuckets, Everything;
    assert forall i ::
      0 <= i < |examples| ==> InjectionOf(examples[i]) == examples[i].injection && examples[i] in examples;
    EverythingIsAllBuckets(gates, ThreadsOf(gates));
    BucketsPartition(GateWeight, GateThread, gates, ThreadsOf(gates));
    GatesWeighBuckets(examples, ids);
    BucketsPartition(RowWeight, InjectionOf, examples, ids);
    WeighRows(examples);
  }

  // Where a queued gate comes from.

  lemma SpreadMembers(gates: seq<Gate>, threads: seq<string>, i: nat, k: nat)
    requires i < |threads| && k < |Spreads(gates, threads)[i]|
    ensures Spreads(gates, threads)[i][k] in gates
  {
    var history := Chronological(gates, threads[i]);
    var g := Spread(history, true)[k];
    SpreadRearranges(history);
    assert g in multiset(Spread(history, true));
    assert g in multiset(history) && g in history;
    SortSameMembers(GateBefore, Bucket(GateThread, gates, threads[i]), g);
    BucketMembers(GateThread, gates, threads[i]);
  }

  lemma QueuedGate(examples: seq<Disposition>, i: nat, k: nat)
    requires i < |SpreadsOf(examples)| && k < |SpreadsOf(examples)[i]|
    ensures exists id :: id in Injections(examples) && SpreadsOf(examples)[i][k] == GateOf(examples, id)
  {
    var gates := AllGates(examples);
    SpreadMembers(gates, ThreadsOf(gates), i, k);
    var m :| 0 <= m < |gates| && gates[m] == SpreadsOf(examples)[i][k];
    assert Injections(examples)[m] in Injections(examples);
  }

  lemma GateRows(examples: seq<Disposition>, id: int, e: Disposition)
    ensures e in GateOf(examples, id) <==> e in examples && e.injection == id
    ensures e.injection == id ==> multiset(GateOf(examples, id))[e] == multiset(examples)[e]
  {
    var bucket := Bucket(InjectionOf, examples, id);
    SortSameMembers(RowBefore, bucket, e);
    SortKeepsElements(RowBefore, bucket);
    BucketMembers(InjectionOf, examples, id);
    if e.injection == id {
      BucketCounts(examples, id, e);
    }
  }

  lemma {:induction false} BucketCounts(examples: seq<Disposition>, id: int, e: Disposition)
    requires e.injection == id
    ensures multiset(Bucket(InjectionOf, examples, id))[e] == multiset(examples)[e]
  {
    if |examples| > 0 {
      BucketCounts(examples[..|examples| - 1], id, e);
      assert examples == examples[..|examples| - 1] + [examples[|examples| - 1]];
    }
  }

  lemma QueuesHoldGates(examples: seq<Disposition>)
    ensures Gates(SpreadsOf(examples))
  {
    var spreads := SpreadsOf(examples);
    forall i, k | 0 <= i < |spreads| && 0 <= k < |spreads[i]|
      ensures |spreads[i][k]| > 0
    {
      QueuedGate(examples, i, k);
      var id :| id in Injections(examples) && spreads[i][k] == GateOf(examples, id);
      InjectionsAreThose(examples);
      var e :| e in examples && e.injection == id;
      GateRows(examples, id, e);
    }
  }

  // Whole gates only.

  lemma {:induction false} PrefixWithin(gates: seq<Gate>, n: nat)
    requires n <= |gates|
    ensures multiset(RowsOf(gates[..n])) <= multiset(RowsOf(gates))
    decreases |gates|
  {
    if n < |gates| {
      var m := |gates| - 1;
      PrefixWithin(gates[..m], n);
      assert gates[..m][..n] == gates[..n];
    } else {
      assert gates[..n] == gates;
    }
  }

  lemma {:induction false} TakenWithin(spreads: seq<seq<Gate>>, taken: seq<nat>)
    requires Taking(spreads, taken)
    ensures TakenRows(spreads, taken) <= TakenRows(spreads, Everything(spreads))
  {
    if |spreads| > 0 {
      var n := |spreads| - 1;
      TakenWithin(spreads[..n], taken[..n]);
      assert Everything(spreads)[..n] == Everything(spreads[..n]);
      PrefixWithin(spreads[n], taken[n]);
      assert spreads[n][..|spreads[n]|] == spreads[n];
    }
  }

  lemma {:induction false} GateWithin(gates: seq<Gate>, k: nat)
    requires k < |gates|
    ensures multiset(gates[k]) <= multiset(RowsOf(gates))
  {
    var m := |gates| - 1;
    if k < m {
      GateWithin(gates[..m], k);
    }
  }

  lemma {:induction false} TakenGate(spreads: seq<seq<Gate>>, taken: seq<nat>, i: nat, k: nat)
    requires Taking(spreads, taken) && i < |spreads| && k < taken[i]
    ensures multiset(spreads[i][k]) <= TakenRows(spreads, taken)
    decreases |spreads|
  {
    var n := |spreads| - 1;
    if i == n {
      GateWithin(spreads[n][..taken[n]], k);
    } else {
      TakenGate(spreads[..n], taken[..n], i, k);
    }
  }

  lemma {:induction false} RowsFrom(gates: seq<Gate>, e: Disposition)
    requires e in RowsOf(gates)
    ensures exists k :: 0 <= k < |gates| && e in gates[k]
  {
    var m := |gates| - 1;
    if e !in gates[m] {
      RowsFrom(gates[..m], e);
      var k :| 0 <= k < m && e in gates[..m][k];
      assert e in gates[k];
    }
  }

  lemma {:induction false} TakenFrom(spreads: seq<seq<Gate>>, taken: seq<nat>, e: Disposition) returns (i: nat, k: nat)
    requires Taking(spreads, taken) && e in TakenRows(spreads, taken)
    ensures i < |spreads| && k < taken[i] && e in spreads[i][k]
    decreases |spreads|
  {
    var n := |spreads| - 1;
    var gates := spreads[n][..taken[n]];
    if e in RowsOf(gates) {
      RowsFrom(gates, e);
      i := n;
      var m :| 0 <= m < |gates| && e in gates[m];
      k := m;
    } else {
      i, k := TakenFrom(spreads[..n], taken[..n], e);
    }
  }

  /** If one row of an injection was selected, all of its rows were. */
  lemma WholeGates(examples: seq<Disposition>, taken: seq<nat>, e: Disposition, other: Disposition)
    requires Taking(SpreadsOf(examples), taken) && e in TakenRows(SpreadsOf(examples), taken)
    requires e.injection == other.injection
    ensures TakenRows(SpreadsOf(examples), taken)[other] == multiset(examples)[other]
  {
    var spreads := SpreadsOf(examples);
    TakenWithin(spreads, taken);
    NothingLost(examples);
    var i, k := TakenFrom(spreads, taken, e);
    QueuedGate(examples, i, k);
    var id :| id in Injections(examples) && spreads[i][k] == GateOf(examples, id);
    hide SpreadsOf, TakenRows, GateOf, Injections;
    GateRows(examples, id, e);
    GateRows(examples, id, other);
    TakenGate(spreads, taken, i, k);
  }

  /** Of each thread's history in time order, the k gates taken are its ceil(k/2) newest and floor(k/2) oldest. */
  lemma BothEndsChosen(examples: seq<Disposition>, i: nat, k: nat)
    requires i < |SpreadsOf(examples)| && k <= |SpreadsOf(examples)[i]|
    ensures var history := Chronological(AllGates(examples), ThreadsOf(AllGates(examples))[i]);
      && SortedBy(GateBefore, history)
      && multiset(SpreadsOf(examples)[i][..k]) == BothEnds(history, true, k)
  {
    var gates := AllGates(examples);
    var history := Chronological(gates, ThreadsOf(gates)[i]);
    KeyOrders();
    SortSorts(GateBefore, Bucket(GateThread, gates, ThreadsOf(gates)[i]));
    SpreadTakesBothEnds(history, true, k);
  }

  // The operation.

  datatype Boundary = Boundary(eventUid: string, injection: int)

  datatype Balanced = Balanced(examples: seq<Disposition>, boundaries: seq<Boundary>, threads: seq<string>,
                               gatesTaken: seq<nat>)

  predicate Selects(selected: seq<Disposition>, injection: int) {
    exists i :: 0 <= i < |selected| && selected[i].injection == injection
  }

  function Kept(boundaries: seq<Boundary>, selected: seq<Disposition>): seq<Boundary> {
    if |boundaries| == 0 then []
    else
      var last := boundaries[|boundaries| - 1];
      Kept(boundaries[..|boundaries| - 1], selected) + if Selects(selected, last.injection) then [last] else []
  }

  /** One row of an injection is selected exactly when all of them are. */
  ghost predicate SelectsWhole(examples: seq<Disposition>, selected: seq<Disposition>) {
    forall e: Disposition, other: Disposition :: e in selected && other.injection == e.injection
      ==> multiset(selected)[other] == multiset(examples)[other]
  }

  ghost predicate BalancedAs(examples: seq<Disposition>, cap: nat, r: Balanced, states: seq<(seq<nat>, int)>) {
    && Running(SpreadsOf(examples), cap, r.gatesTaken, r.examples, states)
    && NothingFits(SpreadsOf(examples), r.gatesTaken, cap - |r.examples|)
    && SelectsWhole(examples, r.examples)
    && SortedBy(SelectedBefore, r.examples)
    && (|examples| <= cap ==> multiset(r.examples) == multiset(examples))
  }

  method GatesInOrder(examples: seq<Disposition>, cap: nat) returns (r: Result<seq<Gate>, CorpusError>)
    ensures r.Ok? <==> FirstFault(examples, Injections(examples), cap).None?
    ensures r.Err? ==> FirstFault(examples, Injections(examples), cap) == Some(r.error)
    ensures r.Ok? ==> r.value == AllGates(examples)
  {
    var ids, groups := GroupBy(InjectionOf, examples);
    var gates: seq<Gate> := [];
    for i := 0 to |ids|
      invariant gates == GatesOf(examples, ids[..i])
      invariant FirstFault(examples, ids[..i], cap).None?
    {
      assert ids[..i + 1][..i] == ids[..i];
      assert ids[i] in ids;
      var rows := groups[ids[i]];
      var fault := Fault(rows, ids[i], cap);
      if fault.Some? {
        StillFirst(examples, ids, i + 1, cap);
        return Err(fault.value);
      }
      gates := gates + [SortBy(RowBefore, rows)];
    }
    assert ids[..|ids|] == ids;
    return Ok(gates);
  }

  lemma {:induction false} StillFirst(examples: seq<Disposition>, ids: seq<int>, n: nat, cap: nat)
    requires n <= |ids| && FirstFault(examples, ids[..n], cap).Some?
    ensures FirstFault(examples, ids, cap) == FirstFault(examples, ids[..n], cap)
    decreases |ids|
  {
    if n < |ids| {
      assert ids[..|ids| - 1][..n] == ids[..n];
      StillFirst(examples, ids[..|ids| - 1], n, cap);
    } else {
      assert ids[..n] == ids;
    }
  }

  /** Each thread's gates in time order, spread, the threads sorted. */
  method QueueThreads(gates: seq<Gate>) returns (threads: seq<string>, spreads: seq<seq<Gate>>)
    ensures threads == ThreadsOf(gates) && spreads == Spreads(gates, threads)
  {
    var keys, byThread := GroupBy(GateThread, gates);
    threads, spreads := SortBy(StrLess, keys), [];
    for i := 0 to |threads|
      invariant spreads == Spreads(gates, threads[..i])
    {
      assert threads[i] in threads;
      SortSameMembers(StrLess, keys, threads[i]);
      var spread := SpreadOut(SortBy(GateBefore, byThread[threads[i]]));
      spreads := spreads + [spread];
      assert threads[..i + 1][..i] == threads[..i];
    }
    assert threads[..|threads|] == threads;
  }

  method KeepBoundaries(boundaries: seq<Boundary>, selected: seq<Disposition>) returns (kept: seq<Boundary>)
    ensures kept == Kept(boundaries, selected)
  {
    kept := [];
    for i := 0 to |boundaries|
      invariant kept == Kept(boundaries[..i], selected)
    {
      assert boundaries[..i + 1][..i] == boundaries[..i];
      if Selects(selected, boundaries[i].injection) {
        kept := kept + [boundaries[i]];
      }
    }
    assert boundaries[..|boundaries|] == boundaries;
  }

  lemma SelectionIsWhole(examples: seq<Disposition>, taken: seq<nat>, selected: seq<Disposition>)
    requires Taking(SpreadsOf(examples), taken) && multiset(selected) == TakenRows(SpreadsOf(examples), taken)
    ensures SelectsWhole(examples, selected)
  {
    hide SpreadsOf, TakenRows, Taking;
    forall e: Disposition, other: Disposition | e in selected && other.injection == e.injection
      ensures multiset(selected)[other] == multiset(examples)[other]
    {
      assert e in multiset(selected);
      WholeGates(examples, taken, e, other);
    }
  }

  lemma SortedSelection(picked: seq<Disposition>)
    ensures var selected := SortBy(SelectedBefore, picked);
      multiset(selected) == multiset(picked) && |selected| == |picked| && SortedBy(SelectedBefore, selected)
  {
    SortKeepsElements(SelectedBefore, picked);
    KeyOrders();
    SortSorts(SelectedBefore, picked);
  }

  /** What the round robin over the queues of the examples is worth once the rows picked are sorted. */
  lemma SelectionIsBalanced(examples: seq<Disposition>, cap: nat, taken: seq<nat>, picked: seq<Disposition>,
                            states: seq<(seq<nat>, int)>, r: Balanced)
    requires Running(SpreadsOf(examples), cap, taken, picked, states)
    requires NothingFits(SpreadsOf(examples), taken, cap - |picked|)
    requires |TakenRows(SpreadsOf(examples), Everything(SpreadsOf(examples)))| <= cap
      ==> taken == Everything(SpreadsOf(examples))
    requires r.examples == SortBy(SelectedBefore, picked) && r.gatesTaken == taken
    ensures BalancedAs(examples, cap, r, states)
  {
    SortedSelection(picked);
    NothingLost(examples);
    CardinalityOf(examples);
    hide SpreadsOf, TakenRows, Everything, OneByOne, FairThroughout, NothingFits, SortedBy, SortBy, Taking;
    SelectionIsWhole(examples, taken, r.examples);
    hide SelectsWhole;
  }

  method BalancedCorpus(examples: seq<Disposition>, boundaries: seq<Boundary>, cap: nat)
    returns (r: Result<Balanced, CorpusError>, ghost states: seq<(seq<nat>, int)>)
    ensures r.Ok? <==> OneThreadEach(examples) && WithinCap(examples, cap)
    ensures r.Err? ==> FirstFault(examples, Injections(examples), cap) == Some(r.error)
    ensures r.Ok? ==> BalancedAs(examples, cap, r.value, states)
    ensures r.Ok? ==> r.value.threads == ThreadsOf(AllGates(examples))
    ensures r.Ok? ==> r.value.boundaries == Kept(boundaries, r.value.examples)
  {
    states := [];
    RefusalExactlyWhen(examples, cap);
    hide OneThreadEach, WithinCap, FirstFault, Injections, BalancedAs, AllGates;
    var grouped := GatesInOrder(examples, cap);
    if grouped.Err? {
      return Err(grouped.error), [];
    }
    var gates := grouped.value;
    var threads, spreads := QueueThreads(gates);
    QueuesHoldGates(examples);
    var taken, picked;
    taken, picked, states := RoundRobin(spreads, cap);
    var selected := SortBy(SelectedBefore, picked);
    var kept := KeepBoundaries(boundaries, selected);
    var balanced := Balanced(selected, kept, threads, taken);
    SelectionIsBalanced(examples, cap, taken, picked, states, balanced);
    r := Ok(balanced);
  }
}
