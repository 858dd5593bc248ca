/** One prepare: validating the command, merging the candidate pools, selecting, and writing the events. */
module Preparing {
  import opened Outcomes
  import opened Sorting
  import opened Ordering
  import opened Selection
  import opened Decisions

  datatype Mode = Gate | Autonomous

  datatype PrepareCommand = PrepareCommand(mode: Mode, current: seq<int>, confirmed: seq<int>, excluded: seq<int>)

  datatype PrepareError = InvalidRescore | Unselectable(error: SelectionError)

  // The command.

  predicate Without(a: seq<int>, b: seq<int>) {
    forall i :: 0 <= i < |a| ==> a[i] !in b
  }

  predicate Within(a: seq<int>, b: seq<int>) {
    forall i :: 0 <= i < |a| ==> a[i] in b
  }

  ghost predicate ValidCommand(c: PrepareCommand) {
    && Distinct(c.current) && Distinct(c.confirmed) && Distinct(c.excluded)
    && (c.mode == Gate ==> c.current == [] && c.confirmed == [] && c.excluded == [])
    && Within(c.confirmed, c.current) && Without(c.excluded, c.current)
  }

  method ValidateCommand(c: PrepareCommand) returns (ok: bool)
    ensures ok <==> ValidCommand(c)
  {
    var current := SetOf(c.current);
    var confirmed := SetOf(c.confirmed);
    var excluded := SetOf(c.excluded);
    if |current| != |c.current| || |confirmed| != |c.confirmed| || |excluded| != |c.excluded| {
      return false;
    }
    if c.mode == Gate {
      EmptyTogether(current, c.current);
      EmptyTogether(confirmed, c.confirmed);
      EmptyTogether(excluded, c.excluded);
      return current == {} && confirmed == {} && excluded == {};
    }
    SubsetIsWithin(confirmed, c.confirmed, current, c.current);
    if !(confirmed <= current) {
      return false;
    }
    DisjointIsWithout(excluded, c.excluded, current, c.current);
    assert confirmed <= current ==> current + confirmed == current;
    return excluded * (current + confirmed) == {};
  }

  lemma EmptyTogether(a: set<int>, s: seq<int>)
    requires forall x :: x in a <==> x in s
    ensures a == {} <==> s == []
  {
    if s == [] {
      assert forall x :: x in a ==> x in s;
      assert a == {};
    }
    if s != [] {
      var x := s[0];
      assert x in s && x in a;
    }
  }

  lemma SubsetIsWithin(a: set<int>, s: seq<int>, b: set<int>, t: seq<int>)
    requires (forall x :: x in a <==> x in s) && (forall x :: x in b <==> x in t)
    ensures a <= b <==> Within(s, t)
  {
    if Within(s, t) {
      forall x | x in a
        ensures x in b
      {
        assert x in s;
      }
    }
    if a <= b {
      forall i | 0 <= i < |s|
        ensures s[i] in t
      {
        var x := s[i];
        assert x in s && x in a;
      }
    }
  }

  lemma DisjointIsWithout(a: set<int>, s: seq<int>, b: set<int>, t: seq<int>)
    requires (forall x :: x in a <==> x in s) && (forall x :: x in b <==> x in t)
    ensures a * b == {} <==> Without(s, t)
  {
    if Without(s, t) {
      forall x | x in a
        ensures x !in b
      {
        assert x in s;
      }
      assert a * b == {};
    }
    if a * b == {} {
      forall i | 0 <= i < |s|
        ensures s[i] !in t
      {
        var x := s[i];
        assert x in s && x in a && x !in a * b;
      }
    }
  }

  // The pools.

  datatype Source = Vector | FullText | Current

  datatype Pooled = Pooled(memory: int, sources: seq<Source>)

  function Noting(known: seq<Source>, source: Source, named: bool): seq<Source> {
    if named then known + [source] else known
  }

  /** Where a memory came from, in the order in which the sources are merged. */
  function SourcesOf(memory: int, vector: seq<int>, fts: seq<int>, explicitRows: seq<int>): seq<Source> {
    Noting(Noting(Noting([], Vector, memory in vector), FullText, memory in fts), Current, memory in explicitRows)
  }

  /** Each source is noted once, exactly for what it named: the vector search, the full-text search, the command. */
  lemma SourcesRead(memory: int, vector: seq<int>, fts: seq<int>, explicitRows: seq<int>)
    ensures SourcesOf(memory, vector, fts, explicitRows)
         == (if memory in vector then [Vector] else [])
            + (if memory in fts then [FullText] else [])
            + (if memory in explicitRows then [Current] else [])
  {
  }

  function SourcesIn(merged: map<int, seq<Source>>, memory: int): seq<Source> {
    if memory in merged then merged[memory] else []
  }

  function Only(rows: seq<int>, ids: seq<int>): seq<int> {
    if |rows| == 0 then []
    else
      var before := Only(rows[..|rows| - 1], ids);
      if rows[|rows| - 1] in ids then before + [rows[|rows| - 1]] else before
  }

  lemma {:induction false} OnlyMembers(rows: seq<int>, ids: seq<int>)
    ensures forall x :: x in Only(rows, ids) <==> x in rows && x in ids
    ensures Distinct(rows) ==> Distinct(Only(rows, ids))
  {
    if |rows| > 0 {
      var n := |rows| - 1;
      OnlyMembers(rows[..n], ids);
      assert rows == rows[..n] + [rows[n]];
    }
  }

  /** The dictionary of sources while one source's rows are added. */
  ghost predicate Merged(order: seq<int>, merged: map<int, seq<Source>>) {
    Distinct(order) && forall m :: m in order <==> m in merged
  }

  /** One row: a memory not seen yet joins the dictionary, and a source not noted yet is noted. */
  method AddRow(order0: seq<int>, merged0: map<int, seq<Source>>, memory: int, source: Source)
    returns (order: seq<int>, merged: map<int, seq<Source>>)
    requires Merged(order0, merged0)
    ensures Merged(order, merged)
    ensures var known := SourcesIn(merged0, memory);
      merged == merged0[memory := if source in known then known else known + [source]]
  {
    order, merged := order0, merged0;
    if memory !in merged {
      order, merged := order + [memory], merged[memory := []];
    }
    if source !in merged[memory] {
      merged := merged[memory := merged[memory] + [source]];
    }
  }

  method AddSource(order0: seq<int>, merged0: map<int, seq<Source>>, rows: seq<int>, source: Source)
    returns (order: seq<int>, merged: map<int, seq<Source>>)
    requires Merged(order0, merged0) && Distinct(rows)
    requires forall m :: source !in SourcesIn(merged0, m)
    ensures Merged(order, merged)
    ensures forall m :: m in merged <==> m in merged0 || m in rows
    ensures forall m :: SourcesIn(merged, m) == Noting(SourcesIn(merged0, m), source, m in rows)
  {
    hide Merged;
    order, merged := order0, merged0;
    for i := 0 to |rows|
      invariant Merged(order, merged)
      invariant forall m :: m in merged <==> m in merged0 || m in rows[..i]
      invariant forall m :: SourcesIn(merged, m) == Noting(SourcesIn(merged0, m), source, m in rows[..i])
    {
      var memory := rows[i];
      assert rows[..i + 1] == rows[..i] + [memory];
      assert memory !in rows[..i];
      order, merged := AddRow(order, merged, memory, source);
    }
    assert rows[..|rows|] == rows;
  }

  method MergeSources(vector: seq<int>, fts: seq<int>, explicitRows: seq<int>)
    returns (order: seq<int>, merged: map<int, seq<Source>>)
    requires Distinct(vector) && Distinct(fts) && Distinct(explicitRows)
    ensures Merged(order, merged)
    ensures forall m :: m in merged <==> m in vector || m in fts || m in explicitRows
    ensures forall m :: m in merged ==> merged[m] == SourcesOf(m, vector, fts, explicitRows)
  {
    hide Merged, Distinct;
    NothingMerged();
    order, merged := AddSource([], map[], vector, Vector);
    order, merged := AddSource(order, merged, fts, FullText);
    order, merged := AddSource(order, merged, explicitRows, Current);
    forall m | m in merged
      ensures merged[m] == SourcesOf(m, vector, fts, explicitRows)
    {
      assert merged[m] == SourcesIn(merged, m);
    }
  }

  ghost predicate Found(c: PrepareCommand, pinned: seq<int>, eligible: seq<int>) {
    forall i :: 0 <= i < |c.current| ==> c.current[i] in pinned || c.current[i] in eligible
  }

  /** The merged rows in id order. */
  method InOrder(order: seq<int>, merged: map<int, seq<Source>>) returns (pool: seq<Pooled>)
    requires Merged(order, merged)
    ensures forall i, j :: 0 <= i < j < |pool| ==> pool[i].memory < pool[j].memory
    ensures forall i :: 0 <= i < |pool| ==> pool[i].memory in merged && pool[i].sources == merged[pool[i].memory]
    ensures forall m :: m in merged ==> Pools(pool, m)
  {
    var ids := SortBy(IntLess, order);
    InIdOrder(order);
    hide SortBy, Distinct;
    pool := [];
    for i := 0 to |ids|
      invariant |pool| == i
      invariant forall k ::
        0 <= k < i ==> pool[k].memory == ids[k] && ids[k] in merged && pool[k].sources == merged[ids[k]]
    {
      var memory := ids[i];
      assert memory in ids && memory in order;
      pool := pool + [Pooled(memory, merged[memory])];
    }
    forall m | m in merged
      ensures Pools(pool, m)
    {
      assert m in ids;
      var k :| 0 <= k < |ids| && ids[k] == m;
      assert pool[k].memory == m;
    }
  }

  /**
   * The regular pool: what the vector search, the full-text search and the command name, each once, in id
   * order, with where it came from; refused when a current memory is not among the thread's eligible rows.
   */
  method LoadCandidates(c: PrepareCommand, pinned: seq<int>, eligible: seq<int>, vector: seq<int>, fts: seq<int>)
    returns (r: Result<seq<Pooled>, PrepareError>)
    requires Distinct(eligible) && Distinct(vector) && Distinct(fts)
    ensures r.Ok? <==> Found(c, pinned, eligible)
    ensures r.Err? ==> r.error == InvalidRescore
    ensures r.Ok? ==> forall i, j :: 0 <= i < j < |r.value| ==> r.value[i].memory < r.value[j].memory
    ensures r.Ok? ==> forall i :: 0 <= i < |r.value| ==>
      r.value[i].sources == SourcesOf(r.value[i].memory, vector, fts, Only(eligible, c.current))
        && r.value[i].sources != []
    ensures r.Ok? ==> forall m :: m in vector || m in fts || (m in eligible && m in c.current) ==> Pools(r.value, m)
  {
    hide Only, Merged, Pools, Distinct, SourcesIn;
    OnlyMembers(eligible, c.current);
    var explicitRows := Only(eligible, c.current);
    var order, merged := MergeSources(vector, fts, explicitRows);
    MissingRow(c, pinned, eligible);
    if exists i :: 0 <= i < |c.current| && c.current[i] !in pinned && c.current[i] !in explicitRows {
      return Err(InvalidRescore);
    }
    var pool := InOrder(order, merged);
    return Ok(pool);
  }

  lemma NothingMerged()
    ensures Merged([], map[])
  {
  }

  lemma MissingRow(c: PrepareCommand, pinned: seq<int>, eligible: seq<int>)
    ensures Found(c, pinned, eligible)
      <==> forall i :: 0 <= i < |c.current| ==> c.current[i] in pinned || c.current[i] in Only(eligible, c.current)
  {
    OnlyMembers(eligible, c.current);
    forall i | 0 <= i < |c.current|
      ensures c.current[i] in eligible <==> c.current[i] in Only(eligible, c.current)
    {
      var m := c.current[i];
      assert m in c.current;
      assert m in eligible <==> m in Only(eligible, c.current);
    }
  }

  ghost predicate Pools(pool: seq<Pooled>, memory: int) {
    exists i :: 0 <= i < |pool| && pool[i].memory == memory
  }

  lemma InIdOrder(order: seq<int>)
    requires Distinct(order)
    ensures var ids := SortBy(IntLess, order);
      && (forall i, j :: 0 <= i < j < |ids| ==> ids[i] < ids[j])
      && (forall m :: m in ids <==> m in order)
  {
    var ids := SortBy(IntLess, order);
    SortKeepsDistinct(IntLess, order);
    SortSorts(IntLess, order);
    forall m
      ensures m in ids <==> m in order
    {
      SortSameMembers(IntLess, order, m);
    }
    hide SortBy;
    forall i, j | 0 <= i < j < |ids|
      ensures ids[i] < ids[j]
    {
      assert !IntLess(ids[j], ids[i]) && ids[i] != ids[j];
    }
  }

  // The events.

  function EnteredAs(mode: Mode, current: set<int>, memory: int): Option<Outcome> {
    if mode == Gate then None else if memory in current then Some(Kept) else Some(AutoEntered)
  }

  function MissedAs(mode: Mode, current: set<int>, memory: int): Option<Outcome> {
    if mode == Autonomous && memory in current then Some(AutoExited) else None
  }

  datatype Writing = Writing(mode: Mode, current: set<int>, injection: nat, scorer: string)

  function InjectedEvent(item: Scored, w: Writing): Event {
    Event(w.injection, item.candidate.memory, if item.candidate.pin then Pinned else Injected,
          EnteredAs(w.mode, w.current, item.candidate.memory), w.scorer, item.rank)
  }

  function NearEvent(item: Scored, w: Writing): Event {
    Event(w.injection, item.candidate.memory, NearMiss, MissedAs(w.mode, w.current, item.candidate.memory),
      w.scorer, item.rank)
  }

  function CutEvent(item: Scored, w: Writing): Event {
    Event(w.injection, item.candidate.memory, BudgetCut, Some(Cut), w.scorer, item.rank)
  }

  function ExitEvent(item: Scored, w: Writing): Event {
    Event(w.injection, item.candidate.memory, NearMiss, Some(AutoExited), w.scorer, item.rank)
  }

  function Mapped(items: seq<Scored>, f: Scored -> Event): (r: seq<Event>)
    ensures |r| == |items| && forall i :: 0 <= i < |items| ==> r[i] == f(items[i])
  {
    seq(|items|, i requires 0 <= i < |items| => f(items[i]))
  }

  /** The current memories not recorded yet, each once. */
  function Exits(items: seq<Scored>, current: set<int>, recorded: set<int>): seq<Scored> {
    if |items| == 0 then []
    else if items[0].candidate.memory in current - recorded
    then [items[0]] + Exits(items[1..], current, recorded + {items[0].candidate.memory})
    else Exits(items[1..], current, recorded)
  }

  function MemoriesOf(items: seq<Scored>): set<int> {
    set i | 0 <= i < |items| :: items[i].candidate.memory
  }

  function EventsOf(s: Selected, w: Writing): seq<Event> {
    Mapped(s.injected, item => InjectedEvent(item, w)) + Mapped(s.nearMisses, item => NearEvent(item, w))
      + Mapped(s.budgetCuts, item => CutEvent(item, w))
      + if w.mode == Autonomous
        then Mapped(Exits(s.unselected, w.current, MemoriesOf(s.injected) + MemoriesOf(s.nearMisses)),
          item => ExitEvent(item, w))
        else []
  }

  lemma MemoriesGrow(items: seq<Scored>, i: nat)
    requires i < |items|
    ensures MemoriesOf(items[..i + 1]) == MemoriesOf(items[..i]) + {items[i].candidate.memory}
  {
    forall m | m in MemoriesOf(items[..i + 1])
      ensures m in MemoriesOf(items[..i]) + {items[i].candidate.memory}
    {
      var k :| 0 <= k < i + 1 && items[..i + 1][k].candidate.memory == m;
      assert k < i ==> items[..i][k].candidate.memory == m;
    }
    forall m | m in MemoriesOf(items[..i])
      ensures m in MemoriesOf(items[..i + 1])
    {
      var k :| 0 <= k < i && items[..i][k].candidate.memory == m;
      assert items[..i + 1][k].candidate.memory == m;
    }
    assert items[..i + 1][i].candidate.memory == items[i].candidate.memory;
  }

  method InsertEvents(s: Selected, w: Writing) returns (values: seq<Event>)
    ensures values == EventsOf(s, w)
  {
    hide MemoriesOf, InjectedEvent, NearEvent, CutEvent, ExitEvent;
    values := [];
    var recorded: set<int> := {};
    NoMemories();
    for i := 0 to |s.injected|
      invariant values == Mapped(s.injected[..i], item => InjectedEvent(item, w))
        && recorded == MemoriesOf(s.injected[..i])
    {
      MemoriesGrow(s.injected, i);
      recorded := recorded + {s.injected[i].candidate.memory};
      values := values + [InjectedEvent(s.injected[i], w)];
    }
    assert s.injected[..|s.injected|] == s.injected;
    ghost var first := values;
    for i := 0 to |s.nearMisses|
      invariant values == first + Mapped(s.nearMisses[..i], item => NearEvent(item, w))
      invariant recorded == MemoriesOf(s.injected) + MemoriesOf(s.nearMisses[..i])
    {
      MemoriesGrow(s.nearMisses, i);
      recorded := recorded + {s.nearMisses[i].candidate.memory};
      values := values + [NearEvent(s.nearMisses[i], w)];
    }
    assert s.nearMisses[..|s.nearMisses|] == s.nearMisses;
    ghost var second := values;
    for i := 0 to |s.budgetCuts|
      invariant values == second + Mapped(s.budgetCuts[..i], item => CutEvent(item, w))
    {
      values := values + [CutEvent(s.budgetCuts[i], w)];
    }
    assert s.budgetCuts[..|s.budgetCuts|] == s.budgetCuts;
    if w.mode == Autonomous {
      var exits := InsertExits(s.unselected, w, recorded);
      values := values + exits;
    }
  }

  lemma NoMemories()
    ensures MemoriesOf([]) == {}
  {
  }

  /** The loop over the unselected, recording as it goes. */
  method InsertExits(unselected: seq<Scored>, w: Writing, recorded0: set<int>) returns (values: seq<Event>)
    ensures values == Mapped(Exits(unselected, w.current, recorded0), item => ExitEvent(item, w))
  {
    var recorded := recorded0;
    values := [];
    ghost var exits: seq<Scored> := [];
    for i := 0 to |unselected|
      invariant exits + Exits(unselected[i..], w.current, recorded) == Exits(unselected, w.current, recorded0)
      invariant values == Mapped(exits, item => ExitEvent(item, w))
    {
      var item := unselected[i];
      assert unselected[i..][1..] == unselected[i + 1..];
      if item.candidate.memory in w.current - recorded {
        ghost var rest := Exits(unselected[i + 1..], w.current, recorded + {item.candidate.memory});
        assert exits + ([item] + rest) == (exits + [item]) + rest;
        recorded := recorded + {item.candidate.memory};
        values := values + [ExitEvent(item, w)];
        exits := exits + [item];
      }
    }
    assert exits + [] == exits;
  }

  // One gate event per memory.

  /** Budget cuts apart, no memory has two events. */
  ghost predicate OneEach(events: seq<Event>) {
    forall i, j :: 0 <= i < j < |events| && events[i].shown != BudgetCut && events[j].shown != BudgetCut
      ==> events[i].memory != events[j].memory
  }

  ghost predicate Apart(a: seq<Event>, b: seq<Event>) {
    forall i, j :: 0 <= i < |a| && 0 <= j < |b| && a[i].shown != BudgetCut && b[j].shown != BudgetCut
      ==> a[i].memory != b[j].memory
  }

  lemma OneEachTogether(a: seq<Event>, b: seq<Event>)
    requires OneEach(a) && OneEach(b) && Apart(a, b)
    ensures OneEach(a + b)
  {
    var both := a + b;
    forall i, j | 0 <= i < j < |both| && both[i].shown != BudgetCut && both[j].shown != BudgetCut
      ensures both[i].memory != both[j].memory
    {
      if j < |a| {
        assert both[i] == a[i] && both[j] == a[j];
      } else if |a| <= i {
        assert both[i] == b[i - |a|] && both[j] == b[j - |a|];
      } else {
        assert both[i] == a[i] && both[j] == b[j - |a|];
      }
    }
  }

  lemma ApartTogether(a: seq<Event>, b: seq<Event>, c: seq<Event>)
    requires Apart(a, c) && Apart(b, c)
    ensures Apart(a + b, c)
  {
  }

  /** The exits are current memories that were not recorded, each once, and no such memory is missed. */
  lemma {:induction false} ExitsAreTheRest(items: seq<Scored>, current: set<int>, recorded: set<int>)
    ensures OnceEach(Exits(items, current, recorded))
    ensures forall i :: 0 <= i < |Exits(items, current, recorded)| ==>
      Exits(items, current, recorded)[i].candidate.memory in current - recorded
    decreases |items|
  {
    if |items| > 0 {
      var m := items[0].candidate.memory;
      if m in current - recorded {
        ExitsAreTheRest(items[1..], current, recorded + {m});
      } else {
        ExitsAreTheRest(items[1..], current, recorded);
      }
    }
  }

  lemma {:induction false} ExitsMissNone(items: seq<Scored>, current: set<int>, recorded: set<int>, k: nat)
    requires k < |items| && items[k].candidate.memory in current - recorded
    ensures items[k].candidate.memory in MemoriesOf(Exits(items, current, recorded))
    decreases |items|
  {
    var m := items[0].candidate.memory;
    var exits := Exits(items, current, recorded);
    if items[k].candidate.memory == m {
      assert exits[0].candidate.memory == m;
    } else {
      var after := if m in current - recorded then recorded + {m} else recorded;
      ExitsMissNone(items[1..], current, after, k - 1);
      var rest := Exits(items[1..], current, after);
      var i :| 0 <= i < |rest| && rest[i].candidate.memory == items[k].candidate.memory;
      assert exits[i + |exits| - |rest|] == rest[i];
    }
  }

  /** What a selection must be for its events to be one per memory. */
  ghost predicate Sound(s: Selected) {
    && OnceEach(s.injected + s.unselected)
    && |s.nearMisses| <= |s.unselected| && s.nearMisses == s.unselected[..|s.nearMisses|]
  }

  lemma SoundParts(s: Selected)
    requires Sound(s)
    ensures OnceEach(s.injected) && OnceEach(s.nearMisses) && OnceEach(s.unselected)
    ensures forall i, j :: 0 <= i < |s.injected| && 0 <= j < |s.unselected| ==>
      s.injected[i].candidate.memory != s.unselected[j].candidate.memory
  {
    var both := s.injected + s.unselected;
    assert forall i :: 0 <= i < |s.injected| ==> both[i] == s.injected[i];
    forall i, j | 0 <= i < j < |s.unselected|
      ensures s.unselected[i].candidate.memory != s.unselected[j].candidate.memory
    {
      assert both[|s.injected| + i] == s.unselected[i] && both[|s.injected| + j] == s.unselected[j];
    }
    forall i, j | 0 <= i < |s.injected| && 0 <= j < |s.unselected|
      ensures s.injected[i].candidate.memory != s.unselected[j].candidate.memory
    {
      assert both[i] == s.injected[i] && both[|s.injected| + j] == s.unselected[j];
    }
  }

  /** The batch that a prepare writes has at most one event per memory besides budget cuts. */
  lemma EventsAreOneEach(s: Selected, w: Writing)
    requires Sound(s)
    ensures OneEach(EventsOf(s, w))
  {
    SoundParts(s);
    var recorded := MemoriesOf(s.injected) + MemoriesOf(s.nearMisses);
    ExitsAreTheRest(s.unselected, w.current, recorded);
    var exits := if w.mode == Autonomous then Exits(s.unselected, w.current, recorded) else [];
    hide Exits;
    var a := Mapped(s.injected, item => InjectedEvent(item, w));
    var b := Mapped(s.nearMisses, item => NearEvent(item, w));
    var c := Mapped(s.budgetCuts, item => CutEvent(item, w));
    var d := Mapped(exits, item => ExitEvent(item, w));
    OneEachTogether(a, b);
    OneEachTogether(a + b, c);
    forall i, j | 0 <= i < |a| && 0 <= j < |d|
      ensures a[i].memory != d[j].memory
    {
      assert a[i].memory in MemoriesOf(s.injected);
    }
    forall i, j | 0 <= i < |b| && 0 <= j < |d|
      ensures b[i].memory != d[j].memory
    {
      assert b[i].memory in MemoriesOf(s.nearMisses);
    }
    ApartTogether(a, b, d);
    ApartTogether(a + b, c, d);
    OneEachTogether(a + b + c, d);
    assert EventsOf(s, w) == a + b + c + d;
  }

  lemma EventsAreInitial(s: Selected, w: Writing)
    ensures forall i :: 0 <= i < |EventsOf(s, w)| ==>
      EventsOf(s, w)[i].injection == w.injection && Initial(EventsOf(s, w)[i].outcome)
  {
  }

  /**
   * The batch read off: first what was injected, then the near misses, then the cuts, then in autonomous mode the
   * current memories among the unselected that none of the first two lists.
   */
  lemma EventsRead(s: Selected, w: Writing, k: nat)
    ensures var n, m, b := |s.injected|, |s.injected| + |s.nearMisses|, |s.injected| + |s.nearMisses| + |s.budgetCuts|;
      && (if w.mode == Gate then |EventsOf(s, w)| == b else |EventsOf(s, w)| >= b)
      && (k < n ==>
           var x := s.injected[k];
           EventsOf(s, w)[k] == Event(w.injection, x.candidate.memory, if x.candidate.pin then Pinned else Injected,
             if w.mode == Gate then None else if x.candidate.memory in w.current then Some(Kept) else Some(AutoEntered),
             w.scorer, x.rank))
      && (n <= k < m ==>
           var x := s.nearMisses[k - n];
           EventsOf(s, w)[k] == Event(w.injection, x.candidate.memory, NearMiss,
             if w.mode == Autonomous && x.candidate.memory in w.current then Some(AutoExited) else None,
             w.scorer, x.rank))
      && (m <= k < b ==>
           var x := s.budgetCuts[k - m];
           EventsOf(s, w)[k] == Event(w.injection, x.candidate.memory, BudgetCut, Some(Cut), w.scorer, x.rank))
      && (b <= k < |EventsOf(s, w)| ==>
           exists x :: x in s.unselected && x.candidate.memory in w.current
             && (forall y :: y in s.injected + s.nearMisses ==> y.candidate.memory != x.candidate.memory)
             && EventsOf(s, w)[k]
                  == Event(w.injection, x.candidate.memory, NearMiss, Some(AutoExited), w.scorer, x.rank))
  {
    var b := |s.injected| + |s.nearMisses| + |s.budgetCuts|;
    if b <= k < |EventsOf(s, w)| {
      var recorded := MemoriesOf(s.injected) + MemoriesOf(s.nearMisses);
      var exits := Exits(s.unselected, w.current, recorded);
      assert EventsOf(s, w)[k] == ExitEvent(exits[k - b], w);
      ExitIsUnselected(s.unselected, w.current, recorded, k - b);
      var x := exits[k - b];
      forall y | y in s.injected + s.nearMisses
        ensures y.candidate.memory in recorded
      {
        MemberHasMemory(s.injected, y);
        MemberHasMemory(s.nearMisses, y);
      }
    }
    hide Exits, MemoriesOf;
  }

  lemma MemberHasMemory(items: seq<Scored>, y: Scored)
    ensures y in items ==> y.candidate.memory in MemoriesOf(items)
  {
    if y in items {
      var i :| 0 <= i < |items| && items[i] == y;
    }
  }

  lemma {:induction false} ExitIsUnselected(items: seq<Scored>, current: set<int>, recorded: set<int>, k: nat)
    requires k < |Exits(items, current, recorded)|
    ensures var x := Exits(items, current, recorded)[k];
      x in items && x.candidate.memory in current && x.candidate.memory !in recorded
    decreases |items|
  {
    var m := items[0].candidate.memory;
    if m !in current - recorded {
      ExitIsUnselected(items[1..], current, recorded, k);
    } else if k > 0 {
      ExitIsUnselected(items[1..], current, recorded + {m}, k - 1);
    }
  }

  /** Each event of the batch says how the memory was shown and, in autonomous mode, what became of it. */
  ghost predicate EventsTell(events: seq<Event>, mode: Mode, current: seq<int>, pinned: seq<int>, injection: nat,
                             scorer: string)
  {
    forall i :: 0 <= i < |events| ==>
      var e := events[i];
      && e.injection == injection && e.scorer == scorer
      && (e.shown == Pinned ==> e.memory in pinned) && (e.shown == Injected ==> e.memory !in pinned)
      && e.outcome ==
           if e.shown == BudgetCut then Some(Cut)
           else if mode == Gate then None
           else if e.shown == NearMiss then (if e.memory in current then Some(AutoExited) else None)
           else if e.memory in current then Some(Kept) else Some(AutoEntered)
  }

  lemma BatchTells(s: Selected, w: Writing, current: seq<int>, pinned: seq<int>)
    requires forall m :: m in w.current <==> m in current
    requires forall x :: x in s.injected ==> (x.candidate.pin <==> x.candidate.memory in pinned)
    ensures EventsTell(EventsOf(s, w), w.mode, current, pinned, w.injection, w.scorer)
  {
    forall k | 0 <= k < |EventsOf(s, w)|
      ensures var e := EventsOf(s, w)[k];
        && e.injection == w.injection && e.scorer == w.scorer
        && (e.shown == Pinned ==> e.memory in pinned) && (e.shown == Injected ==> e.memory !in pinned)
        && e.outcome ==
             if e.shown == BudgetCut then Some(Cut)
             else if w.mode == Gate then None
             else if e.shown == NearMiss then (if e.memory in current then Some(AutoExited) else None)
             else if e.memory in current then Some(Kept) else Some(AutoEntered)
    {
      EventsRead(s, w, k);
      hide EventsOf;
      if k < |s.injected| {
        assert s.injected[k] in s.injected;
      }
    }
    hide EventsOf;
  }

  /** The memory's disposition in an autonomous batch. */
  predicate Disposes(e: Event, memory: int) {
    e.memory == memory && (e.outcome == Some(Kept) || e.outcome == Some(AutoExited))
  }

  lemma InjectedIsKept(s: Selected, w: Writing, k: nat)
    requires w.mode == Autonomous && k < |s.injected| && s.injected[k].candidate.memory in w.current
    ensures k < |EventsOf(s, w)| && EventsOf(s, w)[k].memory == s.injected[k].candidate.memory
      && EventsOf(s, w)[k].outcome == Some(Kept)
  {
    hide Exits;
    assert EventsOf(s, w)[k] == InjectedEvent(s.injected[k], w);
  }

  lemma UnselectedIsExited(s: Selected, w: Writing, k: nat)
    requires Sound(s) && w.mode == Autonomous && k < |s.unselected| && s.unselected[k].candidate.memory in w.current
    ensures exists i :: 0 <= i < |EventsOf(s, w)| && Disposes(EventsOf(s, w)[i], s.unselected[k].candidate.memory)
  {
    SoundParts(s);
    var m := s.unselected[k].candidate.memory;
    var recorded := MemoriesOf(s.injected) + MemoriesOf(s.nearMisses);
    var events := EventsOf(s, w);
    if k < |s.nearMisses| {
      assert events[|s.injected| + k] == NearEvent(s.nearMisses[k], w);
    } else {
      ExitsMissNone(s.unselected, w.current, recorded, k);
      var exits := Exits(s.unselected, w.current, recorded);
      var i :| 0 <= i < |exits| && exits[i].candidate.memory == m;
      assert events[|events| - |exits| + i] == ExitEvent(exits[i], w);
    }
  }

  /** In autonomous mode a current memory that was ranked has exactly one event at kept or auto-exited. */
  lemma CurrentDisposedOnce(s: Selected, w: Writing, m: int)
    requires Sound(s) && w.mode == Autonomous && m in w.current
    requires m in MemoriesOf(s.injected) || m in MemoriesOf(s.unselected)
    ensures exists i :: 0 <= i < |EventsOf(s, w)| && Disposes(EventsOf(s, w)[i], m)
    ensures forall i, j ::
      0 <= i < j < |EventsOf(s, w)| && Disposes(EventsOf(s, w)[i], m) ==> !Disposes(EventsOf(s, w)[j], m)
  {
    if m in MemoriesOf(s.injected) {
      var k :| 0 <= k < |s.injected| && s.injected[k].candidate.memory == m;
      InjectedIsKept(s, w, k);
      assert Disposes(EventsOf(s, w)[k], m);
    } else {
      var k :| 0 <= k < |s.unselected| && s.unselected[k].candidate.memory == m;
      UnselectedIsExited(s, w, k);
    }
    EventsAreOneEach(s, w);
    CutsAreCuts(s, w);
    hide EventsOf;
  }

  lemma CutsAreCuts(s: Selected, w: Writing)
    ensures forall i ::
      0 <= i < |EventsOf(s, w)| && EventsOf(s, w)[i].shown == BudgetCut ==> EventsOf(s, w)[i].outcome == Some(Cut)
  {
  }

  // The operation.

  function Candidates(memories: seq<int>, pin: bool, score: int -> real, cost: int -> nat): (r: seq<Candidate>)
    ensures |r| == |memories|
    ensures forall i :: 0 <= i < |r| ==> r[i] == Candidate(memories[i], pin, score(memories[i]), cost(memories[i]))
  {
    seq(|memories|, i requires 0 <= i < |memories| => Candidate(memories[i], pin, score(memories[i]),
      cost(memories[i])))
  }

  function PooledIds(pool: seq<Pooled>): (r: seq<int>)
    ensures |r| == |pool| && forall i :: 0 <= i < |pool| ==> r[i] == pool[i].memory
  {
    seq(|pool|, i requires 0 <= i < |pool| => pool[i].memory)
  }

  lemma SelectionIsSound(s: Selected, pins: seq<Candidate>, regular: seq<Candidate>, locked: set<int>, context: int,
                         params: Params)
    requires SelectsFrom(s, pins, regular, locked, context, params) && Partition(pins, regular)
    ensures Sound(s)
  {
    SelectedOnce(s, pins, regular, locked, context, params);
    hide RankedPins, RankedLocked, RankedRegular, Chosen, Unchosen, AtLeast, CostOf, ShareTokens,
      RegularBudget, OnceEach;
  }

  lemma RankedOrNot(s: Selected, pins: seq<Candidate>, regular: seq<Candidate>, locked: set<int>, context: int,
                    params: Params, x: Candidate)
    requires SelectsFrom(s, pins, regular, locked, context, params) && x in pins + regular
    ensures x.memory in MemoriesOf(s.injected) || x.memory in MemoriesOf(s.unselected)
  {
    var all := RankedAll(pins, regular, locked);
    RanksAreComplete(pins, regular, locked);
    SelectionPartitions(s, pins, regular, locked, context, params);
    hide SelectsFrom, RankedAll;
    assert x in multiset(CandidatesOf(all));
    assert x in CandidatesOf(all);
    var i :| 0 <= i < |all| && all[i].candidate == x;
    assert all[i] in multiset(s.injected + s.unselected);
    assert all[i] in s.injected || all[i] in s.unselected;
  }

  lemma LockedIsInjected(s: Selected, pins: seq<Candidate>, regular: seq<Candidate>, locked: set<int>, context: int,
                         params: Params, m: int)
    requires SelectsFrom(s, pins, regular, locked, context, params) && Eligible(pins, regular, locked) && m in locked
    ensures m in MemoriesOf(s.injected)
  {
    if m in IdSet(pins) {
      var k :| 0 <= k < |pins| && pins[k].memory == m;
      assert pins[k] in pins;
      GroupsHold(pins, regular, locked, pins[k]);
      RankedIsInjected(s, RankedPins(pins), 0, pins[k]);
    } else {
      var k :| 0 <= k < |regular| && regular[k].memory == m;
      assert regular[k] in regular;
      assert forall p :: p in pins ==> p.memory != m by {
        IdSetHas(pins, m);
      }
      GroupsHold(pins, regular, locked, regular[k]);
      RankedIsInjected(s, RankedLocked(pins, regular, locked), |RankedPins(pins)|, regular[k]);
    }
  }

  lemma RankedIsInjected(s: Selected, group: seq<Scored>, from: nat, x: Candidate)
    requires from + |group| <= |s.injected| && s.injected[from..from + |group|] == group && x in CandidatesOf(group)
    ensures x.memory in MemoriesOf(s.injected)
  {
    var i :| 0 <= i < |group| && CandidatesOf(group)[i] == x;
    assert s.injected[from + i] == s.injected[from..from + |group|][i] == group[i];
  }

  /** The rows that the database offers: pinned and unpinned rows apart, search results among the unpinned. */
  ghost predicate Rows(pinned: seq<int>, eligible: seq<int>, vector: seq<int>, fts: seq<int>) {
    && Distinct(pinned) && Distinct(eligible) && Distinct(vector) && Distinct(fts)
    && Without(pinned, eligible) && Within(vector, eligible) && Within(fts, eligible)
  }

  /** Every current memory has exactly one event at kept or auto-exited, and every confirmed one is kept. */
  ghost predicate Continues(c: PrepareCommand, events: seq<Event>) {
    && (forall k :: 0 <= k < |c.current| ==> DisposedOnce(events, c.current[k]))
    && (forall k :: 0 <= k < |c.confirmed| ==> KeptIn(events, c.confirmed[k]))
  }

  ghost predicate DisposedOnce(events: seq<Event>, m: int) {
    && (exists i :: 0 <= i < |events| && Disposes(events[i], m))
    && (forall i, j :: 0 <= i < j < |events| && Disposes(events[i], m) ==> !Disposes(events[j], m))
  }

  ghost predicate KeptIn(events: seq<Event>, m: int) {
    exists i :: 0 <= i < |events| && events[i].memory == m && events[i].outcome == Some(Kept)
  }

  method PrepareOnce(c: PrepareCommand, pinned: seq<int>, eligible: seq<int>, vector: seq<int>, fts: seq<int>,
                     score: int -> real, cost: int -> nat, context: int, params: Params, injection: nat, scorer: string)
    returns (r: Result<seq<Event>, PrepareError>, ghost s: Selected, ghost pool: seq<int>)
    requires Rows(pinned, eligible, vector, fts)
    ensures r.Ok? <==> ValidCommand(c) && Found(c, pinned, eligible) && context > 0
    ensures r == Err(InvalidRescore) <==> !ValidCommand(c) || !Found(c, pinned, eligible)
    ensures r.Ok? ==> forall m :: m in pool <==> m in vector || m in fts || (m in eligible && m in c.current)
    ensures r.Ok? ==>
      && SelectsFrom(s, Candidates(pinned, true, score, cost), Candidates(pool, false, score, cost),
                     (set m | m in c.confirmed), context, params)
      && r.value == EventsOf(s, Writing(c.mode, (set m | m in c.current), injection, scorer))
      && EventsTell(r.value, c.mode, c.current, pinned, injection, scorer)
    ensures r.Ok? ==> OneEach(r.value)
    ensures r.Ok? ==> forall i ::
      0 <= i < |r.value| ==> r.value[i].injection == injection && Initial(r.value[i].outcome)
    ensures r.Ok? && c.mode == Autonomous ==> Continues(c, r.value)
  {
    assert Distinct(eligible) && Distinct(vector) && Distinct(fts);
    hide SelectsFrom, Partition, Eligible, EventsOf, Rows, OneEach, EventsTell, Only, SourcesOf, Continues;
    pool, s := [], Selected([], [], [], [], 0, 0, 0, 0, 0);
    var valid := ValidateCommand(c);
    if !valid {
      r := Err(InvalidRescore);
      return;
    }
    var loaded := LoadCandidates(c, pinned, eligible, vector, fts);
    if loaded.Err? {
      r := Err(loaded.error);
      return;
    }
    var rows := loaded.value;
    var ids := PooledIds(rows);
    var pins := Candidates(pinned, true, score, cost);
    var regular := Candidates(ids, false, score, cost);
    var locked := SetOf(c.confirmed);
    PoolHolds(c, eligible, vector, fts, rows);
    PoolIsPartition(c, pinned, eligible, vector, fts, rows, score, cost);
    CurrentAreCandidates(c, pinned, eligible, vector, fts, rows, score, cost, locked);
    var selection := ScoreAndSelect(pins, regular, locked, context, params);
    if selection.Err? {
      r := Err(Unselectable(selection.error));
      return;
    }
    var current := SetOf(c.current);
    var w := Writing(c.mode, current, injection, scorer);
    var events := InsertEvents(selection.value, w);
    pool, s := ids, selection.value;
    SetOfIs(current, c.current);
    SetOfIs(locked, c.confirmed);
    BatchHolds(c, pinned, eligible, vector, fts, ids, score, cost, locked, s, context, params, w);
    r := Ok(events);
  }

  lemma BatchHolds(c: PrepareCommand, pinned: seq<int>, eligible: seq<int>, vector: seq<int>, fts: seq<int>,
                   ids: seq<int>, score: int -> real, cost: int -> nat, locked: set<int>, s: Selected, context: int,
                   params: Params, w: Writing)
    requires Rows(pinned, eligible, vector, fts) && ValidCommand(c) && Found(c, pinned, eligible)
    requires forall m :: m in ids <==> m in vector || m in fts || (m in eligible && m in c.current)
    requires forall m :: m in c.current ==> m in pinned || m in ids
    requires forall m :: m in locked <==> m in c.confirmed
    requires w.mode == c.mode && forall m :: m in w.current <==> m in c.current
    requires var pins, regular := Candidates(pinned, true, score, cost), Candidates(ids, false, score, cost);
      && SelectsFrom(s, pins, regular, locked, context, params)
      && Partition(pins, regular) && Eligible(pins, regular, locked)
    ensures EventsTell(EventsOf(s, w), w.mode, c.current, pinned, w.injection, w.scorer) && OneEach(EventsOf(s, w))
    ensures forall i :: 0 <= i < |EventsOf(s, w)| ==>
      EventsOf(s, w)[i].injection == w.injection && Initial(EventsOf(s, w)[i].outcome)
    ensures c.mode == Autonomous ==> Continues(c, EventsOf(s, w))
  {
    PinsAreFlagged(s, pinned, ids, score, cost, locked, context, params);
    PinnedApart(pinned, eligible, vector, fts, ids, c);
    hide Candidates, SelectsFrom, Partition, Eligible, EventsOf, Sound, OneEach, MemoriesOf, EventsTell, Rows;
    var pins, regular := Candidates(pinned, true, score, cost), Candidates(ids, false, score, cost);
    SelectionIsSound(s, pins, regular, locked, context, params);
    EventsAreOneEach(s, w);
    EventsAreInitial(s, w);
    BatchTells(s, w, c.current, pinned);
    if c.mode == Autonomous {
      ContinuesFrom(c, pinned, ids, score, cost, locked, s, context, params, w);
    }
  }

  lemma SetOfIs(a: set<int>, s: seq<int>)
    requires forall x :: x in a <==> x in s
    ensures a == set m | m in s
  {
    var b := set m | m in s;
    forall x
      ensures x in a <==> x in b
    {
      assert x in a <==> x in s;
    }
  }

  lemma PoolHolds(c: PrepareCommand, eligible: seq<int>, vector: seq<int>, fts: seq<int>, pool: seq<Pooled>)
    requires forall i :: 0 <= i < |pool| ==>
      pool[i].sources == SourcesOf(pool[i].memory, vector, fts, Only(eligible, c.current)) && pool[i].sources != []
    requires forall m :: m in vector || m in fts || (m in eligible && m in c.current) ==> Pools(pool, m)
    ensures forall m :: m in PooledIds(pool) <==> m in vector || m in fts || (m in eligible && m in c.current)
  {
    OnlyMembers(eligible, c.current);
    hide Only;
    forall m | Pools(pool, m)
      ensures m in PooledIds(pool)
    {
      var i :| 0 <= i < |pool| && pool[i].memory == m;
      assert PooledIds(pool)[i] == m;
    }
  }

  lemma PinnedApart(pinned: seq<int>, eligible: seq<int>, vector: seq<int>, fts: seq<int>, ids: seq<int>,
                    c: PrepareCommand)
    requires Rows(pinned, eligible, vector, fts)
    requires forall m :: m in ids <==> m in vector || m in fts || (m in eligible && m in c.current)
    ensures forall m :: m in pinned ==> m !in ids
  {
  }

  lemma PinsAreFlagged(s: Selected, pinned: seq<int>, ids: seq<int>, score: int -> real, cost: int -> nat,
                       locked: set<int>, context: int, params: Params)
    requires SelectsFrom(s, Candidates(pinned, true, score, cost), Candidates(ids, false, score, cost), locked,
      context, params)
    ensures forall x :: x in s.injected ==>
      x.candidate.memory in (if x.candidate.pin then pinned else ids)
  {
    var pins, regular := Candidates(pinned, true, score, cost), Candidates(ids, false, score, cost);
    var all := RankedAll(pins, regular, locked);
    RanksAreComplete(pins, regular, locked);
    SelectionPartitions(s, pins, regular, locked, context, params);
    hide SelectsFrom, RankedAll;
    forall x | x in s.injected
      ensures x.candidate.memory in (if x.candidate.pin then pinned else ids)
    {
      assert x in s.injected + s.unselected;
      assert x in multiset(all);
      var i :| 0 <= i < |all| && all[i] == x;
      assert CandidatesOf(all)[i] in multiset(CandidatesOf(all));
      assert x.candidate in pins + regular;
    }
  }

  lemma PoolIsPartition(c: PrepareCommand, pinned: seq<int>, eligible: seq<int>, vector: seq<int>, fts: seq<int>,
                        pool: seq<Pooled>, score: int -> real, cost: int -> nat)
    requires Rows(pinned, eligible, vector, fts)
    requires forall i, j :: 0 <= i < j < |pool| ==> pool[i].memory < pool[j].memory
    requires forall i :: 0 <= i < |pool| ==>
      pool[i].sources == SourcesOf(pool[i].memory, vector, fts, Only(eligible, c.current)) && pool[i].sources != []
    ensures Partition(Candidates(pinned, true, score, cost), Candidates(PooledIds(pool), false, score, cost))
  {
    OnlyMembers(eligible, c.current);
    forall i | 0 <= i < |pool|
      ensures pool[i].memory in eligible
    {
      var m := pool[i].memory;
      if m in vector {
        var k :| 0 <= k < |vector| && vector[k] == m;
        assert vector[k] in eligible;
      } else if m in fts {
        var k :| 0 <= k < |fts| && fts[k] == m;
        assert fts[k] in eligible;
      }
    }
    hide Only;
    var both := Candidates(pinned, true, score, cost) + Candidates(PooledIds(pool), false, score, cost);
    forall i, j | 0 <= i < j < |both|
      ensures both[i].memory != both[j].memory
    {
      if j < |pinned| {
        assert pinned[i] != pinned[j];
      } else if i < |pinned| {
        assert pinned[i] !in eligible;
      }
    }
  }

  lemma CurrentAreCandidates(c: PrepareCommand, pinned: seq<int>, eligible: seq<int>, vector: seq<int>, fts: seq<int>,
                             pool: seq<Pooled>, score: int -> real, cost: int -> nat, locked: set<int>)
    requires ValidCommand(c) && Found(c, pinned, eligible)
    requires forall m :: m in vector || m in fts || (m in eligible && m in c.current) ==> Pools(pool, m)
    requires forall m :: m in locked <==> m in c.confirmed
    ensures forall m :: m in c.current ==> m in pinned || m in PooledIds(pool)
    ensures Eligible(Candidates(pinned, true, score, cost), Candidates(PooledIds(pool), false, score, cost), locked)
  {
    forall m | m in c.current
      ensures m in pinned || m in PooledIds(pool)
    {
      var k :| 0 <= k < |c.current| && c.current[k] == m;
      assert c.current[k] in pinned || c.current[k] in eligible;
      if m !in pinned {
        assert Pools(pool, m);
        var i :| 0 <= i < |pool| && pool[i].memory == m;
        assert PooledIds(pool)[i] == m;
      }
    }
    var pins, regular := Candidates(pinned, true, score, cost), Candidates(PooledIds(pool), false, score, cost);
    forall m | m in locked
      ensures m in IdSet(pins) || m in IdSet(regular)
    {
      var k :| 0 <= k < |c.confirmed| && c.confirmed[k] == m;
      assert c.confirmed[k] in c.current;
      IdIsIn(pinned, true, score, cost, m);
      IdIsIn(PooledIds(pool), false, score, cost, m);
    }
  }

  lemma IdIsIn(memories: seq<int>, pin: bool, score: int -> real, cost: int -> nat, m: int)
    ensures m in memories ==> m in IdSet(Candidates(memories, pin, score, cost))
    ensures m in memories ==> Candidate(m, pin, score(m), cost(m)) in Candidates(memories, pin, score, cost)
  {
    if m in memories {
      var i :| 0 <= i < |memories| && memories[i] == m;
      assert Candidates(memories, pin, score, cost)[i].memory == m;
    }
  }

  lemma ContinuesFrom(c: PrepareCommand, pinned: seq<int>, ids: seq<int>, score: int -> real, cost: int -> nat,
                      locked: set<int>, s: Selected, context: int, params: Params, w: Writing)
    requires ValidCommand(c) && w.mode == Autonomous && Sound(s)
    requires forall m :: m in c.current ==> m in pinned || m in ids
    requires forall m :: m in w.current <==> m in c.current
    requires forall m :: m in locked <==> m in c.confirmed
    requires SelectsFrom(s, Candidates(pinned, true, score, cost), Candidates(ids, false, score, cost), locked,
      context, params)
    requires Eligible(Candidates(pinned, true, score, cost), Candidates(ids, false, score, cost), locked)
    ensures Continues(c, EventsOf(s, w))
  {
    hide SelectsFrom, Eligible, Sound, EventsOf, MemoriesOf;
    var pins, regular := Candidates(pinned, true, score, cost), Candidates(ids, false, score, cost);
    forall k | 0 <= k < |c.current|
      ensures DisposedOnce(EventsOf(s, w), c.current[k])
    {
      var m := c.current[k];
      assert m in c.current;
      IdIsIn(pinned, true, score, cost, m);
      IdIsIn(ids, false, score, cost, m);
      RankedOrNot(s, pins, regular, locked, context, params, Candidate(m, m in pinned, score(m), cost(m)));
      CurrentDisposedOnce(s, w, m);
    }
    forall k | 0 <= k < |c.confirmed|
      ensures KeptIn(EventsOf(s, w), c.confirmed[k])
    {
      var m := c.confirmed[k];
      assert m in c.confirmed && m in c.current;
      LockedIsInjected(s, pins, regular, locked, context, params, m);
      InjectedMemoryIsKept(s, w, m);
    }
  }

  lemma InjectedMemoryIsKept(s: Selected, w: Writing, m: int)
    requires w.mode == Autonomous && m in w.current && m in MemoriesOf(s.injected)
    ensures KeptIn(EventsOf(s, w), m)
  {
    hide EventsOf;
    var k :| 0 <= k < |s.injected| && s.injected[k].candidate.memory == m;
    InjectedIsKept(s, w, k);
  }

  // No run makes a gate ambiguous.

  /** Every event belongs to an injection minted before. */
  ghost predicate InjectionsMinted(s: Store) {
    forall i :: 0 <= i < |s.events| ==> s.events[i].injection < s.minted
  }

  ghost predicate EachGateOnce(s: Store) {
    && InjectionsMinted(s)
    && forall i, j ::
         0 <= i < j < |s.events| && s.events[i].injection == s.events[j].injection
         && s.events[i].shown != BudgetCut && s.events[j].shown != BudgetCut
         ==> s.events[i].memory != s.events[j].memory
  }

  lemma StepKeepsGates(s: Store, rules: Rules, step: Step)
    requires EachGateOnce(s)
    requires step.DoPrepare? ==> OneEach(step.batch)
    ensures EachGateOnce(After(s, rules, step))
  {
    StepAges(s, rules, step);
    var t := After(s, rules, step);
    match step
    case DoPrepare(batch, at) =>
      hide After;
      PrepareKeepsGates(s, batch, at);
      assert t == Prepare(s, batch, at) by { DoPrepareIs(s, rules, batch, at); }
    case DoCommit(c, at) => SameTable(s, t, rules, step);
    case DoFeedback(f) => SameTable(s, t, rules, step);
  }

  lemma DoPrepareIs(s: Store, rules: Rules, batch: seq<Event>, at: int)
    ensures After(s, rules, DoPrepare(batch, at)) == Prepare(s, batch, at)
  {
  }

  lemma SameTable(s: Store, t: Store, rules: Rules, step: Step)
    requires EachGateOnce(s) && Ages(s, t) && !step.DoPrepare? && t == After(s, rules, step)
    ensures EachGateOnce(t)
  {
    hide Commit, Desired, HeadAfter;
    assert |t.events| == |s.events| && t.minted == s.minted by { StepKeepsLength(s, rules, step); }
    forall i | 0 <= i < |t.events|
      ensures t.events[i] == s.events[i].(outcome := t.events[i].outcome)
    {
      assert Older(s.events[i], t.events[i]);
    }
  }

  lemma StepKeepsLength(s: Store, rules: Rules, step: Step)
    requires !step.DoPrepare?
    ensures |After(s, rules, step).events| == |s.events| && After(s, rules, step).minted == s.minted
  {
  }

  lemma PrepareKeepsGates(s: Store, batch: seq<Event>, at: int)
    requires EachGateOnce(s) && OneEach(batch)
    ensures EachGateOnce(Prepare(s, batch, at))
  {
    var t := Prepare(s, batch, at);
    if t != s {
      var n := |s.events|;
      forall i, j | 0 <= i < j < |t.events| && t.events[i].injection == t.events[j].injection
        && t.events[i].shown != BudgetCut && t.events[j].shown != BudgetCut
        ensures t.events[i].memory != t.events[j].memory
      {
        if j < n {
          assert t.events[i] == s.events[i] && t.events[j] == s.events[j];
        } else if n <= i {
          assert t.events[i] == batch[i - n] && t.events[j] == batch[j - n];
        }
      }
    }
  }

  /**
   * Over every run whose prepares write batches of one event per memory, as every prepare does, planning a
   * commit never meets a duplicate memory.
   */
  lemma {:induction false} DuplicatesNeverMet(s: Store, rules: Rules, steps: seq<Step>)
    requires EachGateOnce(s)
    requires forall k :: 0 <= k < |steps| && steps[k].DoPrepare? ==> OneEach(steps[k].batch)
    ensures EachGateOnce(Run(s, rules, steps))
    ensures forall c :: PlanError(RowsOf(Run(s, rules, steps).events), c) != Some(DecisionState)
    decreases |steps|
  {
    if |steps| > 0 {
      DuplicatesNeverMet(s, rules, steps[..|steps| - 1]);
      StepKeepsGates(Run(s, rules, steps[..|steps| - 1]), rules, steps[|steps| - 1]);
    }
    var t := Run(s, rules, steps);
    hide Run;
    forall c
      ensures PlanError(RowsOf(t.events), c) != Some(DecisionState)
    {
      GateIsOnce(t, c.injection);
    }
  }

  lemma GateIsOnce(s: Store, injection: nat)
    requires EachGateOnce(s)
    ensures OncePerMemory(RowsOf(s.events), injection)
  {
    var rows := RowsOf(s.events);
    forall a, b | a in rows && b in rows && AtGate(a.event, injection) && AtGate(b.event, injection) && a != b
      ensures a.event.memory != b.event.memory
    {
      var i :| 0 <= i < |rows| && rows[i] == a;
      var j :| 0 <= j < |rows| && rows[j] == b;
      assert s.events[i] == a.event && s.events[j] == b.event && i != j;
    }
  }

  // When feedback cannot tell which event is meant.

  function Having(events: seq<Event>, memory: int): nat {
    if |events| == 0 then 0
    else Having(events[..|events| - 1], memory) + if events[|events| - 1].memory == memory then 1 else 0
  }

  lemma {:induction false} HavingTogether(a: seq<Event>, b: seq<Event>, memory: int)
    ensures Having(a + b, memory) == Having(a, memory) + Having(b, memory)
    decreases |b|
  {
    if |b| == 0 {
      assert a + b == a;
    } else {
      HavingTogether(a, b[..|b| - 1], memory);
      assert (a + b)[..|a + b| - 1] == a + b[..|b| - 1];
    }
  }

  function One(present: bool): nat {
    if present then 1 else 0
  }

  /** Items of one memory each give that memory one event. */
  lemma {:induction false} HavingMapped(items: seq<Scored>, f: Scored -> Event, memory: int)
    requires OnceEach(items) && forall i :: 0 <= i < |items| ==> f(items[i]).memory == items[i].candidate.memory
    ensures Having(Mapped(items, f), memory) == One(memory in MemoriesOf(items))
  {
    if |items| > 0 {
      var n := |items| - 1;
      HavingMapped(items[..n], f, memory);
      MemoriesGrow(items, n);
      assert items[..n + 1] == items;
      assert Mapped(items, f)[..n] == Mapped(items[..n], f);
      NotAgain(items, n);
    }
  }

  lemma NotAgain(items: seq<Scored>, n: nat)
    requires OnceEach(items) && n < |items|
    ensures items[n].candidate.memory !in MemoriesOf(items[..n])
  {
  }

  /** Budget cuts are unselected memories, each once. */
  ghost predicate CutsAmongUnselected(s: Selected) {
    OnceEach(s.budgetCuts) && MemoriesOf(s.budgetCuts) <= MemoriesOf(s.unselected)
  }

  lemma {:induction false} AtLeastOnce(items: seq<Scored>, tau: real)
    requires OnceEach(items)
    ensures OnceEach(AtLeast(items, tau)) && MemoriesOf(AtLeast(items, tau)) <= MemoriesOf(items)
  {
    if |items| > 0 {
      var n := |items| - 1;
      AtLeastOnce(items[..n], tau);
      NotAgain(items, n);
      MemoriesGrow(items, n);
      assert items[..n + 1] == items;
      var before := AtLeast(items[..n], tau);
      var more := before + [items[n]];
      MemoriesGrow(more, |before|);
      assert more[..|before|] == before && more[..|before| + 1] == more;
      forall i | 0 <= i < |before|
        ensures before[i].candidate.memory != items[n].candidate.memory
      {
        assert before[i].candidate.memory in MemoriesOf(before);
      }
    }
  }

  /** The memory is cut by the budget and shown besides: as a near miss, or as an exit of the thread. */
  predicate ShownTwice(s: Selected, w: Writing, memory: int) {
    && memory in MemoriesOf(s.budgetCuts)
    && (memory in MemoriesOf(s.nearMisses) || (w.mode == Autonomous && memory in w.current))
  }

  lemma ExitMemories(s: Selected, w: Writing, memory: int)
    requires Sound(s)
    ensures var recorded := MemoriesOf(s.injected) + MemoriesOf(s.nearMisses);
      memory in MemoriesOf(Exits(s.unselected, w.current, recorded)) <==>
        (memory in MemoriesOf(s.unselected) && memory in w.current && memory !in recorded)
  {
    var recorded := MemoriesOf(s.injected) + MemoriesOf(s.nearMisses);
    ExitsAreTheRest(s.unselected, w.current, recorded);
    ExitsAreItems(s.unselected, w.current, recorded);
    var exits := Exits(s.unselected, w.current, recorded);
    hide Exits, Sound;
    if memory in MemoriesOf(exits) {
      var k :| 0 <= k < |exits| && exits[k].candidate.memory == memory;
      assert exits[k] in exits && exits[k] in s.unselected;
    }
    if memory in MemoriesOf(s.unselected) && memory in w.current && memory !in recorded {
      var k :| 0 <= k < |s.unselected| && s.unselected[k].candidate.memory == memory;
      ExitsMissNone(s.unselected, w.current, recorded, k);
    }
  }

  lemma {:induction false} ExitsAreItems(items: seq<Scored>, current: set<int>, recorded: set<int>)
    ensures forall x :: x in Exits(items, current, recorded) ==> x in items
    decreases |items|
  {
    if |items| > 0 {
      var m := items[0].candidate.memory;
      ExitsAreItems(items[1..], current, if m in current - recorded then recorded + {m} else recorded);
    }
  }

  lemma SharedMemories(s: Selected, memory: int)
    requires Sound(s)
    ensures memory in MemoriesOf(s.nearMisses) ==> memory in MemoriesOf(s.unselected)
    ensures !(memory in MemoriesOf(s.injected) && memory in MemoriesOf(s.unselected))
  {
    SoundParts(s);
  }

  /** How many events a memory has in the batch. */
  lemma EventsPerMemory(s: Selected, w: Writing, memory: int)
    requires Sound(s) && CutsAmongUnselected(s)
    ensures Having(EventsOf(s, w), memory) ==
      One(memory in MemoriesOf(s.injected)) + One(memory in MemoriesOf(s.nearMisses))
        + One(memory in MemoriesOf(s.budgetCuts))
      + One(w.mode == Autonomous && memory in MemoriesOf(s.unselected) && memory in w.current
            && memory !in MemoriesOf(s.injected) && memory !in MemoriesOf(s.nearMisses))
  {
    SoundParts(s);
    ExitMemories(s, w, memory);
    var recorded := MemoriesOf(s.injected) + MemoriesOf(s.nearMisses);
    ExitsAreTheRest(s.unselected, w.current, recorded);
    var exits := if w.mode == Autonomous then Exits(s.unselected, w.current, recorded) else [];
    NoMemories();
    hide Exits, MemoriesOf;
    var inject, miss, cut, exit := item => InjectedEvent(item, w), item => NearEvent(item, w),
                                   item => CutEvent(item, w), item => ExitEvent(item, w);
    HavingMapped(s.injected, inject, memory);
    HavingMapped(s.nearMisses, miss, memory);
    HavingMapped(s.budgetCuts, cut, memory);
    HavingMapped(exits, exit, memory);
    var a, b, c, d := Mapped(s.injected, inject), Mapped(s.nearMisses, miss), Mapped(s.budgetCuts, cut),
      Mapped(exits, exit);
    HavingTogether(a, b, memory);
    HavingTogether(a + b, c, memory);
    HavingTogether(a + b + c, d, memory);
    assert EventsOf(s, w) == a + b + c + d;
  }

  /** A memory has two events in a batch if and only if it was cut by the budget and shown besides. */
  lemma TwoEventsExactlyWhen(s: Selected, w: Writing, pins: seq<Candidate>, regular: seq<Candidate>, locked: set<int>,
                             context: int, params: Params, memory: int)
    requires SelectsFrom(s, pins, regular, locked, context, params) && Partition(pins, regular)
    ensures Having(EventsOf(s, w), memory) <= 2
    ensures Having(EventsOf(s, w), memory) == 2 <==> ShownTwice(s, w, memory)
  {
    SelectionIsSound(s, pins, regular, locked, context, params);
    SoundParts(s);
    AtLeastOnce(s.unselected, params.tau);
    hide RankedPins, RankedLocked, RankedRegular, Chosen, Unchosen, AtLeast, CostOf, ShareTokens, RegularBudget,
         OnceEach, MemoriesOf, EventsOf;
    EventsPerMemory(s, w, memory);
    SharedMemories(s, memory);
  }

  lemma {:induction false} ConcernedCounted(events: seq<Event>, f: FeedbackCommand)
    requires forall i :: 0 <= i < |events| ==> events[i].injection == f.injection
    ensures |Concerned(events, f)| == Having(events, f.memory)
  {
    if |events| > 0 {
      assert forall i :: 0 <= i < |events| - 1 ==> events[..|events| - 1][i] == events[i];
      ConcernedCounted(events[..|events| - 1], f);
    }
  }

  lemma {:induction false} ConcernedAppended(events: seq<Event>, batch: seq<Event>, f: FeedbackCommand)
    requires forall i :: 0 <= i < |events| ==> events[i].injection != f.injection
    ensures |Concerned(events + batch, f)| == |Concerned(batch, f)|
    decreases |batch|
  {
    if |batch| == 0 {
      assert events + batch == events;
      NoneConcerned(events, f);
    } else {
      var n := |batch| - 1;
      ConcernedAppended(events, batch[..n], f);
      assert (events + batch)[..|events + batch| - 1] == events + batch[..n];
    }
  }

  lemma {:induction false} NoneConcerned(events: seq<Event>, f: FeedbackCommand)
    requires forall i :: 0 <= i < |events| ==> events[i].injection != f.injection
    ensures Concerned(events, f) == []
  {
    if |events| > 0 {
      assert forall i :: 0 <= i < |events| - 1 ==> events[..|events| - 1][i] == events[i];
      NoneConcerned(events[..|events| - 1], f);
    }
  }

  /** Later events belong to other injections, and earlier ones keep who they are about. */
  lemma {:induction false} ConcernedStays(a: seq<Event>, b: seq<Event>, f: FeedbackCommand)
    requires |a| <= |b|
    requires forall i :: 0 <= i < |a| ==> b[i].injection == a[i].injection && b[i].memory == a[i].memory
    requires forall i :: |a| <= i < |b| ==> b[i].injection != f.injection
    ensures Concerned(b, f) == Concerned(a, f)
    decreases |b|
  {
    if |b| > 0 {
      var n := |b| - 1;
      assert forall i :: 0 <= i < n ==> b[..n][i] == b[i];
      if |a| == |b| {
        assert forall i :: 0 <= i < n ==> a[..n][i] == a[i];
        ConcernedStays(a[..n], b[..n], f);
      } else {
        ConcernedStays(a, b[..n], f);
      }
    }
  }

  /**
   * Feedback on an injection that a prepare wrote is refused as ambiguous if and only if the memory was cut by the
   * budget and shown besides, at once and after any later run.
   */
  lemma FeedbackAmbiguousExactlyWhen(before: Store, s: Selected, w: Writing, pins: seq<Candidate>,
                                     regular: seq<Candidate>, locked: set<int>, context: int, params: Params, ts: int,
                                     rules: Rules, steps: seq<Step>, f: FeedbackCommand)
    requires SelectsFrom(s, pins, regular, locked, context, params) && Partition(pins, regular)
    requires InjectionsMinted(before) && w.injection == before.minted == f.injection
    ensures var t := Run(Prepare(before, EventsOf(s, w), ts), rules, steps);
      && (ShownTwice(s, w, f.memory) ==> Feedback(t, f) == Err(DecisionState))
      && (f.memory in before.heads ==> (Feedback(t, f) == Err(DecisionState) <==> ShownTwice(s, w, f.memory)))
  {
    var first := Prepare(before, EventsOf(s, w), ts);
    var t := Run(first, rules, steps);
    TwoEventsExactlyWhen(s, w, pins, regular, locked, context, params, f.memory);
    hide *;
    PreparedConcerned(before, s, w, ts, f);
    ConcernedOverRun(first, rules, steps, f);
    AmbiguousWhenTwo(t, f);
  }

  lemma PreparedConcerned(before: Store, s: Selected, w: Writing, ts: int, f: FeedbackCommand)
    requires InjectionsMinted(before) && w.injection == before.minted == f.injection
    ensures var first := Prepare(before, EventsOf(s, w), ts);
      && |Concerned(first.events, f)| == Having(EventsOf(s, w), f.memory)
      && f.injection < first.minted && first.heads.Keys == before.heads.Keys
  {
    var batch := EventsOf(s, w);
    EventsAreInitial(s, w);
    hide EventsOf, Concerned, Having;
    ConcernedAppended(before.events, batch, f);
    ConcernedCounted(batch, f);
  }

  lemma ConcernedOverRun(s: Store, rules: Rules, steps: seq<Step>, f: FeedbackCommand)
    requires f.injection < s.minted
    ensures Concerned(Run(s, rules, steps).events, f) == Concerned(s.events, f)
    ensures Run(s, rules, steps).heads.Keys == s.heads.Keys
  {
    var t := Run(s, rules, steps);
    RunAges(s, rules, steps);
    hide Run, Concerned;
    forall i | 0 <= i < |s.events|
      ensures t.events[i].injection == s.events[i].injection && t.events[i].memory == s.events[i].memory
    {
      assert Older(s.events[i], t.events[i]);
    }
    ConcernedStays(s.events, t.events, f);
  }

  lemma AmbiguousWhenTwo(t: Store, f: FeedbackCommand)
    ensures |Concerned(t.events, f)| > 1 ==> Feedback(t, f) == Err(DecisionState)
    ensures f.memory in t.heads ==> (Feedback(t, f) == Err(DecisionState) <==> |Concerned(t.events, f)| > 1)
  {
    ConcernedMemory(t.events, f);
    hide Concerned, Allowed, Heard, SignalOutcome;
  }

  lemma {:induction false} ConcernedMemory(events: seq<Event>, f: FeedbackCommand)
    ensures forall k :: 0 <= k < |Concerned(events, f)| ==> events[Concerned(events, f)[k]].memory == f.memory
  {
    if |events| > 0 {
      ConcernedMemory(events[..|events| - 1], f);
    }
  }

  /** One memory that reaches tau and does not fit, with one near miss to show: every feedback on it is refused. */
  lemma AmbiguousFeedbackHappens(unit: Unit, signal: Signal) returns (s: Selected, w: Writing, params: Params)
    ensures SelectsFrom(s, [], [Candidate(7, false, 0.9, 50)], {}, 100, params) && w.mode == Gate
    ensures var t := Prepare(Store(0, [], map[7 := unit]), EventsOf(s, w), 0);
      Feedback(t, FeedbackCommand(0, 7, signal)) == Err(DecisionState)
  {
    var c := Candidate(7, false, 0.9, 50);
    params := Params(0.5, 1, 0.1, None);
    var item := Scored(c, 1);
    s, w := Selected([], [item], [item], [item], 10, 0, 0, 0, 0), Writing(Gate, {}, 0, "scorer");
    OneCutSelects(c, params, item, s);
    assert s.budgetCuts[0].candidate.memory == 7 && s.nearMisses[0].candidate.memory == 7;
    assert ShownTwice(s, w, 7);
    var store := Store(0, [], map[7 := unit]);
    var t := Prepare(store, EventsOf(s, w), 0);
    assert Run(t, map[], []) == t;
    assert InjectionsMinted(store);
    hide *;
    FeedbackAmbiguousExactlyWhen(store, s, w, [], [c], {}, 100, params, 0, map[], [], FeedbackCommand(0, 7, signal));
  }

  lemma OneCutSelects(c: Candidate, params: Params, item: Scored, s: Selected)
    requires c == Candidate(7, false, 0.9, 50) && params == Params(0.5, 1, 0.1, None) && item == Scored(c, 1)
    requires s == Selected([], [item], [item], [item], 10, 0, 0, 0, 0)
    ensures SelectsFrom(s, [], [c], {}, 100, params) && Partition([], [c])
  {
    OneRanked(c, item);
    OneCut(item);
    assert ShareTokens(100, params) == 10;
    assert RegularBudget([], [c], {}, 100, params) == 10;
    hide RegularBudget, RankedPins, RankedLocked, RankedRegular, Chosen, Unchosen, AtLeast, ShareTokens;
  }

  lemma OneRanked(c: Candidate, item: Scored)
    requires item == Scored(c, 1)
    ensures RankedPins([]) == [] && RankedLocked([], [c], {}) == [] && RankedRegular([], [c], {}) == [item]
  {
    var ids := {} - IdSet([]);
    assert ids == {};
    assert [c][..0] == [];
    assert Those([], ids, true) == [] == Those([], ids, false);
    assert (c.memory in ids) == false;
    assert Those([c], ids, true) == Those([], ids, true);
    assert Those([c], ids, false) == Those([], ids, false) + [c];
    assert SortBy(ByScore, [c]) == [c];
    hide Those, SortBy, IdSet;
  }

  lemma OneCut(item: Scored)
    requires item.candidate.score >= 0.5 && item.candidate.cost > 10
    ensures Chosen([item], 0.5, 10) == [] && Unchosen([item], 0.5, 10) == [item] && AtLeast([item], 0.5) == [item]
    ensures CostOf([]) == 0
  {
    assert [item][..0] == [];
  }
}
