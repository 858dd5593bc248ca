/**
 * Commit and feedback as the service runs them: the batch loaded and planned in loops, heads changed one by
 * one in memory order, outcomes written one by one, over a database that a failed transaction leaves as it
 * was; each proved equal to its step in Decisions.
 */
module DecisionService {
  import opened Outcomes
  import opened Sorting
  import opened Ordering
  import opened Decisions

  // Loading the batch.

  predicate RowBefore(a: Row, b: Row) {
    a.event.rank < b.event.rank || (a.event.rank == b.event.rank
      && (a.event.memory < b.event.memory || (a.event.memory == b.event.memory && a.id < b.id)))
  }

  function RowsAt(events: seq<Event>, injection: nat): seq<Row> {
    if |events| == 0 then []
    else
      var n := |events| - 1;
      RowsAt(events[..n], injection) + if events[n].injection == injection then [Row(n, events[n])] else []
  }

  /** The injection's rows in order of rank, memory and id. */
  function Batch(events: seq<Event>, injection: nat): seq<Row> {
    SortBy(RowBefore, RowsAt(events, injection))
  }

  lemma {:induction false} RowsAtMembers(events: seq<Event>, injection: nat, r: Row)
    ensures r in RowsAt(events, injection)
      <==> r.id < |events| && r.event == events[r.id] && r.event.injection == injection
  {
    if |events| > 0 {
      RowsAtMembers(events[..|events| - 1], injection, r);
    }
  }

  lemma {:induction false} RowsAtDistinct(events: seq<Event>, injection: nat)
    ensures Distinct(RowsAt(events, injection))
  {
    if |events| > 0 {
      var n := |events| - 1;
      RowsAtDistinct(events[..n], injection);
      RowsAtMembers(events[..n], injection, Row(n, events[n]));
    }
  }

  lemma BatchMembers(events: seq<Event>, injection: nat)
    ensures Distinct(Batch(events, injection))
    ensures forall r ::
      r in Batch(events, injection) <==> r.id < |events| && r.event == events[r.id] && r.event.injection == injection
    ensures Batch(events, injection) == [] <==> !Prepared(events, injection)
  {
    RowsAtDistinct(events, injection);
    SortKeepsDistinct(RowBefore, RowsAt(events, injection));
    hide SortBy, RowsAt;
    forall r
      ensures r in Batch(events, injection)
        <==> r.id < |events| && r.event == events[r.id] && r.event.injection == injection
    {
      RowsAtMembers(events, injection, r);
      SortSameMembers(RowBefore, RowsAt(events, injection), r);
    }
    BatchIsPrepared(events, injection, Batch(events, injection));
  }

  lemma BatchIsPrepared(events: seq<Event>, injection: nat, batch: seq<Row>)
    requires forall r :: r in batch <==> r.id < |events| && r.event == events[r.id] && r.event.injection == injection
    ensures batch == [] <==> !Prepared(events, injection)
  {
    if batch != [] {
      assert batch[0] in batch;
    }
    if Prepared(events, injection) {
      var i :| 0 <= i < |events| && events[i].injection == injection;
      assert Row(i, events[i]) in batch;
    }
  }

  lemma InTable(events: seq<Event>, r: Row)
    ensures r in RowsOf(events) <==> r.id < |events| && r.event == events[r.id]
  {
    if r.id < |events| && r.event == events[r.id] {
      assert RowsOf(events)[r.id] == r;
    }
  }

  /** Planning sees in the batch what it would see in the whole table. */
  lemma BatchPlansAlike(events: seq<Event>, c: CommitCommand)
    ensures PlanError(Batch(events, c.injection), c) == PlanError(RowsOf(events), c)
  {
    var batch := Batch(events, c.injection);
    var all := RowsOf(events);
    BatchMembers(events, c.injection);
    hide Batch, RowsOf, Conflicts;
    forall r: Row | AtGate(r.event, c.injection)
      ensures r in batch <==> r in all
    {
      InTable(events, r);
    }
    assert OncePerMemory(batch, c.injection) == OncePerMemory(all, c.injection);
    assert forall item :: MayRemove(batch, c.injection, item) == MayRemove(all, c.injection, item);
    assert forall m :: MayAddBack(batch, c.injection, m) == MayAddBack(all, c.injection, m);
    assert NoConflicts(batch, c) == NoConflicts(all, c);
  }

  // Planning.

  datatype Planned = Planned(row: Row, desired: Option<Outcome>, isNew: bool)

  function PlannedOf(rows: seq<Row>, c: CommitCommand): seq<Planned> {
    if |rows| == 0 then []
    else
      var r := rows[|rows| - 1];
      PlannedOf(rows[..|rows| - 1], c)
        + if AtGate(r.event, c.injection) then [Planned(r, Desired(r.event, c), NewOutcome(r.event, c).Some?)] else []
  }

  ghost predicate Indexes(byMemory: map<int, Event>, rows: seq<Row>, injection: nat) {
    && (forall r :: r in rows && AtGate(r.event, injection)
         ==> r.event.memory in byMemory && byMemory[r.event.memory] == r.event)
    && (forall m :: m in byMemory
         ==> exists r :: r in rows && AtGate(r.event, injection) && r.event == byMemory[m] && r.event.memory == m)
  }

  method IndexByMemory(rows: seq<Row>, injection: nat) returns (r: Result<map<int, Event>, DecisionError>)
    requires Distinct(rows) && forall row :: row in rows ==> row.event.injection == injection
    ensures r.Ok? <==> OncePerMemory(rows, injection)
    ensures r.Err? ==> r.error == DecisionState
    ensures r.Ok? ==> Indexes(r.value, rows, injection)
  {
    var byMemory: map<int, Event> := map[];
    for i := 0 to |rows|
      invariant OncePerMemory(rows[..i], injection)
      invariant Indexes(byMemory, rows[..i], injection)
    {
      var row := rows[i];
      assert rows[..i + 1] == rows[..i] + [row];
      assert row in rows;
      if row.event.shown != BudgetCut {
        if row.event.memory in byMemory {
          var known :| known in rows[..i] && AtGate(known.event, injection) && known.event.memory == row.event.memory;
          assert known in rows && known != row;
          return Err(DecisionState);
        }
        byMemory := byMemory[row.event.memory := row.event];
      }
    }
    assert rows[..|rows|] == rows;
    return Ok(byMemory);
  }

  lemma {:induction false} ReasonForListed(removed: seq<Removal>, memory: int)
    ensures ReasonFor(removed, memory).Some? <==> exists i :: 0 <= i < |removed| && removed[i].memory == memory
  {
    if |removed| > 0 {
      var n := |removed| - 1;
      ReasonForListed(removed[..n], memory);
      if exists i :: 0 <= i < |removed| && removed[i].memory == memory {
        var i :| 0 <= i < |removed| && removed[i].memory == memory;
        if i < n {
          assert removed[..n][i].memory == memory;
        }
      }
    }
  }

  ghost predicate RemovedOnce(removed: seq<Removal>) {
    forall i, j :: 0 <= i < j < |removed| ==> removed[i].memory != removed[j].memory
  }

  ghost predicate Reasons(known: map<int, Reason>, removed: seq<Removal>) {
    forall m :: (m in known <==> ReasonFor(removed, m).Some?)
      && (m in known ==> ReasonFor(removed, m) == Some(known[m]))
  }

  method IndexRemovals(removed: seq<Removal>) returns (r: Result<map<int, Reason>, DecisionError>)
    ensures r.Ok? <==> RemovedOnce(removed)
    ensures r.Err? ==> r.error == InvalidCommitChoices
    ensures r.Ok? ==> Reasons(r.value, removed)
  {
    var known: map<int, Reason> := map[];
    for i := 0 to |removed|
      invariant RemovedOnce(removed[..i]) && Reasons(known, removed[..i])
    {
      assert removed[..i + 1][..i] == removed[..i];
      var item := removed[i];
      ReasonForListed(removed[..i], item.memory);
      if item.memory in known {
        return Err(InvalidCommitChoices);
      }
      known := known[item.memory := item.reason];
    }
    assert removed[..|removed|] == removed;
    return Ok(known);
  }

  ghost predicate ChoicesShown(rows: seq<Row>, c: CommitCommand) {
    && (forall i :: 0 <= i < |c.removed| ==> MayRemove(rows, c.injection, c.removed[i]))
    && (forall j :: 0 <= j < |c.addedBack| ==> MayAddBack(rows, c.injection, c.addedBack[j]))
  }

  method ChoicesAreValid(rows: seq<Row>, byMemory: map<int, Event>, c: CommitCommand, added: set<int>)
    returns (ok: bool)
    requires Indexes(byMemory, rows, c.injection) && forall x :: x in added <==> x in c.addedBack
    ensures ok == ChoicesShown(rows, c)
  {
    for i := 0 to |c.removed|
      invariant forall k :: 0 <= k < i ==> MayRemove(rows, c.injection, c.removed[k])
    {
      var item := c.removed[i];
      if item.memory !in byMemory {
        assert !MayRemove(rows, c.injection, c.removed[i]);
        return false;
      }
      var shown := byMemory[item.memory].shown;
      if shown != Injected && shown != Pinned && !(shown == NearMiss && item.reason == Never) {
        assert !MayRemove(rows, c.injection, c.removed[i]);
        return false;
      }
    }
    for j := 0 to |c.addedBack|
      invariant forall k :: 0 <= k < j ==> MayAddBack(rows, c.injection, c.addedBack[k])
    {
      var memory := c.addedBack[j];
      if memory !in byMemory || byMemory[memory].shown != NearMiss {
        assert !MayAddBack(rows, c.injection, c.addedBack[j]);
        return false;
      }
    }
    return true;
  }

  method PlanOutcomes(rows: seq<Row>, c: CommitCommand, removed: map<int, Reason>, added: set<int>)
    returns (r: Result<seq<Planned>, DecisionError>)
    requires Reasons(removed, c.removed) && forall x :: x in added <==> x in c.addedBack
    requires forall row :: row in rows ==> row.event.injection == c.injection
    ensures r.Ok? <==> NoConflicts(rows, c)
    ensures r.Err? ==> r.error == OutcomeConflict
    ensures r.Ok? ==> r.value == PlannedOf(rows, c)
  {
    var planned: seq<Planned> := [];
    for i := 0 to |rows|
      invariant planned == PlannedOf(rows[..i], c)
      invariant NoConflicts(rows[..i], c)
    {
      assert rows[..i + 1] == rows[..i] + [rows[i]];
      assert rows[..i + 1][..i] == rows[..i];
      assert rows[i] in rows;
      var e := rows[i].event;
      if e.shown != BudgetCut {
        var desired: Option<Outcome>;
        if e.shown == NearMiss {
          desired := if e.memory in removed && removed[e.memory] == Never then Some(Removed(Never))
                     else if e.memory in added then Some(AddedBack) else None;
        } else {
          desired := if e.memory in removed then Some(Removed(removed[e.memory])) else Some(Kept);
        }
        assert desired == Desired(e, c);
        if desired.None? {
          if e.outcome.Some? {
            assert Conflicts(e, c);
            return Err(OutcomeConflict);
          }
          planned := planned + [Planned(rows[i], None, false)];
        } else if e.outcome.None? {
          planned := planned + [Planned(rows[i], desired, true)];
        } else if e.outcome == desired || FeedbackDescendant(e, e.outcome.value, desired.value) {
          planned := planned + [Planned(rows[i], desired, false)];
        } else {
          assert Conflicts(e, c);
          return Err(OutcomeConflict);
        }
      }
    }
    assert rows[..|rows|] == rows;
    return Ok(planned);
  }

  method PlanCommit(rows: seq<Row>, c: CommitCommand) returns (r: Result<seq<Planned>, DecisionError>)
    requires Distinct(rows) && forall row :: row in rows ==> row.event.injection == c.injection
    ensures r.Ok? <==> PlanError(rows, c).None?
    ensures r.Err? ==> PlanError(rows, c) == Some(r.error)
    ensures r.Ok? ==> r.value == PlannedOf(rows, c)
  {
    hide OncePerMemory, MayRemove, MayAddBack, NoConflicts, Indexes, Reasons;
    var byMemory :- IndexByMemory(rows, c.injection);
    var removed :- IndexRemovals(c.removed);
    var added := SetOf(c.addedBack);
    if |added| != |c.addedBack| {
      return Err(InvalidCommitChoices);
    }
    if exists i :: 0 <= i < |c.removed| && c.removed[i].memory in added {
      return Err(InvalidCommitChoices);
    }
    var valid := ChoicesAreValid(rows, byMemory, c, added);
    if !valid {
      return Err(InvalidCommitChoices);
    }
    assert ValidChoices(rows, c);
    r := PlanOutcomes(rows, c, removed, added);
  }

  // What planning found, item by item.

  lemma {:induction false} PlannedMembers(rows: seq<Row>, c: CommitCommand, p: Planned)
    ensures p in PlannedOf(rows, c) <==> (p.row in rows && AtGate(p.row.event, c.injection)
      && p == Planned(p.row, Desired(p.row.event, c), NewOutcome(p.row.event, c).Some?))
  {
    hide Desired;
    if |rows| > 0 {
      PlannedMembers(rows[..|rows| - 1], c, p);
      assert rows == rows[..|rows| - 1] + [rows[|rows| - 1]];
    }
  }

  lemma {:induction false} PlannedDistinct(rows: seq<Row>, c: CommitCommand)
    requires Distinct(rows)
    ensures Distinct(PlannedOf(rows, c))
  {
    hide Desired;
    if |rows| > 0 {
      var n := |rows| - 1;
      PlannedDistinct(rows[..n], c);
      PlannedMembers(rows[..n], c, Planned(rows[n], Desired(rows[n].event, c), NewOutcome(rows[n].event, c).Some?));
    }
  }

  predicate WritesHead(p: Planned) {
    p.isNew && p.desired.Some? && ChangesHead(p.desired.value)
  }

  predicate IsWrong(p: Planned) {
    p.desired == Some(Removed(Wrong))
  }

  predicate RulesKnown(planned: seq<Planned>, rules: Rules) {
    forall i :: 0 <= i < |planned| && planned[i].isNew && planned[i].desired == Some(Removed(Never))
      ==> planned[i].row.event.scorer in rules
  }

  predicate HeadsKnown(planned: seq<Planned>, heads: map<int, Unit>) {
    forall i :: 0 <= i < |planned| && WritesHead(planned[i]) ==> planned[i].row.event.memory in heads
  }

  predicate WrongKnown(planned: seq<Planned>, heads: map<int, Unit>) {
    forall i :: 0 <= i < |planned| && IsWrong(planned[i]) ==> planned[i].row.event.memory in heads
  }

  function PlanOf(events: seq<Event>, c: CommitCommand): seq<Planned> {
    PlannedOf(Batch(events, c.injection), c)
  }

  function PlanItem(events: seq<Event>, c: CommitCommand, i: nat): Planned
    requires i < |events|
  {
    Planned(Row(i, events[i]), Desired(events[i], c), NewOutcome(events[i], c).Some?)
  }

  /** The plan's items are the table's gate events of the injection. */
  lemma PlanIsTheGate(events: seq<Event>, c: CommitCommand)
    ensures Distinct(PlanOf(events, c))
    ensures forall i ::
      0 <= i < |events| && AtGate(events[i], c.injection) ==> PlanItem(events, c, i) in PlanOf(events, c)
    ensures forall p :: p in PlanOf(events, c) ==>
      p.row.id < |events| && AtGate(events[p.row.id], c.injection) && p == PlanItem(events, c, p.row.id)
  {
    var rows := Batch(events, c.injection);
    BatchMembers(events, c.injection);
    PlannedDistinct(rows, c);
    hide Batch, PlannedOf, Desired, NewOutcome;
    forall i | 0 <= i < |events| && AtGate(events[i], c.injection)
      ensures PlanItem(events, c, i) in PlanOf(events, c)
    {
      PlannedMembers(rows, c, PlanItem(events, c, i));
    }
    forall p | p in PlanOf(events, c)
      ensures p.row.id < |events| && AtGate(events[p.row.id], c.injection) && p == PlanItem(events, c, p.row.id)
    {
      PlannedMembers(rows, c, p);
    }
  }

  lemma BackedByPlan(s: Store, rules: Rules, c: CommitCommand)
    ensures var plan := PlanOf(s.events, c);
      Backed(s, rules, c) <==> RulesKnown(plan, rules) && HeadsKnown(plan, s.heads) && WrongKnown(plan, s.heads)
  {
    var plan := PlanOf(s.events, c);
    PlanIsTheGate(s.events, c);
    hide PlanOf, Desired;
    if Backed(s, rules, c) {
      forall k | 0 <= k < |plan|
        ensures plan[k].isNew && plan[k].desired == Some(Removed(Never)) ==> plan[k].row.event.scorer in rules
        ensures WritesHead(plan[k]) ==> plan[k].row.event.memory in s.heads
        ensures IsWrong(plan[k]) ==> plan[k].row.event.memory in s.heads
      {
        assert plan[k] in plan;
        assert plan[k] == PlanItem(s.events, c, plan[k].row.id);
      }
    }
    if RulesKnown(plan, rules) && HeadsKnown(plan, s.heads) && WrongKnown(plan, s.heads) {
      forall i | 0 <= i < |s.events| && AtGate(s.events[i], c.injection)
        ensures NewOutcome(s.events[i], c).Some? && ChangesHead(NewOutcome(s.events[i], c).value)
          ==> s.events[i].memory in s.heads
        ensures NewOutcome(s.events[i], c) == Some(Removed(Never)) ==> s.events[i].scorer in rules
        ensures Desired(s.events[i], c) == Some(Removed(Wrong)) ==> s.events[i].memory in s.heads
      {
        var k :| 0 <= k < |plan| && plan[k] == PlanItem(s.events, c, i);
      }
    }
  }

  // One decision per memory.

  predicate Affects(e: Event, c: CommitCommand, memory: int) {
    e.memory == memory && NewOutcome(e, c).Some? && ChangesHead(NewOutcome(e, c).value)
  }

  lemma {:induction false} NoEffect(unit: Unit, memory: int, events: seq<Event>, c: CommitCommand, rules: Rules,
                                    ts: int)
    requires forall i :: 0 <= i < |events| ==> !Affects(events[i], c, memory)
    ensures HeadAfter(unit, memory, events, c, rules, ts) == unit
    decreases |events|
  {
    if |events| > 0 {
      assert forall i :: 0 <= i < |events| - 1 ==> events[..|events| - 1][i] == events[i];
      NoEffect(unit, memory, events[..|events| - 1], c, rules, ts);
    }
  }

  lemma {:induction false} OneEffect(unit: Unit, events: seq<Event>, i: nat, c: CommitCommand, rules: Rules, ts: int)
    requires i < |events| && Affects(events[i], c, events[i].memory)
    requires forall j :: 0 <= j < |events| && j != i ==> !Affects(events[j], c, events[i].memory)
    ensures HeadAfter(unit, events[i].memory, events, c, rules, ts)
      == Changed(unit, NewOutcome(events[i], c).value, RuleOf(rules, events[i].scorer), ts)
    decreases |events|
  {
    var n := |events| - 1;
    assert forall j :: 0 <= j < n ==> events[..n][j] == events[j];
    hide Changed, NewOutcome;
    if i == n {
      NoEffect(unit, events[i].memory, events[..n], c, rules, ts);
    } else {
      assert !Affects(events[n], c, events[i].memory);
      OneEffect(unit, events[..n], i, c, rules, ts);
    }
  }

  lemma OnlyOneAffects(events: seq<Event>, c: CommitCommand, i: nat)
    requires OncePerMemory(RowsOf(events), c.injection) && i < |events| && Affects(events[i], c, events[i].memory)
    ensures forall j :: 0 <= j < |events| && j != i ==> !Affects(events[j], c, events[i].memory)
  {
    hide Desired;
    forall j | 0 <= j < |events| && j != i && AtGate(events[j], c.injection)
      ensures events[j].memory != events[i].memory
    {
      assert RowsOf(events)[i] != RowsOf(events)[j];
      assert RowsOf(events)[i] in RowsOf(events) && RowsOf(events)[j] in RowsOf(events);
    }
  }

  /** The heads when the items done so far, and no others, have had their effect. */
  ghost predicate WrittenFor(before: map<int, Unit>, after: map<int, Unit>, written: seq<Planned>,
                             events: seq<Event>, c: CommitCommand, rules: Rules, ts: int) {
    && after.Keys == before.Keys
    && forall m :: m in before ==>
         after[m] == if Touches(written, m) then HeadAfter(before[m], m, events, c, rules, ts) else before[m]
  }

  ghost predicate Touches(written: seq<Planned>, memory: int) {
    exists k :: 0 <= k < |written| && written[k].row.event.memory == memory
  }

  lemma {:induction false} EffectMembers(planned: seq<Planned>, p: Planned)
    ensures p in EffectsOf(planned) <==> p in planned && WritesHead(p)
  {
    if |planned| > 0 {
      EffectMembers(planned[..|planned| - 1], p);
      assert planned == planned[..|planned| - 1] + [planned[|planned| - 1]];
    }
  }

  function EffectsOf(planned: seq<Planned>): seq<Planned> {
    if |planned| == 0 then []
    else
      EffectsOf(planned[..|planned| - 1])
      + if WritesHead(planned[|planned| - 1]) then [planned[|planned| - 1]] else []
  }

  lemma {:induction false} EffectsDistinct(planned: seq<Planned>)
    requires Distinct(planned)
    ensures Distinct(EffectsOf(planned))
  {
    if |planned| > 0 {
      EffectsDistinct(planned[..|planned| - 1]);
      EffectMembers(planned[..|planned| - 1], planned[|planned| - 1]);
    }
  }

  predicate ByMemory(a: Planned, b: Planned) {
    a.row.event.memory < b.row.event.memory
  }

  function InMemoryOrder(planned: seq<Planned>): seq<Planned> {
    SortBy(ByMemory, EffectsOf(planned))
  }

  lemma OrderedEffects(events: seq<Event>, c: CommitCommand)
    ensures Distinct(InMemoryOrder(PlanOf(events, c)))
    ensures forall p :: p in InMemoryOrder(PlanOf(events, c)) <==> p in PlanOf(events, c) && WritesHead(p)
  {
    var plan := PlanOf(events, c);
    PlanIsTheGate(events, c);
    EffectsDistinct(plan);
    SortKeepsDistinct(ByMemory, EffectsOf(plan));
    hide PlanOf, EffectsOf, SortBy;
    forall p
      ensures p in InMemoryOrder(plan) <==> p in plan && WritesHead(p)
    {
      SortSameMembers(ByMemory, EffectsOf(plan), p);
      EffectMembers(plan, p);
    }
  }

  /** The item in its turn: what it will do is all that the commit does to its memory, which was not touched before. */
  lemma InItsTurn(unit: Unit, k: nat, events: seq<Event>, c: CommitCommand, rules: Rules, ts: int)
    requires OncePerMemory(RowsOf(events), c.injection) && k < |InMemoryOrder(PlanOf(events, c))|
    ensures var p := InMemoryOrder(PlanOf(events, c))[k];
      && p.desired.Some? && WritesHead(p)
      && !Touches(InMemoryOrder(PlanOf(events, c))[..k], p.row.event.memory)
      && HeadAfter(unit, p.row.event.memory, events, c, rules, ts)
           == Changed(unit, p.desired.value, RuleOf(rules, p.row.event.scorer), ts)
  {
    var order := InMemoryOrder(PlanOf(events, c));
    var p := order[k];
    OrderedEffects(events, c);
    PlanIsTheGate(events, c);
    assert p in order;
    assert p == PlanItem(events, c, p.row.id);
    hide PlanOf, InMemoryOrder, Desired, HeadAfter, Changed;
    OnlyOneAffects(events, c, p.row.id);
    forall j | 0 <= j < k
      ensures order[j].row.event.memory != p.row.event.memory
    {
      assert order[j] in order && order[j] != p;
      assert order[j] == PlanItem(events, c, order[j].row.id);
      assert order[j].row.id != p.row.id;
      assert Affects(events[order[j].row.id], c, order[j].row.event.memory);
    }
    OneEffect(unit, events, p.row.id, c, rules, ts);
  }

  lemma TouchesOneMore(order: seq<Planned>, k: nat)
    requires k < |order|
    ensures forall q :: Touches(order[..k + 1], q) <==> Touches(order[..k], q) || q == order[k].row.event.memory
  {
    assert order[..k + 1] == order[..k] + [order[k]];
    forall q
      ensures Touches(order[..k + 1], q) <==> Touches(order[..k], q) || q == order[k].row.event.memory
    {
      if Touches(order[..k], q) {
        var j :| 0 <= j < k && order[..k][j].row.event.memory == q;
        assert order[..k + 1][j].row.event.memory == q;
      }
      if q == order[k].row.event.memory {
        assert order[..k + 1][k].row.event.memory == q;
      }
    }
  }

  lemma WriteOneMore(before: map<int, Unit>, heads: map<int, Unit>, k: nat, events: seq<Event>, c: CommitCommand,
                     rules: Rules, ts: int)
    requires OncePerMemory(RowsOf(events), c.injection)
    requires k < |InMemoryOrder(PlanOf(events, c))|
    requires WrittenFor(before, heads, InMemoryOrder(PlanOf(events, c))[..k], events, c, rules, ts)
    requires InMemoryOrder(PlanOf(events, c))[k].row.event.memory in heads
    ensures var p := InMemoryOrder(PlanOf(events, c))[k];
      var m := p.row.event.memory;
      && p.desired.Some? && WritesHead(p)
      && WrittenFor(before, heads[m := Changed(heads[m], p.desired.value, RuleOf(rules, p.row.event.scorer), ts)],
                    InMemoryOrder(PlanOf(events, c))[..k + 1], events, c, rules, ts)
  {
    var order := InMemoryOrder(PlanOf(events, c));
    var m := order[k].row.event.memory;
    hide PlanOf, InMemoryOrder, OncePerMemory, RowsOf, WritesHead, Touches, HeadAfter, Changed;
    InItsTurn(before[m], k, events, c, rules, ts);
    TouchesOneMore(order, k);
  }

  lemma AffectedIsTouched(events: seq<Event>, c: CommitCommand, i: nat)
    requires i < |events| && Affects(events[i], c, events[i].memory)
    ensures Touches(InMemoryOrder(PlanOf(events, c)), events[i].memory)
  {
    var order := InMemoryOrder(PlanOf(events, c));
    OrderedEffects(events, c);
    PlanIsTheGate(events, c);
    assert PlanItem(events, c, i) in order;
    var k :| 0 <= k < |order| && order[k] == PlanItem(events, c, i);
    assert order[k].row.event.memory == events[i].memory;
  }

  lemma AllWritten(before: map<int, Unit>, heads: map<int, Unit>, events: seq<Event>, c: CommitCommand, rules: Rules,
                   ts: int)
    requires WrittenFor(before, heads, InMemoryOrder(PlanOf(events, c)), events, c, rules, ts)
    ensures heads == HeadsAfter(before, events, c, rules, ts)
  {
    var order := InMemoryOrder(PlanOf(events, c));
    hide PlanOf, InMemoryOrder, Desired, HeadAfter;
    forall m | m in before && !Touches(order, m)
      ensures HeadAfter(before[m], m, events, c, rules, ts) == before[m]
    {
      forall i | 0 <= i < |events|
        ensures !Affects(events[i], c, m)
      {
        if Affects(events[i], c, m) {
          AffectedIsTouched(events, c, i);
        }
      }
      NoEffect(before[m], m, events, c, rules, ts);
    }
  }

  // The service.

  datatype CommitResponse = CommitResponse(final: seq<Row>, wrongRemoved: seq<Unit>)

  predicate Positive(outcome: Option<Outcome>) {
    outcome in {Some(Kept), Some(AddedBack), Some(Cited)}
  }

  /** The gate events that are in after the commit. */
  function FinalRows(rows: seq<Row>, c: CommitCommand): seq<Row> {
    if |rows| == 0 then []
    else
      var r := rows[|rows| - 1];
      FinalRows(rows[..|rows| - 1], c)
        + if AtGate(r.event, c.injection) && Positive(Settle(r.event, c).outcome)
          then [Row(r.id, Settle(r.event, c))] else []
  }

  function Wrongs(planned: seq<Planned>): (r: seq<Planned>)
    ensures forall p :: p in r ==> p in planned && IsWrong(p)
  {
    if |planned| == 0 then []
    else Wrongs(planned[..|planned| - 1]) + if IsWrong(planned[|planned| - 1]) then [planned[|planned| - 1]] else []
  }

  predicate ByRank(a: Planned, b: Planned) {
    a.row.event.rank < b.row.event.rank
      || (a.row.event.rank == b.row.event.rank && a.row.event.memory < b.row.event.memory)
  }

  function WrongRanked(planned: seq<Planned>): seq<Planned> {
    SortBy(ByRank, Wrongs(planned))
  }

  predicate UnitsOf(items: seq<Planned>, heads: map<int, Unit>, units: seq<Unit>) {
    && |units| == |items|
    && forall k :: 0 <= k < |units|
         ==> (items[k].row.event.memory in heads && units[k] == heads[items[k].row.event.memory])
  }

  method FinalEvents(planned: seq<Planned>, ghost rows: seq<Row>, c: CommitCommand) returns (final: seq<Row>)
    requires planned == PlannedOf(rows, c)
    ensures final == FinalRows(rows, c)
  {
    FinalFromPlan(rows, c);
    final := [];
    for i := 0 to |planned|
      invariant final == Effective(planned[..i])
    {
      assert planned[..i + 1][..i] == planned[..i];
      var p := planned[i];
      var e := if p.isNew then p.row.event.(outcome := p.desired) else p.row.event;
      if Positive(e.outcome) {
        final := final + [Row(p.row.id, e)];
      }
    }
    assert planned[..|planned|] == planned;
  }

  function Effective(planned: seq<Planned>): seq<Row> {
    if |planned| == 0 then []
    else
      var p := planned[|planned| - 1];
      var e := if p.isNew then p.row.event.(outcome := p.desired) else p.row.event;
      Effective(planned[..|planned| - 1]) + if Positive(e.outcome) then [Row(p.row.id, e)] else []
  }

  lemma {:induction false} FinalFromPlan(rows: seq<Row>, c: CommitCommand)
    ensures Effective(PlannedOf(rows, c)) == FinalRows(rows, c)
  {
    hide Desired;
    if |rows| > 0 {
      var n := |rows| - 1;
      FinalFromPlan(rows[..n], c);
      var before := PlannedOf(rows[..n], c);
      if AtGate(rows[n].event, c.injection) {
        var p := Planned(rows[n], Desired(rows[n].event, c), NewOutcome(rows[n].event, c).Some?);
        assert (before + [p])[..|before|] == before;
        assert Effective(before + [p]) == Effective(before)
          + if Positive(Settle(rows[n].event, c).outcome) then [Row(rows[n].id, Settle(rows[n].event, c))] else [];
      } else {
        assert before + [] == before;
      }
    }
  }

  class Database {
    var minted: nat
    var events: seq<Event>
    var heads: map<int, Unit>
    const rules: Rules

    constructor (minted: nat, events: seq<Event>, heads: map<int, Unit>, rules: Rules)
      ensures Snapshot() == Store(minted, events, heads) && this.rules == rules
    {
      this.minted, this.events, this.heads, this.rules := minted, events, heads, rules;
    }

    function Snapshot(): Store
      reads this
    {
      Store(minted, events, heads)
    }

    method LoadBatch(injection: nat) returns (rows: seq<Row>)
      ensures rows == Batch(events, injection)
    {
      rows := [];
      for i := 0 to |events|
        invariant rows == RowsAt(events[..i], injection)
      {
        assert events[..i + 1][..i] == events[..i];
        if events[i].injection == injection {
          rows := rows + [Row(i, events[i])];
        }
      }
      assert events[..|events|] == events;
      rows := SortBy(RowBefore, rows);
    }

    /** The head changes one by one in memory order; stops where a memory does not exist. */
    method WriteHeads(planned: seq<Planned>, c: CommitCommand, ts: int) returns (ok: bool)
      requires OncePerMemory(RowsOf(events), c.injection) && planned == PlanOf(events, c) && RulesKnown(planned, rules)
      modifies this`heads
      ensures ok <==> HeadsKnown(planned, old(heads))
      ensures ok ==> heads == HeadsAfter(old(heads), events, c, rules, ts)
    {
      hide OncePerMemory, RulesKnown, HeadsKnown, PlannedOf, Desired, HeadsAfter, HeadAfter, SortBy, Changed, RuleOf;
      var order := InMemoryOrder(planned);
      assert order[..0] == [];
      for k := 0 to |order|
        invariant WrittenFor(old(heads), heads, order[..k], events, c, rules, ts)
        invariant forall j :: 0 <= j < k ==> order[j].row.event.memory in old(heads)
      {
        hide PlanOf, InMemoryOrder, WrittenFor, Batch;
        var p := order[k];
        if p.row.event.memory !in heads {
          MissingHead(events, c, old(heads), heads, k, rules, ts);
          return false;
        }
        WriteOneMore(old(heads), heads, k, events, c, rules, ts);
        StillKeyed(events, c, old(heads), heads, k, rules, ts);
        heads := heads[p.row.event.memory := Changed(heads[p.row.event.memory], p.desired.value,
          RuleOf(rules, p.row.event.scorer), ts)];
      }
      assert order[..|order|] == order;
      AllWritten(old(heads), heads, events, c, rules, ts);
      AllKnown(events, c, old(heads));
      ok := true;
    }

    /** Each new outcome is written on an event that has none, as the guarded update requires. */
    method WriteOutcomes(planned: seq<Planned>, c: CommitCommand)
      requires planned == PlanOf(events, c)
      modifies this`events
      ensures events == SettleAll(old(events), c)
    {
      PlanIsTheGate(events, c);
      for k := 0 to |planned|
        invariant |events| == |old(events)|
        invariant forall i :: 0 <= i < |events| ==>
          events[i] == if Settled(planned[..k], i) then Settle(old(events)[i], c) else old(events)[i]
      {
        hide PlannedOf, Desired, PlanOf;
        var p := planned[k];
        assert p in planned && p == PlanItem(old(events), c, p.row.id);
        SettledGrows(planned, k);
        FirstTouched(old(events), c, k);
        if p.isNew {
          assert events[p.row.id].outcome.None?;
          events := events[p.row.id := events[p.row.id].(outcome := p.desired)];
        }
      }
      hide PlanOf, PlannedOf, Desired;
      assert planned[..|planned|] == planned;
      AllSettled(old(events), c);
    }

    /** The memories removed as wrong, best rank first, as they now stand; fails where one does not exist. */
    method WrongRemoved(planned: seq<Planned>) returns (r: Result<seq<Unit>, DecisionError>)
      ensures r.Ok? <==> WrongKnown(planned, heads)
      ensures r.Err? ==> r.error == DecisionState
      ensures r.Ok? ==> UnitsOf(WrongRanked(planned), heads, r.value)
    {
      var ranked := WrongRanked(planned);
      WrongRankedMembers(planned);
      var units: seq<Unit> := [];
      for k := 0 to |ranked|
        invariant |units| == k
        invariant forall j ::
          0 <= j < k ==> ranked[j].row.event.memory in heads && units[j] == heads[ranked[j].row.event.memory]
      {
        if ranked[k].row.event.memory !in heads {
          assert ranked[k] in ranked;
          return Err(DecisionState);
        }
        units := units + [heads[ranked[k].row.event.memory]];
      }
      forall i | 0 <= i < |planned| && IsWrong(planned[i])
        ensures planned[i].row.event.memory in heads
      {
        assert planned[i] in ranked;
        var j :| 0 <= j < |ranked| && ranked[j] == planned[i];
      }
      return Ok(units);
    }

    /** The response is built from the plan and the heads as the commit leaves them. */
    ghost predicate Responds(response: CommitResponse, before: Store, c: CommitCommand)
      reads this
    {
      var plan := PlanOf(before.events, c);
      && response.final == FinalRows(Batch(before.events, c.injection), c)
      && UnitsOf(WrongRanked(plan), heads, response.wrongRemoved)
    }

    method CommitDecision(c: CommitCommand, ts: int) returns (r: Result<CommitResponse, DecisionError>)
      modifies this
      ensures r.Ok? <==> Commit(old(Snapshot()), rules, c, ts).Ok?
      ensures r.Ok? ==> Commit(old(Snapshot()), rules, c, ts) == Ok(Snapshot()) && Responds(r.value, old(Snapshot()), c)
      ensures r.Err? ==> Commit(old(Snapshot()), rules, c, ts) == Err(r.error) && Snapshot() == old(Snapshot())
    {
      ghost var before := Snapshot();
      var events0, heads0 := events, heads;
      var rows := LoadBatch(c.injection);
      BatchMembers(events, c.injection);
      BatchPlansAlike(events, c);
      BackedByPlan(before, rules, c);
      hide Batch, PlanError, Backed, HeadsAfter, HeadAfter, RulesKnown, HeadsKnown, WrongKnown, FinalRows, WrongRanked,
        PlannedOf, Desired, Prepared;
      if |rows| == 0 {
        NothingPlanned(c);
        return if c.removed != [] || c.addedBack != [] then Err(InjectionNotFound) else Ok(CommitResponse([], []));
      }
      var plan := PlanCommit(rows, c);
      if plan.Err? {
        return Err(plan.error);
      }
      var planned := plan.value;
      if !RulesKnown(planned, rules) {
        return Err(DecisionState);
      }
      PlannedIsOnce(events, c);
      var written := WriteHeads(planned, c, ts);
      if !written {
        heads := heads0;
        return Err(DecisionState);
      }
      WriteOutcomes(planned, c);
      KeysKnown(planned, heads0, heads);
      var wrong := WrongRemoved(planned);
      if wrong.Err? {
        events, heads := events0, heads0;
        return Err(DecisionState);
      }
      var final := FinalEvents(planned, rows, c);
      return Ok(CommitResponse(final, wrong.value));
    }

    method RecordFeedback(f: FeedbackCommand) returns (r: Result<(), DecisionError>)
      modifies this
      ensures r.Ok? <==> Feedback(old(Snapshot()), f).Ok?
      ensures r.Ok? ==> Feedback(old(Snapshot()), f) == Ok(Snapshot())
      ensures r.Err? ==> Feedback(old(Snapshot()), f) == Err(r.error) && Snapshot() == old(Snapshot())
    {
      var ids: seq<nat> := [];
      for i := 0 to |events|
        invariant ids == Concerned(events[..i], f)
      {
        assert events[..i + 1][..i] == events[..i];
        if events[i].injection == f.injection && events[i].memory == f.memory {
          ids := ids + [i];
        }
      }
      assert events[..|events|] == events;
      if |ids| == 0 {
        return Err(InjectionNotFound);
      }
      if |ids| != 1 {
        return Err(DecisionState);
      }
      var event := events[ids[0]];
      if event.outcome == Some(SignalOutcome(f.signal)) {
        return Ok(());
      }
      if !Allowed(event, f.signal) {
        return Err(OutcomeConflict);
      }
      if f.signal == SignalRemoved || f.signal == SignalCited {
        if event.memory !in heads {
          return Err(DecisionState);
        }
        heads := heads[event.memory := Heard(heads[event.memory], f.signal)];
      }
      events := events[ids[0] := event.(outcome := Some(SignalOutcome(f.signal)))];
      assert f.signal == SignalAdded && event.memory in heads ==>
        old(heads)[event.memory := Heard(old(heads)[event.memory], f.signal)] == heads;
      return Ok(());
    }
  }

  /** One of the items is about the event. */
  ghost predicate Settled(planned: seq<Planned>, id: nat) {
    exists k :: 0 <= k < |planned| && planned[k].row.id == id
  }

  lemma SettledGrows(planned: seq<Planned>, k: nat)
    requires k < |planned|
    ensures forall id :: Settled(planned[..k + 1], id) <==> Settled(planned[..k], id) || id == planned[k].row.id
  {
    assert planned[..k + 1] == planned[..k] + [planned[k]];
    forall id
      ensures Settled(planned[..k + 1], id) <==> Settled(planned[..k], id) || id == planned[k].row.id
    {
      if Settled(planned[..k], id) {
        var j :| 0 <= j < k && planned[..k][j].row.id == id;
        assert planned[..k + 1][j].row.id == id;
      }
      if id == planned[k].row.id {
        assert planned[..k + 1][k].row.id == id;
      }
    }
  }

  lemma FirstTouched(events: seq<Event>, c: CommitCommand, k: nat)
    requires k < |PlanOf(events, c)|
    ensures !Settled(PlanOf(events, c)[..k], PlanOf(events, c)[k].row.id)
  {
    PlanIsTheGate(events, c);
    hide PlanOf, Desired;
    var plan := PlanOf(events, c);
    forall j | 0 <= j < k
      ensures plan[j].row.id != plan[k].row.id
    {
      assert plan[j] in plan && plan[k] in plan && plan[j] != plan[k];
      assert plan[j] == PlanItem(events, c, plan[j].row.id) && plan[k] == PlanItem(events, c, plan[k].row.id);
    }
  }

  lemma AllSettled(events: seq<Event>, c: CommitCommand)
    ensures forall i :: 0 <= i < |events| && !Settled(PlanOf(events, c), i) ==> Settle(events[i], c) == events[i]
  {
    PlanIsTheGate(events, c);
    hide PlanOf, Desired;
    var plan := PlanOf(events, c);
    forall i | 0 <= i < |events| && AtGate(events[i], c.injection)
      ensures Settled(plan, i)
    {
      var k :| 0 <= k < |plan| && plan[k] == PlanItem(events, c, i);
      assert plan[k].row.id == i;
    }
  }

  lemma MissingHead(events: seq<Event>, c: CommitCommand, before: map<int, Unit>, heads: map<int, Unit>, k: nat,
                    rules: Rules, ts: int)
    requires k < |InMemoryOrder(PlanOf(events, c))|
    requires WrittenFor(before, heads, InMemoryOrder(PlanOf(events, c))[..k], events, c, rules, ts)
    requires InMemoryOrder(PlanOf(events, c))[k].row.event.memory !in heads
    ensures !HeadsKnown(PlanOf(events, c), before)
  {
    OrderedEffects(events, c);
    hide PlanOf, InMemoryOrder, Desired;
    var p := InMemoryOrder(PlanOf(events, c))[k];
    assert p in InMemoryOrder(PlanOf(events, c));
    assert p in PlanOf(events, c) && WritesHead(p);
  }

  lemma StillKeyed(events: seq<Event>, c: CommitCommand, before: map<int, Unit>, heads: map<int, Unit>, k: nat,
                   rules: Rules, ts: int)
    requires k < |InMemoryOrder(PlanOf(events, c))|
    requires WrittenFor(before, heads, InMemoryOrder(PlanOf(events, c))[..k], events, c, rules, ts)
    ensures heads.Keys == before.Keys
  {
  }

  lemma AllKnown(events: seq<Event>, c: CommitCommand, heads: map<int, Unit>)
    requires forall j ::
      0 <= j < |InMemoryOrder(PlanOf(events, c))| ==> InMemoryOrder(PlanOf(events, c))[j].row.event.memory in heads
    ensures HeadsKnown(PlanOf(events, c), heads)
  {
    OrderedEffects(events, c);
    hide PlanOf, InMemoryOrder, Desired;
    var plan, order := PlanOf(events, c), InMemoryOrder(PlanOf(events, c));
    forall i | 0 <= i < |plan| && WritesHead(plan[i])
      ensures plan[i].row.event.memory in heads
    {
      assert plan[i] in plan && plan[i] in order;
      var j :| 0 <= j < |order| && order[j] == plan[i];
    }
  }

  lemma {:induction false} WrongMembers(planned: seq<Planned>, p: Planned)
    ensures p in Wrongs(planned) <==> p in planned && IsWrong(p)
  {
    if |planned| > 0 {
      WrongMembers(planned[..|planned| - 1], p);
      assert planned == planned[..|planned| - 1] + [planned[|planned| - 1]];
    }
  }

  lemma WrongRankedMembers(planned: seq<Planned>)
    ensures forall p :: p in WrongRanked(planned) <==> p in planned && IsWrong(p)
  {
    forall p
      ensures p in WrongRanked(planned) <==> p in planned && IsWrong(p)
    {
      SortSameMembers(ByRank, Wrongs(planned), p);
      WrongMembers(planned, p);
    }
  }

  lemma PlannedIsOnce(events: seq<Event>, c: CommitCommand)
    requires PlanError(Batch(events, c.injection), c).None?
    ensures OncePerMemory(RowsOf(events), c.injection)
  {
    BatchPlansAlike(events, c);
  }

  lemma KeysKnown(planned: seq<Planned>, a: map<int, Unit>, b: map<int, Unit>)
    requires a.Keys == b.Keys
    ensures WrongKnown(planned, a) == WrongKnown(planned, b)
  {
  }

  lemma NothingPlanned(c: CommitCommand)
    ensures PlannedOf([], c) == [] && FinalRows([], c) == [] && WrongRanked([]) == []
  {
  }
}
