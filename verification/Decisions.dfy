/** Gate decisions: one commit or feedback, and what every run of prepares, commits and feedback keeps. */
module Decisions {
  import opened Outcomes
  import opened Sorting

  datatype Reason = NotRelevant | Wrong | Never

  datatype Shown = Injected | Pinned | NearMiss | BudgetCut

  datatype Outcome =
    | Removed(reason: Reason) | AddedBack | Kept | Cited
    | MidThreadRemoved | MidThreadAdded | AutoEntered | AutoExited | Cut

  /** One injection event; its id is its position in the table. */
  datatype Event = Event(injection: nat, memory: int, shown: Shown, outcome: Option<Outcome>, scorer: string, rank: int)

  datatype Status = Active | Quarantined | OtherStatus(name: string)

  datatype Stats = Stats(injections: nat, removals: nat, citations: nat, neverKills: nat, lastInjectedAt: Option<int>)

  /** The head fields of a memory that decisions read or change. */
  datatype Unit = Unit(revision: nat, status: Status, bias: real, stats: Stats)

  /** What a scorer version says about removed:never; only valid versions are in the map. */
  datatype NeverRule = NeverRule(step: real, kills: nat)

  type Rules = map<string, NeverRule>

  datatype Removal = Removal(memory: int, reason: Reason)

  datatype CommitCommand = CommitCommand(injection: nat, removed: seq<Removal>, addedBack: seq<int>)

  datatype Signal = SignalRemoved | SignalAdded | SignalCited

  datatype FeedbackCommand = FeedbackCommand(injection: nat, memory: int, signal: Signal)

  datatype DecisionError = InjectionNotFound | InvalidCommitChoices | OutcomeConflict | DecisionState

  /** Injections minted so far, the event table, and the memory heads. */
  datatype Store = Store(minted: nat, events: seq<Event>, heads: map<int, Unit>)

  // What a commit wants of an event.

  function ReasonFor(removed: seq<Removal>, memory: int): Option<Reason> {
    if |removed| == 0 then None
    else if removed[|removed| - 1].memory == memory then Some(removed[|removed| - 1].reason)
    else ReasonFor(removed[..|removed| - 1], memory)
  }

  function Desired(e: Event, c: CommitCommand): Option<Outcome> {
    var reason := ReasonFor(c.removed, e.memory);
    match e.shown
    case NearMiss =>
      if reason == Some(Never) then Some(Removed(Never))
      else if e.memory in c.addedBack then Some(AddedBack)
      else None
    case BudgetCut => None
    case _ => if reason.Some? then Some(Removed(reason.value)) else Some(Kept)
  }

  predicate FeedbackDescendant(e: Event, current: Outcome, desired: Outcome) {
    && current in {Cited, MidThreadRemoved, MidThreadAdded}
    && desired == if e.shown == NearMiss then AddedBack else Kept
  }

  predicate Conflicts(e: Event, c: CommitCommand) {
    match (e.outcome, Desired(e, c))
    case (None, _) => false
    case (Some(_), None) => true
    case (Some(current), Some(desired)) => current != desired && !FeedbackDescendant(e, current, desired)
  }

  /** The event belongs to the injection's gate: budget cuts do not. */
  predicate AtGate(e: Event, injection: nat) {
    e.injection == injection && e.shown != BudgetCut
  }

  /** What the commit newly writes on the event, if anything. */
  function NewOutcome(e: Event, c: CommitCommand): Option<Outcome> {
    if AtGate(e, c.injection) && e.outcome.None? then Desired(e, c) else None
  }

  function Settle(e: Event, c: CommitCommand): Event {
    var decided := NewOutcome(e, c);
    if decided.Some? then e.(outcome := decided) else e
  }

  // The gate as a set of rows.

  datatype Row = Row(id: nat, event: Event)

  function RowsOf(events: seq<Event>): (r: seq<Row>)
    ensures |r| == |events| && forall i :: 0 <= i < |events| ==> r[i] == Row(i, events[i])
  {
    seq(|events|, i requires 0 <= i < |events| => Row(i, events[i]))
  }

  /** No memory is twice at the gate. */
  ghost predicate OncePerMemory(rows: seq<Row>, injection: nat) {
    forall a, b :: a in rows && b in rows && AtGate(a.event, injection) && AtGate(b.event, injection) && a != b
      ==> a.event.memory != b.event.memory
  }

  ghost predicate MayRemove(rows: seq<Row>, injection: nat, item: Removal) {
    exists r :: r in rows && AtGate(r.event, injection) && r.event.memory == item.memory
      && (r.event.shown == NearMiss ==> item.reason == Never)
  }

  ghost predicate MayAddBack(rows: seq<Row>, injection: nat, memory: int) {
    exists r :: r in rows && AtGate(r.event, injection) && r.event.memory == memory && r.event.shown == NearMiss
  }

  /** Removed and added-back memories are listed once, in one list, and shown in a way that allows the choice. */
  ghost predicate ValidChoices(rows: seq<Row>, c: CommitCommand) {
    && (forall i, j :: 0 <= i < j < |c.removed| ==> c.removed[i].memory != c.removed[j].memory)
    && Distinct(c.addedBack)
    && (forall i :: 0 <= i < |c.removed| ==> c.removed[i].memory !in c.addedBack)
    && (forall i :: 0 <= i < |c.removed| ==> MayRemove(rows, c.injection, c.removed[i]))
    && (forall j :: 0 <= j < |c.addedBack| ==> MayAddBack(rows, c.injection, c.addedBack[j]))
  }

  ghost predicate NoConflicts(rows: seq<Row>, c: CommitCommand) {
    forall r :: r in rows && AtGate(r.event, c.injection) ==> !Conflicts(r.event, c)
  }

  /** The error of planning the commit, if any. */
  ghost function PlanError(rows: seq<Row>, c: CommitCommand): Option<DecisionError> {
    if !OncePerMemory(rows, c.injection) then Some(DecisionState)
    else if !ValidChoices(rows, c) then Some(InvalidCommitChoices)
    else if !NoConflicts(rows, c) then Some(OutcomeConflict)
    else None
  }

  // What it does to a memory.

  predicate ChangesHead(outcome: Outcome) {
    outcome.AddedBack? || outcome.Removed?
  }

  function Changed(unit: Unit, outcome: Outcome, rule: NeverRule, ts: int): Unit {
    var u := unit.(revision := unit.revision + 1);
    if outcome.AddedBack? then u.(stats := u.stats.(injections := u.stats.injections + 1, lastInjectedAt := Some(ts)))
    else
      var removed := u.stats.(removals := u.stats.removals + 1);
      if outcome != Removed(Never) then u.(stats := removed)
      else
        var kills := removed.neverKills + 1;
        u.(stats := removed.(neverKills := kills), bias := u.bias + rule.step,
           status := if u.status == Active && kills >= rule.kills then Quarantined else u.status)
  }

  const NO_RULE := NeverRule(0.0, 0)

  function RuleOf(rules: Rules, scorer: string): NeverRule {
    if scorer in rules then rules[scorer] else NO_RULE
  }

  /** The memory after everything the commit newly decides about it. */
  function HeadAfter(unit: Unit, memory: int, events: seq<Event>, c: CommitCommand, rules: Rules, ts: int): Unit {
    if |events| == 0 then unit
    else
      var e := events[|events| - 1];
      var before := HeadAfter(unit, memory, events[..|events| - 1], c, rules, ts);
      var decided := NewOutcome(e, c);
      if e.memory == memory && decided.Some? && ChangesHead(decided.value)
      then Changed(before, decided.value, RuleOf(rules, e.scorer), ts)
      else before
  }

  function HeadsAfter(heads: map<int, Unit>, events: seq<Event>, c: CommitCommand, rules: Rules, ts: int)
    : (r: map<int, Unit>)
    ensures r.Keys == heads.Keys
  {
    map m | m in heads :: HeadAfter(heads[m], m, events, c, rules, ts)
  }

  /** The memories and rules that the commit needs exist. */
  ghost predicate Backed(s: Store, rules: Rules, c: CommitCommand) {
    && (forall i :: 0 <= i < |s.events| && NewOutcome(s.events[i], c).Some?
         && ChangesHead(NewOutcome(s.events[i], c).value)
         ==> s.events[i].memory in s.heads)
    && (forall i :: 0 <= i < |s.events| && NewOutcome(s.events[i], c) == Some(Removed(Never))
         ==> s.events[i].scorer in rules)
    && (forall i :: 0 <= i < |s.events| && AtGate(s.events[i], c.injection)
         && Desired(s.events[i], c) == Some(Removed(Wrong))
         ==> s.events[i].memory in s.heads)
  }

  function SettleAll(events: seq<Event>, c: CommitCommand): (r: seq<Event>)
    ensures |r| == |events| && forall i :: 0 <= i < |events| ==> r[i] == Settle(events[i], c)
  {
    seq(|events|, i requires 0 <= i < |events| => Settle(events[i], c))
  }

  predicate Prepared(events: seq<Event>, injection: nat) {
    exists i :: 0 <= i < |events| && events[i].injection == injection
  }

  /** One commit as an atomic step: it changes nothing when it fails. */
  ghost function Commit(s: Store, rules: Rules, c: CommitCommand, ts: int): Result<Store, DecisionError> {
    if !Prepared(s.events, c.injection) then
      if c.removed != [] || c.addedBack != [] then Err(InjectionNotFound) else Ok(s)
    else
      var error := PlanError(RowsOf(s.events), c);
      if error.Some? then Err(error.value)
      else if !Backed(s, rules, c) then Err(DecisionState)
      else Ok(s.(events := SettleAll(s.events, c),
                 heads := HeadsAfter(s.heads, s.events, c, rules, ts)))
  }

  // Feedback.

  function SignalOutcome(signal: Signal): Outcome {
    match signal
    case SignalRemoved => MidThreadRemoved
    case SignalAdded => MidThreadAdded
    case SignalCited => Cited
  }

  predicate Allowed(e: Event, signal: Signal) {
    match signal
    case SignalAdded => e.outcome == Some(MidThreadRemoved) || (e.outcome == None && e.shown == NearMiss)
    case SignalRemoved => e.outcome in {Some(Kept), Some(AddedBack), Some(AutoEntered), Some(MidThreadAdded)}
    case SignalCited => e.outcome in {Some(Kept), Some(AddedBack), Some(AutoEntered)}
  }

  function Heard(unit: Unit, signal: Signal): Unit {
    match signal
    case SignalAdded => unit
    case SignalRemoved =>
      unit.(revision := unit.revision + 1, stats := unit.stats.(removals := unit.stats.removals + 1))
    case SignalCited =>
      unit.(revision := unit.revision + 1, stats := unit.stats.(citations := unit.stats.citations + 1))
  }

  /** The events of one memory in one injection, budget cuts included. */
  function Concerned(events: seq<Event>, f: FeedbackCommand): (r: seq<nat>)
    ensures forall k :: 0 <= k < |r| ==> r[k] < |events|
  {
    if |events| == 0 then []
    else
      var n := |events| - 1;
      Concerned(events[..n], f) + if events[n].injection == f.injection && events[n].memory == f.memory then [n] else []
  }

  function Feedback(s: Store, f: FeedbackCommand): Result<Store, DecisionError> {
    var ids := Concerned(s.events, f);
    if |ids| == 0 then Err(InjectionNotFound)
    else if |ids| > 1 then Err(DecisionState)
    else
      var e := s.events[ids[0]];
      var outcome := SignalOutcome(f.signal);
      if e.outcome == Some(outcome) then Ok(s)
      else if !Allowed(e, f.signal) then Err(OutcomeConflict)
      else if f.signal != SignalAdded && e.memory !in s.heads then Err(DecisionState)
      else Ok(s.(events := s.events[ids[0] := e.(outcome := Some(outcome))],
                 heads := if e.memory in s.heads
                   then s.heads[e.memory := Heard(s.heads[e.memory], f.signal)] else s.heads))
  }

  // Prepares, as far as decisions see them.

  /** The outcomes that a prepare can write. */
  predicate Initial(outcome: Option<Outcome>) {
    outcome in {None, Some(Kept), Some(AutoEntered), Some(AutoExited), Some(Cut)}
  }

  function Injecting(unit: Unit, ts: int): Unit {
    unit.(revision := unit.revision + 1,
          stats := unit.stats.(injections := unit.stats.injections + 1, lastInjectedAt := Some(ts)))
  }

  predicate ShowsInjected(batch: seq<Event>, memory: int) {
    exists i :: 0 <= i < |batch| && batch[i].memory == memory
      && (batch[i].shown == Injected || batch[i].shown == Pinned)
  }

  function Prepare(s: Store, batch: seq<Event>, ts: int): Store {
    if forall i :: 0 <= i < |batch| ==> batch[i].injection == s.minted && Initial(batch[i].outcome) then
      Store(s.minted + 1, s.events + batch, map m | m in s.heads ::
        if ShowsInjected(batch, m) then Injecting(s.heads[m], ts) else s.heads[m])
    else s
  }

  // Runs.

  datatype Step =
    | DoPrepare(batch: seq<Event>, at: int)
    | DoCommit(command: CommitCommand, at: int)
    | DoFeedback(feedback: FeedbackCommand)

  ghost function After(s: Store, rules: Rules, step: Step): Store {
    match step
    case DoPrepare(batch, at) => Prepare(s, batch, at)
    case DoCommit(c, at) => (match Commit(s, rules, c, at) case Ok(t) => t case Err(_) => s)
    case DoFeedback(f) => (match Feedback(s, f) case Ok(t) => t case Err(_) => s)
  }

  ghost function Run(s: Store, rules: Rules, steps: seq<Step>): Store {
    if |steps| == 0 then s else After(Run(s, rules, steps[..|steps| - 1]), rules, steps[|steps| - 1])
  }

  // The counters.

  predicate At(e: Event, memory: int, outcome: Outcome) {
    e.memory == memory && e.outcome == Some(outcome)
  }

  function Count(events: seq<Event>, memory: int, outcome: Outcome): nat {
    if |events| == 0 then 0
    else Count(events[..|events| - 1], memory, outcome) + if At(events[|events| - 1], memory, outcome) then 1 else 0
  }

  /** The never steps of the events at removed:never, each by its own scorer version. */
  function NeverSteps(events: seq<Event>, memory: int, rules: Rules): real {
    if |events| == 0 then 0.0
    else
      var e := events[|events| - 1];
      NeverSteps(events[..|events| - 1], memory, rules)
        + if At(e, memory, Removed(Never)) then RuleOf(rules, e.scorer).step else 0.0
  }

  /** A memory's counters less what its events account for. */
  datatype Surplus = Surplus(neverKills: int, citations: int, bias: real)

  function SurplusOf(unit: Unit, memory: int, events: seq<Event>, rules: Rules): Surplus {
    Surplus(unit.stats.neverKills - Count(events, memory, Removed(Never)),
            unit.stats.citations - Count(events, memory, Cited),
            unit.bias - NeverSteps(events, memory, rules))
  }

  lemma {:induction false} CommitBalances(unit: Unit, memory: int, events: seq<Event>, c: CommitCommand, rules: Rules,
                                          ts: int)
    ensures SurplusOf(HeadAfter(unit, memory, events, c, rules, ts), memory, SettleAll(events, c), rules)
      == SurplusOf(unit, memory, events, rules)
    decreases |events|
  {
    if |events| > 0 {
      var n := |events| - 1;
      CommitBalances(unit, memory, events[..n], c, rules, ts);
      assert SettleAll(events, c)[..n] == SettleAll(events[..n], c);
      assert SettleAll(events, c)[n] == Settle(events[n], c);
    }
  }

  lemma {:induction false} CountReplaced(events: seq<Event>, i: nat, e: Event, memory: int, rules: Rules)
    requires i < |events| && e.scorer == events[i].scorer
    ensures Count(events[i := e], memory, Cited)
      == Count(events, memory, Cited) + (if At(e, memory, Cited) then 1 else 0)
         - (if At(events[i], memory, Cited) then 1 else 0)
    ensures !At(e, memory, Removed(Never)) && !At(events[i], memory, Removed(Never)) ==>
      && Count(events[i := e], memory, Removed(Never)) == Count(events, memory, Removed(Never))
      && NeverSteps(events[i := e], memory, rules) == NeverSteps(events, memory, rules)
    decreases |events|
  {
    var n := |events| - 1;
    var next := events[i := e];
    if i < n {
      CountReplaced(events[..n], i, e, memory, rules);
      assert next[..n] == events[..n][i := e];
    } else {
      assert next[..n] == events[..n];
    }
  }

  lemma {:induction false} CountAppended(events: seq<Event>, batch: seq<Event>, memory: int, rules: Rules)
    requires forall i :: 0 <= i < |batch| ==> Initial(batch[i].outcome)
    ensures Count(events + batch, memory, Cited) == Count(events, memory, Cited)
    ensures Count(events + batch, memory, Removed(Never)) == Count(events, memory, Removed(Never))
    ensures NeverSteps(events + batch, memory, rules) == NeverSteps(events, memory, rules)
    decreases |batch|
  {
    if |batch| == 0 {
      assert events + batch == events;
    } else {
      var n := |batch| - 1;
      CountAppended(events, batch[..n], memory, rules);
      assert (events + batch)[..|events + batch| - 1] == events + batch[..n];
    }
  }

  lemma FeedbackBalances(s: Store, f: FeedbackCommand, rules: Rules, memory: int)
    requires Feedback(s, f).Ok? && memory in s.heads
    ensures var t := Feedback(s, f).value;
      && memory in t.heads
      && SurplusOf(t.heads[memory], memory, t.events, rules) == SurplusOf(s.heads[memory], memory, s.events, rules)
  {
    var i := Concerned(s.events, f)[0];
    var t := Feedback(s, f).value;
    if t != s {
      CountReplaced(s.events, i, t.events[i], memory, rules);
    }
  }

  lemma StepBalances(s: Store, rules: Rules, step: Step, memory: int)
    requires memory in s.heads
    ensures var t := After(s, rules, step);
      && memory in t.heads
      && SurplusOf(t.heads[memory], memory, t.events, rules) == SurplusOf(s.heads[memory], memory, s.events, rules)
  {
    hide SurplusOf;
    match step
    case DoPrepare(batch, at) =>
      if After(s, rules, step) != s {
        PrepareBalances(s, batch, at, rules, memory);
      }
    case DoCommit(c, at) =>
      CommitBalances(s.heads[memory], memory, s.events, c, rules, at);
    case DoFeedback(f) =>
      if Feedback(s, f).Ok? {
        FeedbackBalances(s, f, rules, memory);
      }
  }

  lemma PrepareBalances(s: Store, batch: seq<Event>, ts: int, rules: Rules, memory: int)
    requires memory in s.heads && Prepare(s, batch, ts) != s
    ensures var t := Prepare(s, batch, ts);
      && memory in t.heads
      && SurplusOf(t.heads[memory], memory, t.events, rules) == SurplusOf(s.heads[memory], memory, s.events, rules)
  {
    CountAppended(s.events, batch, memory, rules);
  }

  /**
   * Over every run, a memory's never_kills grow by its events at removed:never, its citations by its events
   * at cited, and its bias moves by the sum of those never steps.
   */
  lemma {:induction false} CountersMatchEvents(s: Store, rules: Rules, steps: seq<Step>, memory: int)
    requires memory in s.heads
    ensures var t := Run(s, rules, steps);
      && memory in t.heads
      && t.heads[memory].stats.neverKills - s.heads[memory].stats.neverKills
           == Count(t.events, memory, Removed(Never)) - Count(s.events, memory, Removed(Never))
      && t.heads[memory].stats.citations - s.heads[memory].stats.citations
           == Count(t.events, memory, Cited) - Count(s.events, memory, Cited)
      && t.heads[memory].bias - s.heads[memory].bias
           == NeverSteps(t.events, memory, rules) - NeverSteps(s.events, memory, rules)
    decreases |steps|
  {
    if |steps| > 0 {
      var before := Run(s, rules, steps[..|steps| - 1]);
      CountersMatchEvents(s, rules, steps[..|steps| - 1], memory);
      StepBalances(before, rules, steps[|steps| - 1], memory);
    }
  }

  // What later steps cannot undo.

  /** The table only grows; an event keeps its identity, an outcome once it has one, and a terminal outcome as it is. */
  ghost predicate Ages(a: Store, b: Store) {
    && a.minted <= b.minted && |a.events| <= |b.events|
    && (forall i :: 0 <= i < |a.events| ==> Older(a.events[i], b.events[i]))
    && (forall i :: |a.events| <= i < |b.events| ==> a.minted <= b.events[i].injection < b.minted)
    && a.heads.Keys == b.heads.Keys
  }

  predicate Terminal(outcome: Option<Outcome>) {
    outcome.Some? && (outcome.value.Removed? || outcome.value in {Cited, AutoExited, Cut})
  }

  ghost predicate Older(a: Event, b: Event) {
    && b == a.(outcome := b.outcome)
    && (a.outcome.Some? ==> b.outcome.Some?)
    && (Terminal(a.outcome) ==> b.outcome == a.outcome)
  }

  lemma StepAges(s: Store, rules: Rules, step: Step)
    ensures Ages(s, After(s, rules, step))
  {
    match step
    case DoPrepare(batch, at) =>
    case DoCommit(c, at) =>
      hide PlanError, Backed, HeadAfter, Desired;
    case DoFeedback(f) =>
      if Feedback(s, f).Ok? {
        var i := Concerned(s.events, f)[0];
        assert Older(s.events[i], Feedback(s, f).value.events[i]);
      }
  }

  lemma AgesTransitive(a: Store, b: Store, c: Store)
    requires Ages(a, b) && Ages(b, c)
    ensures Ages(a, c)
  {
    forall i | 0 <= i < |a.events|
      ensures Older(a.events[i], c.events[i])
    {
      assert Older(a.events[i], b.events[i]) && Older(b.events[i], c.events[i]);
    }
  }

  lemma {:induction false} RunAges(s: Store, rules: Rules, steps: seq<Step>)
    ensures Ages(s, Run(s, rules, steps))
    decreases |steps|
  {
    if |steps| > 0 {
      var before := Run(s, rules, steps[..|steps| - 1]);
      RunAges(s, rules, steps[..|steps| - 1]);
      StepAges(before, rules, steps[|steps| - 1]);
      AgesTransitive(s, before, Run(s, rules, steps));
    }
  }

  /** Nothing at the gate is left for the command to decide. */
  ghost predicate Decided(events: seq<Event>, c: CommitCommand) {
    forall i :: 0 <= i < |events| ==> NewOutcome(events[i], c).None?
  }

  lemma CommitDecides(s: Store, rules: Rules, c: CommitCommand, ts: int)
    requires Commit(s, rules, c, ts).Ok?
    ensures Decided(Commit(s, rules, c, ts).value.events, c)
  {
    hide PlanError, Backed, HeadAfter, ReasonFor;
    var t := Commit(s, rules, c, ts).value;
    if Prepared(s.events, c.injection) {
      forall i | 0 <= i < |t.events|
        ensures NewOutcome(t.events[i], c).None?
      {
        assert t.events[i] == Settle(s.events[i], c);
      }
    }
  }

  lemma DecidedStays(a: Store, b: Store, c: CommitCommand)
    requires Ages(a, b) && Decided(a.events, c) && c.injection < a.minted
    ensures Decided(b.events, c)
  {
    hide ReasonFor;
    forall i | 0 <= i < |b.events|
      ensures NewOutcome(b.events[i], c).None?
    {
      if i < |a.events| {
        assert Older(a.events[i], b.events[i]) && NewOutcome(a.events[i], c).None?;
      }
    }
  }

  lemma {:induction false} NothingNewForHead(unit: Unit, memory: int, events: seq<Event>, c: CommitCommand,
                                             rules: Rules, ts: int)
    requires Decided(events, c)
    ensures HeadAfter(unit, memory, events, c, rules, ts) == unit
    decreases |events|
  {
    if |events| > 0 {
      var n := |events| - 1;
      assert forall i :: 0 <= i < n ==> events[..n][i] == events[i];
      NothingNewForHead(unit, memory, events[..n], c, rules, ts);
    }
  }

  lemma DecidedChangesNothing(s: Store, rules: Rules, c: CommitCommand, ts: int)
    requires Decided(s.events, c) && Commit(s, rules, c, ts).Ok?
    ensures Commit(s, rules, c, ts) == Ok(s)
  {
    hide PlanError, Backed, NewOutcome, HeadAfter;
    var t := Commit(s, rules, c, ts).value;
    if Prepared(s.events, c.injection) {
      assert t.events == s.events;
      forall m | m in s.heads
        ensures t.heads[m] == s.heads[m]
      {
        NothingNewForHead(s.heads[m], m, s.events, c, rules, ts);
      }
      assert t.heads == s.heads;
    }
  }

  /**
   * Exactly once: after a commit succeeds, a replay of the same command after any run, at any later time,
   * fails or changes nothing.
   */
  lemma ReplayNeverActsAgain(s: Store, rules: Rules, c: CommitCommand, ts: int, steps: seq<Step>, later: int)
    requires Commit(s, rules, c, ts).Ok? && c.injection < s.minted
    ensures var t := Run(Commit(s, rules, c, ts).value, rules, steps);
      Commit(t, rules, c, later).Err? || Commit(t, rules, c, later) == Ok(t)
  {
    var first := Commit(s, rules, c, ts).value;
    var t := Run(first, rules, steps);
    CommitDecides(s, rules, c, ts);
    RunAges(first, rules, steps);
    assert first.minted == s.minted;
    DecidedStays(first, t, c);
    if Commit(t, rules, c, later).Ok? {
      DecidedChangesNothing(t, rules, c, later);
    }
  }

  // An immediate replay is accepted.

  lemma SettledRow(events: seq<Event>, c: CommitCommand, r: Row)
    requires r in RowsOf(SettleAll(events, c))
    ensures r.id < |events| && Row(r.id, events[r.id]) in RowsOf(events) && r.event == Settle(events[r.id], c)
  {
    var rows := RowsOf(SettleAll(events, c));
    var i :| 0 <= i < |rows| && rows[i] == r;
    assert RowsOf(events)[i] == Row(i, events[i]);
  }

  lemma RowSettles(events: seq<Event>, c: CommitCommand, r: Row)
    requires r in RowsOf(events)
    ensures Row(r.id, Settle(r.event, c)) in RowsOf(SettleAll(events, c))
  {
    var rows := RowsOf(events);
    var i :| 0 <= i < |rows| && rows[i] == r;
    assert RowsOf(SettleAll(events, c))[i] == Row(i, Settle(events[i], c));
  }

  lemma SettlingKeepsChoices(events: seq<Event>, c: CommitCommand)
    requires ValidChoices(RowsOf(events), c)
    ensures ValidChoices(RowsOf(SettleAll(events, c)), c)
  {
    hide RowsOf, SettleAll, Desired;
    forall i | 0 <= i < |c.removed|
      ensures MayRemove(RowsOf(SettleAll(events, c)), c.injection, c.removed[i])
    {
      assert MayRemove(RowsOf(events), c.injection, c.removed[i]);
      var r :| r in RowsOf(events) && AtGate(r.event, c.injection) && r.event.memory == c.removed[i].memory
        && (r.event.shown == NearMiss ==> c.removed[i].reason == Never);
      RowSettles(events, c, r);
    }
    forall j | 0 <= j < |c.addedBack|
      ensures MayAddBack(RowsOf(SettleAll(events, c)), c.injection, c.addedBack[j])
    {
      assert MayAddBack(RowsOf(events), c.injection, c.addedBack[j]);
      var r :| r in RowsOf(events) && AtGate(r.event, c.injection) && r.event.memory == c.addedBack[j]
        && r.event.shown == NearMiss;
      RowSettles(events, c, r);
    }
  }

  lemma SettlingKeepsOnce(events: seq<Event>, c: CommitCommand)
    requires OncePerMemory(RowsOf(events), c.injection)
    ensures OncePerMemory(RowsOf(SettleAll(events, c)), c.injection)
  {
    hide RowsOf, SettleAll, Desired;
    var rows := RowsOf(SettleAll(events, c));
    forall a, b | a in rows && b in rows && AtGate(a.event, c.injection) && AtGate(b.event, c.injection) && a != b
      ensures a.event.memory != b.event.memory
    {
      SettledRow(events, c, a);
      SettledRow(events, c, b);
      assert Row(a.id, events[a.id]) != Row(b.id, events[b.id]);
    }
  }

  lemma SettledNeverConflicts(e: Event, c: CommitCommand)
    requires AtGate(e, c.injection) && !Conflicts(e, c)
    ensures !Conflicts(Settle(e, c), c)
  {
    assert Desired(Settle(e, c), c) == Desired(e, c);
  }

  lemma SettlingKeepsPeace(events: seq<Event>, c: CommitCommand)
    requires NoConflicts(RowsOf(events), c)
    ensures NoConflicts(RowsOf(SettleAll(events, c)), c)
  {
    hide RowsOf, SettleAll, Conflicts, Desired;
    forall r | r in RowsOf(SettleAll(events, c)) && AtGate(r.event, c.injection)
      ensures !Conflicts(r.event, c)
    {
      SettledRow(events, c, r);
      SettledNeverConflicts(events[r.id], c);
    }
  }

  /** Sent again at once, a commit that succeeded succeeds again and changes nothing. */
  lemma ReplayAtOnceIsAccepted(s: Store, rules: Rules, c: CommitCommand, ts: int, later: int)
    requires Commit(s, rules, c, ts).Ok?
    ensures Commit(Commit(s, rules, c, ts).value, rules, c, later) == Ok(Commit(s, rules, c, ts).value)
  {
    if Prepared(s.events, c.injection) {
      var t := Commit(s, rules, c, ts).value;
      CommitDecides(s, rules, c, ts);
      SettlingKeepsOnce(s.events, c);
      SettlingKeepsChoices(s.events, c);
      SettlingKeepsPeace(s.events, c);
      StillBacked(s, t, rules, c);
      hide OncePerMemory, ValidChoices, NoConflicts, Backed, HeadAfter, NewOutcome, Desired, RowsOf;
      var k :| 0 <= k < |s.events| && s.events[k].injection == c.injection;
      assert t.events[k].injection == c.injection;
      DecidedChangesNothing(t, rules, c, later);
    }
  }

  lemma StillBacked(s: Store, t: Store, rules: Rules, c: CommitCommand)
    requires Backed(s, rules, c) && t.events == SettleAll(s.events, c) && t.heads.Keys == s.heads.Keys
    requires Decided(t.events, c)
    ensures Backed(t, rules, c)
  {
    forall i | 0 <= i < |t.events|
      ensures AtGate(t.events[i], c.injection) && Desired(t.events[i], c) == Some(Removed(Wrong))
        ==> t.events[i].memory in t.heads
    {
      assert t.events[i] == Settle(s.events[i], c);
      assert Desired(t.events[i], c) == Desired(s.events[i], c);
    }
  }

  // Quarantine.

  /** An active memory has been removed for ever fewer than so many times. */
  ghost predicate QuarantinedBy(heads: map<int, Unit>, kills: nat) {
    forall m :: m in heads ==> (heads[m].status == Active ==> heads[m].stats.neverKills < kills)
  }

  lemma {:induction false} HeadInTime(unit: Unit, memory: int, events: seq<Event>, c: CommitCommand, rules: Rules,
                                      ts: int, kills: nat)
    requires unit.status == Active ==> unit.stats.neverKills < kills
    requires forall v :: v in rules ==> rules[v].kills <= kills
    requires forall i ::
      0 <= i < |events| && NewOutcome(events[i], c) == Some(Removed(Never)) ==> events[i].scorer in rules
    ensures var u := HeadAfter(unit, memory, events, c, rules, ts);
      u.status == Active ==> u.stats.neverKills < kills
    decreases |events|
  {
    if |events| > 0 {
      var n := |events| - 1;
      assert forall i :: 0 <= i < n ==> events[..n][i] == events[i];
      HeadInTime(unit, memory, events[..n], c, rules, ts, kills);
    }
  }

  /**
   * If every scorer version quarantines after at most that many never removals, then over every run no memory
   * is active with that many.
   */
  lemma {:induction false} QuarantineComesInTime(s: Store, rules: Rules, steps: seq<Step>, kills: nat)
    requires forall v :: v in rules ==> rules[v].kills <= kills
    requires QuarantinedBy(s.heads, kills)
    ensures QuarantinedBy(Run(s, rules, steps).heads, kills)
    decreases |steps|
  {
    if |steps| > 0 {
      var before := Run(s, rules, steps[..|steps| - 1]);
      QuarantineComesInTime(s, rules, steps[..|steps| - 1], kills);
      StepQuarantines(before, rules, steps[|steps| - 1], kills);
    }
  }

  lemma StepQuarantines(s: Store, rules: Rules, step: Step, kills: nat)
    requires forall v :: v in rules ==> rules[v].kills <= kills
    requires QuarantinedBy(s.heads, kills)
    ensures QuarantinedBy(After(s, rules, step).heads, kills)
  {
    hide PlanError, HeadAfter, NewOutcome;
    match step
    case DoPrepare(batch, at) =>
    case DoFeedback(f) =>
    case DoCommit(c, at) =>
      if Commit(s, rules, c, at).Ok? && Prepared(s.events, c.injection) {
        forall m | m in s.heads
          ensures var u := HeadAfter(s.heads[m], m, s.events, c, rules, at);
            u.status == Active ==> u.stats.neverKills < kills
        {
          HeadInTime(s.heads[m], m, s.events, c, rules, at, kills);
        }
      }
  }
}
