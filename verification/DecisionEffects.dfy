/** What a commit, a feedback and a prepare write, event by event. */
module DecisionEffects {
  import opened Outcomes
  import opened Sorting
  import opened Decisions
  import DecisionService

  // Commit: the events.

  lemma {:induction false} ReasonListed(removed: seq<Removal>, memory: int, item: Removal)
    requires forall i, j :: 0 <= i < j < |removed| ==> removed[i].memory != removed[j].memory
    requires item in removed && item.memory == memory
    ensures ReasonFor(removed, memory) == Some(item.reason)
  {
    var n := |removed| - 1;
    assert removed == removed[..n] + [removed[n]];
    if removed[n].memory != memory {
      ReasonListed(removed[..n], memory, item);
    } else {
      var i :| 0 <= i <= n && removed[i] == item;
      assert i == n;
    }
  }

  lemma {:induction false} ReasonNotListed(removed: seq<Removal>, memory: int)
    ensures ReasonFor(removed, memory).None? <==> forall item :: item in removed ==> item.memory != memory
  {
    if |removed| > 0 {
      var n := |removed| - 1;
      assert removed == removed[..n] + [removed[n]];
      ReasonNotListed(removed[..n], memory);
    }
  }

  /**
   * A successful commit writes only outcomes, and only on the undecided events of its gate. An injected or pinned
   * memory takes the reason for which it is listed as removed and is kept when it is not listed; a near miss is
   * removed for ever or added back when it is listed so and stays undecided otherwise.
   */
  lemma CommitWritesEvents(s: Store, rules: Rules, c: CommitCommand, ts: int, i: nat)
    requires Commit(s, rules, c, ts).Ok? && i < |s.events|
    ensures |Commit(s, rules, c, ts).value.events| == |s.events|
    ensures var e, after := s.events[i], Commit(s, rules, c, ts).value.events[i];
      && after == e.(outcome := after.outcome)
      && (e.outcome.Some? || e.injection != c.injection || e.shown == BudgetCut ==> after == e)
    ensures var e, after := s.events[i], Commit(s, rules, c, ts).value.events[i];
      e.outcome.None? && e.injection == c.injection && (e.shown == Injected || e.shown == Pinned) ==>
        && (forall item :: item in c.removed && item.memory == e.memory ==> after.outcome == Some(Removed(item.reason)))
        && ((forall item :: item in c.removed ==> item.memory != e.memory) ==> after.outcome == Some(Kept))
    ensures var e, after := s.events[i], Commit(s, rules, c, ts).value.events[i];
      e.outcome.None? && e.injection == c.injection && e.shown == NearMiss ==>
        after.outcome ==
          if Removal(e.memory, Never) in c.removed then Some(Removed(Never))
          else if e.memory in c.addedBack then Some(AddedBack)
          else None
  {
    hide Backed, HeadAfter, NoConflicts, MayRemove, MayAddBack, OncePerMemory;
    var e := s.events[i];
    if Prepared(s.events, c.injection) {
      ReasonNotListed(c.removed, e.memory);
      forall item | item in c.removed && item.memory == e.memory
        ensures ReasonFor(c.removed, e.memory) == Some(item.reason)
      {
        ReasonListed(c.removed, e.memory, item);
      }
      hide ReasonFor;
      var reason := ReasonFor(c.removed, e.memory);
      if reason == Some(Never) {
        var item :| item in c.removed && item.memory == e.memory;
        assert item == Removal(e.memory, Never);
      }
    }
  }

  // Commit: the heads.

  /** The event is at the gate of the injection and waits for an outcome. */
  predicate Undecided(e: Event, injection: nat) {
    e.injection == injection && e.shown != BudgetCut && e.outcome.None?
  }

  /**
   * A successful commit moves a head once for its undecided event: an add-back counts an injection now, a removal
   * counts a removal, and one for ever also counts a kill, adds the version's step to the bias and quarantines an
   * active memory that has reached the version's number of kills. Any other outcome leaves the head alone.
   */
  lemma CommitWritesHead(s: Store, rules: Rules, c: CommitCommand, ts: int, i: nat)
    requires Commit(s, rules, c, ts).Ok? && i < |s.events| && Undecided(s.events[i], c.injection)
    ensures |Commit(s, rules, c, ts).value.events| == |s.events|
    ensures var e, t := s.events[i], Commit(s, rules, c, ts).value;
      (t.events[i].outcome == Some(AddedBack) || (exists why :: t.events[i].outcome == Some(Removed(why)))) ==>
        e.memory in s.heads
    ensures var e, t := s.events[i], Commit(s, rules, c, ts).value;
      e.memory in s.heads ==>
        && e.memory in t.heads
        && var h, n, out := s.heads[e.memory], s.heads[e.memory].stats, t.events[i].outcome;
        t.heads[e.memory] ==
          if out == Some(AddedBack) then
            Unit(h.revision + 1, h.status, h.bias,
                 Stats(n.injections + 1, n.removals, n.citations, n.neverKills, Some(ts)))
          else if out == Some(Removed(Never)) && e.scorer in rules then
            Unit(h.revision + 1,
                 if h.status == Active && n.neverKills + 1 >= rules[e.scorer].kills then Quarantined else h.status,
                 h.bias + rules[e.scorer].step,
                 Stats(n.injections, n.removals + 1, n.citations, n.neverKills + 1, n.lastInjectedAt))
          else if out == Some(Removed(NotRelevant)) || out == Some(Removed(Wrong)) then
            Unit(h.revision + 1, h.status, h.bias,
                 Stats(n.injections, n.removals + 1, n.citations, n.neverKills, n.lastInjectedAt))
          else h
    ensures Commit(s, rules, c, ts).value.events[i].outcome == Some(Removed(Never)) ==> s.events[i].scorer in rules
  {
    var e, t := s.events[i], Commit(s, rules, c, ts).value;
    assert Prepared(s.events, c.injection);
    assert t.events[i] == Settle(e, c);
    hide Desired, ValidChoices, NoConflicts, OncePerMemory;
    if e.memory in s.heads {
      OneHead(s, rules, c, ts, i);
      var h, out := s.heads[e.memory], t.events[i].outcome;
      assert t.heads[e.memory] == HeadAfter(h, e.memory, s.events, c, rules, ts);
      if out.Some? && ChangesHead(out.value) {
        ChangedReads(h, out.value, RuleOf(rules, e.scorer), ts);
      }
      hide HeadAfter, NewOutcome, Changed;
    }
  }

  lemma ChangedReads(h: Unit, out: Outcome, rule: NeverRule, ts: int)
    requires ChangesHead(out)
    ensures out == AddedBack || out == Removed(Never) || out == Removed(Wrong) || out == Removed(NotRelevant)
    ensures var n := h.stats;
      Changed(h, out, rule, ts) ==
        if out == AddedBack then
          Unit(h.revision + 1, h.status, h.bias,
               Stats(n.injections + 1, n.removals, n.citations, n.neverKills, Some(ts)))
        else if out == Removed(Never) then
          Unit(h.revision + 1, if h.status == Active && n.neverKills + 1 >= rule.kills then Quarantined else h.status,
               h.bias + rule.step,
               Stats(n.injections, n.removals + 1, n.citations, n.neverKills + 1, n.lastInjectedAt))
        else
          Unit(h.revision + 1, h.status, h.bias,
               Stats(n.injections, n.removals + 1, n.citations, n.neverKills, n.lastInjectedAt))
  {
    if out.Removed? {
      assert out.reason.Never? || out.reason.Wrong? || out.reason.NotRelevant?;
    }
  }

  lemma OneHead(s: Store, rules: Rules, c: CommitCommand, ts: int, i: nat)
    requires OncePerMemory(RowsOf(s.events), c.injection) && i < |s.events| && Undecided(s.events[i], c.injection)
    ensures var e := s.events[i]; var decided := NewOutcome(e, c);
      forall h :: HeadAfter(h, e.memory, s.events, c, rules, ts) ==
        if decided.Some? && ChangesHead(decided.value) then Changed(h, decided.value, RuleOf(rules, e.scorer), ts)
        else h
  {
    hide Desired, Changed, RuleOf;
    var e := s.events[i];
    forall j | 0 <= j < |s.events| && j != i
      ensures !DecisionService.Affects(s.events[j], c, e.memory)
    {
      assert RowsOf(s.events)[i] in RowsOf(s.events) && RowsOf(s.events)[j] in RowsOf(s.events);
      assert RowsOf(s.events)[i] != RowsOf(s.events)[j];
    }
    hide OncePerMemory, RowsOf, NewOutcome;
    forall h
      ensures HeadAfter(h, e.memory, s.events, c, rules, ts) ==
        if DecisionService.Affects(e, c, e.memory)
        then Changed(h, NewOutcome(e, c).value, RuleOf(rules, e.scorer), ts) else h
    {
      if DecisionService.Affects(e, c, e.memory) {
        DecisionService.OneEffect(h, s.events, i, c, rules, ts);
      } else {
        DecisionService.NoEffect(h, e.memory, s.events, c, rules, ts);
      }
    }
  }

  /** The head of a memory without an undecided event at the gate stays as it is. */
  lemma CommitLeavesHead(s: Store, rules: Rules, c: CommitCommand, ts: int, memory: int)
    requires Commit(s, rules, c, ts).Ok? && memory in s.heads
    requires forall i :: 0 <= i < |s.events| && Undecided(s.events[i], c.injection) ==> s.events[i].memory != memory
    ensures Commit(s, rules, c, ts).value.heads.Keys == s.heads.Keys
    ensures Commit(s, rules, c, ts).value.heads[memory] == s.heads[memory]
  {
    hide Desired, PlanError, Backed, HeadAfter;
    DecisionService.NoEffect(s.heads[memory], memory, s.events, c, rules, ts);
  }

  // Commit: when it succeeds.

  /** No memory is at the gate twice. */
  ghost predicate GateOnce(events: seq<Event>, injection: nat) {
    forall i, j :: 0 <= i < j < |events|
      && events[i].injection == events[j].injection == injection
      && events[i].shown != BudgetCut && events[j].shown != BudgetCut
      ==> events[i].memory != events[j].memory
  }

  /** The memory was shown at the gate in one of these ways. */
  ghost predicate ShownAs(events: seq<Event>, injection: nat, memory: int, ways: set<Shown>) {
    exists i :: 0 <= i < |events|
      && events[i].injection == injection && events[i].memory == memory && events[i].shown in ways
  }

  /** Each memory is chosen once; what was injected may be removed, a near miss only for ever, or be added back. */
  ghost predicate ChoicesFit(events: seq<Event>, c: CommitCommand) {
    && (forall i, j :: 0 <= i < j < |c.removed| ==> c.removed[i].memory != c.removed[j].memory)
    && (forall i, j :: 0 <= i < j < |c.addedBack| ==> c.addedBack[i] != c.addedBack[j])
    && (forall item :: item in c.removed ==>
         && item.memory !in c.addedBack
         && ShownAs(events, c.injection, item.memory,
                    if item.reason == Never then {Injected, Pinned, NearMiss} else {Injected, Pinned}))
    && (forall m :: m in c.addedBack ==> ShownAs(events, c.injection, m, {NearMiss}))
  }

  /** An outcome already there is the one that the commit would write, or feedback on what it would write. */
  ghost predicate Agrees(e: Event, out: Outcome, c: CommitCommand) {
    if e.shown == NearMiss then
      || (out == Removed(Never) && Removal(e.memory, Never) in c.removed)
      || (out in {AddedBack, Cited, MidThreadRemoved, MidThreadAdded} && e.memory in c.addedBack
          && Removal(e.memory, Never) !in c.removed)
    else
      || (exists item :: item in c.removed && item.memory == e.memory && out == Removed(item.reason))
      || (out in {Kept, Cited, MidThreadRemoved, MidThreadAdded}
          && forall item :: item in c.removed ==> item.memory != e.memory)
  }

  ghost predicate OutcomesAgree(events: seq<Event>, c: CommitCommand) {
    forall i ::
      0 <= i < |events| && events[i].injection == c.injection && events[i].shown != BudgetCut && events[i].outcome.Some?
      ==> Agrees(events[i], events[i].outcome.value, c)
  }

  /** What the commit must change, or read the source of, is there. */
  ghost predicate Supported(s: Store, rules: Rules, c: CommitCommand) {
    forall i :: 0 <= i < |s.events| && s.events[i].injection == c.injection && s.events[i].shown != BudgetCut ==>
      var e := s.events[i];
      && (e.outcome.None? && (e.memory in c.addedBack || exists item :: item in c.removed && item.memory == e.memory)
          ==> e.memory in s.heads)
      && (e.outcome.None? && Removal(e.memory, Never) in c.removed ==> e.scorer in rules)
      && (Removal(e.memory, Wrong) in c.removed ==> e.memory in s.heads)
  }

  /** Without any event of the injection a commit succeeds exactly if it chooses nothing, and changes nothing. */
  lemma CommitUnprepared(s: Store, rules: Rules, c: CommitCommand, ts: int)
    requires forall i :: 0 <= i < |s.events| ==> s.events[i].injection != c.injection
    ensures Commit(s, rules, c, ts) ==
      if |c.removed| == 0 && |c.addedBack| == 0 then Ok(s) else Err(InjectionNotFound)
  {
  }

  /** The outcome of a commit on a prepared injection, in the order in which the source refuses. */
  lemma CommitRefusesExactlyWhen(s: Store, rules: Rules, c: CommitCommand, ts: int)
    requires exists i :: 0 <= i < |s.events| && s.events[i].injection == c.injection
    ensures !GateOnce(s.events, c.injection) ==> Commit(s, rules, c, ts) == Err(DecisionState)
    ensures GateOnce(s.events, c.injection) && !ChoicesFit(s.events, c) ==>
      Commit(s, rules, c, ts) == Err(InvalidCommitChoices)
    ensures GateOnce(s.events, c.injection) && ChoicesFit(s.events, c) && !OutcomesAgree(s.events, c) ==>
      Commit(s, rules, c, ts) == Err(OutcomeConflict)
    ensures GateOnce(s.events, c.injection) && ChoicesFit(s.events, c) && OutcomesAgree(s.events, c) ==>
      if Supported(s, rules, c) then Commit(s, rules, c, ts).Ok? else Commit(s, rules, c, ts) == Err(DecisionState)
  {
    OnceIsGateOnce(s.events, c.injection);
    ChoicesAreFit(s.events, c);
    if GateOnce(s.events, c.injection) && ChoicesFit(s.events, c) {
      PeaceIsAgreement(s.events, c);
      BackedIsSupported(s, rules, c);
    }
    hide GateOnce, ChoicesFit, OutcomesAgree, Supported, OncePerMemory, ValidChoices, NoConflicts, Backed, RowsOf,
      SettleAll, HeadsAfter;
  }

  lemma OnceIsGateOnce(events: seq<Event>, injection: nat)
    ensures OncePerMemory(RowsOf(events), injection) <==> GateOnce(events, injection)
  {
    var rows := RowsOf(events);
    hide RowsOf;
    if OncePerMemory(rows, injection) {
      forall i, j | 0 <= i < j < |events|
        && events[i].injection == events[j].injection == injection
        && events[i].shown != BudgetCut && events[j].shown != BudgetCut
        ensures events[i].memory != events[j].memory
      {
        assert rows[i] in rows && rows[j] in rows && rows[i] != rows[j];
      }
    }
  }

  lemma RowShown(events: seq<Event>, injection: nat, memory: int, reason: Reason)
    ensures MayRemove(RowsOf(events), injection, Removal(memory, reason)) <==>
      ShownAs(events, injection, memory,
              if reason == Never then {Injected, Pinned, NearMiss} else {Injected, Pinned})
    ensures MayAddBack(RowsOf(events), injection, memory) <==> ShownAs(events, injection, memory, {NearMiss})
  {
    var rows, item := RowsOf(events), Removal(memory, reason);
    var ways := if reason == Never then {Injected, Pinned, NearMiss} else {Injected, Pinned};
    assert forall i :: 0 <= i < |events| ==> rows[i] == Row(i, events[i]) && rows[i] in rows;
    hide RowsOf;
    if ShownAs(events, injection, memory, ways) {
      var i :| 0 <= i < |events|
        && events[i].injection == injection && events[i].memory == memory && events[i].shown in ways;
      assert rows[i].event == events[i];
    }
    if ShownAs(events, injection, memory, {NearMiss}) {
      var i :| 0 <= i < |events|
        && events[i].injection == injection && events[i].memory == memory && events[i].shown in {NearMiss};
      assert rows[i].event == events[i];
    }
    if MayRemove(rows, injection, item) {
      var r :| r in rows && AtGate(r.event, injection) && r.event.memory == item.memory
        && (r.event.shown == NearMiss ==> item.reason == Never);
      assert r.event.shown.Injected? || r.event.shown.Pinned? || r.event.shown.NearMiss?;
    }
  }

  lemma ChoicesAreFit(events: seq<Event>, c: CommitCommand)
    ensures ValidChoices(RowsOf(events), c) <==> ChoicesFit(events, c)
  {
    forall i | 0 <= i < |c.removed|
      ensures MayRemove(RowsOf(events), c.injection, c.removed[i]) <==>
        ShownAs(events, c.injection, c.removed[i].memory,
                if c.removed[i].reason == Never then {Injected, Pinned, NearMiss} else {Injected, Pinned})
    {
      RowShown(events, c.injection, c.removed[i].memory, c.removed[i].reason);
      assert Removal(c.removed[i].memory, c.removed[i].reason) == c.removed[i];
    }
    forall m
      ensures MayAddBack(RowsOf(events), c.injection, m) <==> ShownAs(events, c.injection, m, {NearMiss})
    {
      RowShown(events, c.injection, m, Never);
    }
    hide RowsOf, MayRemove, MayAddBack, ShownAs;
  }

  /** What is desired of an event, read off the lists. */
  lemma DesiredIs(e: Event, c: CommitCommand)
    requires forall i, j :: 0 <= i < j < |c.removed| ==> c.removed[i].memory != c.removed[j].memory
    requires e.shown != BudgetCut
    ensures forall item :: item in c.removed && item.memory == e.memory ==>
      ReasonFor(c.removed, e.memory) == Some(item.reason)
    ensures ReasonFor(c.removed, e.memory).Some?
      ==> Removal(e.memory, ReasonFor(c.removed, e.memory).value) in c.removed
    ensures e.shown == NearMiss ==>
      Desired(e, c) == if Removal(e.memory, Never) in c.removed then Some(Removed(Never))
                       else if e.memory in c.addedBack then Some(AddedBack) else None
    ensures e.shown != NearMiss ==>
      Desired(e, c) == if ReasonFor(c.removed, e.memory).Some? then Some(Removed(ReasonFor(c.removed, e.memory).value))
                       else Some(Kept)
  {
    ReasonNotListed(c.removed, e.memory);
    forall item | item in c.removed && item.memory == e.memory
      ensures ReasonFor(c.removed, e.memory) == Some(item.reason)
    {
      ReasonListed(c.removed, e.memory, item);
    }
    hide ReasonFor;
    if ReasonFor(c.removed, e.memory).Some? {
      var item :| item in c.removed && item.memory == e.memory;
      assert item == Removal(e.memory, item.reason);
    }
  }

  lemma PeaceIsAgreement(events: seq<Event>, c: CommitCommand)
    requires ChoicesFit(events, c)
    ensures NoConflicts(RowsOf(events), c) <==> OutcomesAgree(events, c)
  {
    var rows := RowsOf(events);
    forall i | 0 <= i < |events| && events[i].injection == c.injection && events[i].shown != BudgetCut
      ensures rows[i] in rows && rows[i].event == events[i]
      ensures Conflicts(events[i], c) <==>
        events[i].outcome.Some? && !Agrees(events[i], events[i].outcome.value, c)
    {
      if events[i].outcome.Some? {
        OneAgrees(events[i], events[i].outcome.value, c);
      }
    }
    hide RowsOf, Conflicts, Agrees;
    assert forall r :: r in rows ==> 0 <= r.id < |events| && rows[r.id] == r && r.event == events[r.id];
  }

  lemma OneAgrees(e: Event, out: Outcome, c: CommitCommand)
    requires e.outcome == Some(out) && e.shown != BudgetCut
    requires forall i, j :: 0 <= i < j < |c.removed| ==> c.removed[i].memory != c.removed[j].memory
    ensures Conflicts(e, c) <==> !Agrees(e, out, c)
  {
    DesiredIs(e, c);
    hide Desired, ReasonFor;
  }

  /** The one event of a chosen memory at the gate is shown in a way that allows the choice. */
  lemma ChosenAsShown(events: seq<Event>, c: CommitCommand, i: nat, ways: set<Shown>)
    requires GateOnce(events, c.injection) && i < |events|
    requires events[i].injection == c.injection && events[i].shown != BudgetCut && BudgetCut !in ways
    requires ShownAs(events, c.injection, events[i].memory, ways)
    ensures events[i].shown in ways
  {
    var j :| 0 <= j < |events|
      && events[j].injection == c.injection && events[j].memory == events[i].memory && events[j].shown in ways;
    assert j == i;
  }

  lemma OneSupported(events: seq<Event>, i: nat, c: CommitCommand)
    requires GateOnce(events, c.injection) && ChoicesFit(events, c) && i < |events|
    requires events[i].injection == c.injection && events[i].shown != BudgetCut
    ensures var e := events[i]; var decided := NewOutcome(e, c);
      && (decided.Some? && ChangesHead(decided.value) <==>
           e.outcome.None? && (e.memory in c.addedBack || exists item :: item in c.removed && item.memory == e.memory))
      && (decided == Some(Removed(Never)) <==> e.outcome.None? && Removal(e.memory, Never) in c.removed)
      && (Desired(e, c) == Some(Removed(Wrong)) <==> Removal(e.memory, Wrong) in c.removed)
  {
    var e := events[i];
    DesiredIs(e, c);
    ReasonNotListed(c.removed, e.memory);
    if e.memory in c.addedBack {
      ChosenAsShown(events, c, i, {NearMiss});
    }
    if exists item :: item in c.removed && item.memory == e.memory {
      var item :| item in c.removed && item.memory == e.memory;
      ChosenAsShown(events, c, i, if item.reason == Never then {Injected, Pinned, NearMiss} else {Injected, Pinned});
      assert item == Removal(e.memory, item.reason);
    }
    hide Desired, ReasonFor, GateOnce, ChoicesFit, ShownAs;
  }

  lemma BackedIsSupported(s: Store, rules: Rules, c: CommitCommand)
    requires GateOnce(s.events, c.injection) && ChoicesFit(s.events, c)
    ensures Backed(s, rules, c) <==> Supported(s, rules, c)
  {
    forall i | 0 <= i < |s.events| && s.events[i].injection == c.injection && s.events[i].shown != BudgetCut
      ensures var e := s.events[i]; var decided := NewOutcome(e, c);
        && (decided.Some? && ChangesHead(decided.value) <==>
             e.outcome.None?
             && (e.memory in c.addedBack || exists item :: item in c.removed && item.memory == e.memory))
        && (decided == Some(Removed(Never)) <==> e.outcome.None? && Removal(e.memory, Never) in c.removed)
        && (Desired(e, c) == Some(Removed(Wrong)) <==> Removal(e.memory, Wrong) in c.removed)
    {
      OneSupported(s.events, i, c);
    }
    hide Desired, GateOnce, ChoicesFit, ChangesHead;
  }

  // Feedback.

  predicate Concerns(e: Event, f: FeedbackCommand) {
    e.injection == f.injection && e.memory == f.memory
  }

  lemma {:induction false} NoneConcerned(events: seq<Event>, f: FeedbackCommand)
    ensures Concerned(events, f) == [] <==> forall i :: 0 <= i < |events| ==> !Concerns(events[i], f)
  {
    if |events| > 0 {
      var n := |events| - 1;
      NoneConcerned(events[..n], f);
      assert forall i :: 0 <= i < n ==> events[..n][i] == events[i];
    }
  }

  lemma {:induction false} OneConcerned(events: seq<Event>, f: FeedbackCommand, i: nat)
    requires i < |events| && Concerns(events[i], f)
    requires forall j :: 0 <= j < |events| && j != i ==> !Concerns(events[j], f)
    ensures Concerned(events, f) == [i]
  {
    var n := |events| - 1;
    assert forall j :: 0 <= j < n ==> events[..n][j] == events[j];
    if i < n {
      OneConcerned(events[..n], f, i);
    } else {
      NoneConcerned(events[..n], f);
    }
  }

  lemma {:induction false} TwoConcerned(events: seq<Event>, f: FeedbackCommand, i: nat, j: nat)
    requires i < j < |events| && Concerns(events[i], f) && Concerns(events[j], f)
    ensures |Concerned(events, f)| > 1
  {
    var n := |events| - 1;
    if j < n {
      TwoConcerned(events[..n], f, i, j);
    } else {
      assert events[..n][i] == events[i];
      NoneConcerned(events[..n], f);
    }
  }

  /** Feedback needs one event of the memory in the injection, no more and no less. */
  lemma FeedbackNeedsOneEvent(s: Store, f: FeedbackCommand)
    ensures Feedback(s, f) == Err(InjectionNotFound) <==>
      forall i :: 0 <= i < |s.events| ==> s.events[i].injection != f.injection || s.events[i].memory != f.memory
    ensures forall i, j ::
      0 <= i < j < |s.events| && Concerns(s.events[i], f) && Concerns(s.events[j], f)
      ==> Feedback(s, f) == Err(DecisionState)
  {
    NoneConcerned(s.events, f);
    forall i, j | 0 <= i < j < |s.events| && Concerns(s.events[i], f) && Concerns(s.events[j], f)
      ensures |Concerned(s.events, f)| > 1
    {
      TwoConcerned(s.events, f, i, j);
    }
    hide Concerned, Allowed, Heard;
  }

  /**
   * Feedback on the one event: the same signal again changes nothing. A removal needs an outcome that shows the
   * memory, a citation one other than an addition, an addition a removal before it or a near miss. A removal counts
   * a removal and a citation a citation, an addition nothing.
   */
  lemma FeedbackWrites(s: Store, f: FeedbackCommand, i: nat)
    requires i < |s.events| && s.events[i].injection == f.injection && s.events[i].memory == f.memory
    requires forall j :: 0 <= j < |s.events| && j != i ==>
      s.events[j].injection != f.injection || s.events[j].memory != f.memory
    ensures var e, r := s.events[i], Feedback(s, f);
      var signalled := match f.signal
        case SignalRemoved => MidThreadRemoved
        case SignalAdded => MidThreadAdded
        case SignalCited => Cited;
      var allowed := match f.signal
        case SignalRemoved =>
          e.outcome == Some(Kept) || e.outcome == Some(AddedBack) || e.outcome == Some(AutoEntered)
          || e.outcome == Some(MidThreadAdded)
        case SignalAdded => e.outcome == Some(MidThreadRemoved) || (e.outcome == None && e.shown == NearMiss)
        case SignalCited =>
          e.outcome == Some(Kept) || e.outcome == Some(AddedBack) || e.outcome == Some(AutoEntered);
      if e.outcome == Some(signalled) then r == Ok(s)
      else if !allowed then r == Err(OutcomeConflict)
      else if f.memory !in s.heads && f.signal != SignalAdded then r == Err(DecisionState)
      else
        && r.Ok? && r.value.minted == s.minted
        && r.value.events == s.events[i := Event(e.injection, e.memory, e.shown, Some(signalled), e.scorer, e.rank)]
        && r.value.heads.Keys == s.heads.Keys
        && (forall m :: m in s.heads && m != f.memory ==> r.value.heads[m] == s.heads[m])
        && (f.memory in s.heads ==>
             var h, n := s.heads[f.memory], s.heads[f.memory].stats;
             r.value.heads[f.memory] == match f.signal
               case SignalRemoved => Unit(h.revision + 1, h.status, h.bias,
                 Stats(n.injections, n.removals + 1, n.citations, n.neverKills, n.lastInjectedAt))
               case SignalCited => Unit(h.revision + 1, h.status, h.bias,
                 Stats(n.injections, n.removals, n.citations + 1, n.neverKills, n.lastInjectedAt))
               case SignalAdded => h)
  {
    OneConcerned(s.events, f, i);
    hide Concerned;
  }

  // Prepare.

  /** A prepare appends its batch, and what it shows as injected or pinned counts an injection now. */
  lemma PrepareWrites(s: Store, batch: seq<Event>, ts: int)
    requires forall i :: 0 <= i < |batch| ==> batch[i].injection == s.minted
    requires forall i :: 0 <= i < |batch| ==>
      var out := batch[i].outcome;
      out == None || out == Some(Kept) || out == Some(AutoEntered) || out == Some(AutoExited) || out == Some(Cut)
    ensures var t := Prepare(s, batch, ts);
      && t.minted == s.minted + 1 && t.events == s.events + batch && t.heads.Keys == s.heads.Keys
      && forall m :: m in s.heads ==>
           var h, n := s.heads[m], s.heads[m].stats;
           t.heads[m] ==
             if exists i :: 0 <= i < |batch| && batch[i].memory == m && batch[i].shown in {Injected, Pinned} then
               Unit(h.revision + 1, h.status, h.bias,
                    Stats(n.injections + 1, n.removals, n.citations, n.neverKills, Some(ts)))
             else h
  {
    var t := Prepare(s, batch, ts);
    forall m | m in s.heads
      ensures ShowsInjected(batch, m) <==>
        exists i :: 0 <= i < |batch| && batch[i].memory == m && batch[i].shown in {Injected, Pinned}
    {
    }
    hide ShowsInjected;
  }

  // Commit: the response.

  lemma {:induction false} FinalRowsHave(rows: seq<Row>, c: CommitCommand, r: Row)
    ensures r in DecisionService.FinalRows(rows, c) <==>
      exists q :: q in rows && q.event.injection == c.injection && q.event.shown != BudgetCut
        && r == Row(q.id, Settle(q.event, c))
        && (r.event.outcome == Some(Kept) || r.event.outcome == Some(AddedBack) || r.event.outcome == Some(Cited))
  {
    hide Settle;
    if |rows| > 0 {
      FinalRowsHave(rows[..|rows| - 1], c, r);
      assert rows == rows[..|rows| - 1] + [rows[|rows| - 1]];
    }
  }

  lemma {:induction false} FinalRowsOrdered(rows: seq<Row>, c: CommitCommand, i: nat, j: nat)
    requires SortedBy(DecisionService.RowBefore, rows) && i < j < |DecisionService.FinalRows(rows, c)|
    ensures var a, b := DecisionService.FinalRows(rows, c)[i].event, DecisionService.FinalRows(rows, c)[j].event;
      a.rank < b.rank || (a.rank == b.rank && a.memory <= b.memory)
  {
    hide Desired;
    var n := |rows| - 1;
    var before := DecisionService.FinalRows(rows[..n], c);
    if j < |before| {
      FinalRowsOrdered(rows[..n], c, i, j);
    } else {
      FinalRowsHave(rows[..n], c, before[i]);
      var q :| q in rows[..n] && before[i] == Row(q.id, Settle(q.event, c));
      var k :| 0 <= k < n && rows[..n][k] == q;
      assert !DecisionService.RowBefore(rows[n], rows[k]);
    }
  }

  /**
   * The final block of a commit shows exactly the gate events that are kept, added back or cited after it, by rank
   * and then by memory.
   */
  lemma FinalReads(s: Store, rules: Rules, c: CommitCommand, ts: int, r: Row, i: nat, j: nat)
    requires Commit(s, rules, c, ts).Ok? && Prepared(s.events, c.injection)
    ensures var t, final := Commit(s, rules, c, ts).value,
                            DecisionService.FinalRows(DecisionService.Batch(s.events, c.injection), c);
      && (r in final <==>
           && r.id < |t.events| && r.event == t.events[r.id]
           && r.event.injection == c.injection && r.event.shown != BudgetCut
           && (r.event.outcome == Some(Kept) || r.event.outcome == Some(AddedBack) || r.event.outcome == Some(Cited)))
      && (i < j < |final| ==>
           final[i].event.rank < final[j].event.rank
           || (final[i].event.rank == final[j].event.rank && final[i].event.memory <= final[j].event.memory))
  {
    hide PlanError, Backed, HeadAfter, Desired;
    var t := Commit(s, rules, c, ts).value;
    var batch := DecisionService.Batch(s.events, c.injection);
    DecisionService.BatchMembers(s.events, c.injection);
    SortSorts(DecisionService.RowBefore, DecisionService.RowsAt(s.events, c.injection));
    FinalRowsHave(batch, c, r);
    if i < j < |DecisionService.FinalRows(batch, c)| {
      FinalRowsOrdered(batch, c, i, j);
    }
    hide DecisionService.Batch, DecisionService.FinalRows;
    if r.id < |t.events| && r.event == t.events[r.id] && r.event.injection == c.injection {
      assert r.event == Settle(s.events[r.id], c);
      assert Row(r.id, s.events[r.id]) in batch;
    }
  }

  lemma {:induction false} WrongsHave(planned: seq<DecisionService.Planned>, p: DecisionService.Planned)
    ensures p in DecisionService.Wrongs(planned) <==> p in planned && p.desired == Some(Removed(Wrong))
  {
    if |planned| > 0 {
      WrongsHave(planned[..|planned| - 1], p);
      assert planned == planned[..|planned| - 1] + [planned[|planned| - 1]];
    }
  }

  /** The memories handed back as wrong are exactly those listed so, by rank and then by memory. */
  lemma WrongReads(s: Store, rules: Rules, c: CommitCommand, ts: int, id: nat, i: nat, j: nat)
    requires Commit(s, rules, c, ts).Ok? && Prepared(s.events, c.injection)
    ensures var wrong := DecisionService.WrongRanked(DecisionService.PlanOf(s.events, c));
      && (id < |s.events| ==>
           ((exists p :: p in wrong && p.row == Row(id, s.events[id])) <==>
              s.events[id].injection == c.injection && s.events[id].shown != BudgetCut
              && Removal(s.events[id].memory, Wrong) in c.removed))
      && (i < j < |wrong| ==>
           var a, b := wrong[i].row.event, wrong[j].row.event;
           a.rank < b.rank || (a.rank == b.rank && a.memory <= b.memory))
  {
    var plan := DecisionService.PlanOf(s.events, c);
    var wrong := DecisionService.WrongRanked(plan);
    DecisionService.PlanIsTheGate(s.events, c);
    SortSorts(DecisionService.ByRank, DecisionService.Wrongs(plan));
    forall p
      ensures p in wrong <==> p in plan && p.desired == Some(Removed(Wrong))
    {
      WrongsHave(plan, p);
      SortSameMembers(DecisionService.ByRank, DecisionService.Wrongs(plan), p);
    }
    if i < j < |wrong| {
      assert !DecisionService.ByRank(wrong[j], wrong[i]);
    }
    hide DecisionService.PlanOf, DecisionService.WrongRanked;
    if id < |s.events| && s.events[id].injection == c.injection && s.events[id].shown != BudgetCut {
      OnceIsGateOnce(s.events, c.injection);
      ChoicesAreFit(s.events, c);
      hide OncePerMemory, ValidChoices, NoConflicts, Backed, HeadAfter, RowsOf;
      OneSupported(s.events, id, c);
      hide GateOnce, ChoicesFit, Desired;
    }
  }
}
