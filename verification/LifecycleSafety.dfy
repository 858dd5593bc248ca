/** What every run of the queue, of splits and of Symphony resolutions keeps. */
module LifecycleSafety {
  import opened Outcomes
  import opened MemoryTable
  import opened Lifecycle
  import opened LifecycleSteps
  import Labels

  /** Every run of commands, refused ones included, is safe and only moves forward. */
  lemma {:induction false} RunsAreSafe(db: Db, commands: seq<Command>)
    requires Safe(db)
    ensures Safe(RunOf(db, commands)) && Evolves(db, RunOf(db, commands))
  {
    hide Safe, Evolves, Step;
    EvolvesRefl(db);
    if |commands| > 0 {
      var before := RunOf(db, commands[..|commands| - 1]);
      RunsAreSafe(db, commands[..|commands| - 1]);
      StepSafe(before, commands[|commands| - 1]);
      EvolvesRefl(before);
      EvolvesTransitive(db, before, RunOf(db, commands));
    }
  }

  /** Over every run a tombstone stays one, a quarantine is only ever closed, and no memory waits a second time. */
  lemma StatusesMoveForward(db: Db, commands: seq<Command>, m: int)
    requires Safe(db) && m in db.t.heads
    ensures var heads := RunOf(db, commands).t.heads;
      && m in heads
      && (db.t.heads[m].status == Tombstoned ==> heads[m].status == Tombstoned)
      && (db.t.heads[m].status == Quarantined ==> heads[m].status == Quarantined || heads[m].status == Tombstoned)
      && (db.t.heads[m].status == Active ==> heads[m].status != Staged && heads[m].status != Candidate)
      && (db.t.heads[m].status == Candidate ==> heads[m].status != Staged)
  {
    RunsAreSafe(db, commands);
    hide Safe, RunOf;
    assert HeadMoves(db.t.heads[m], RunOf(db, commands).t.heads[m]);
  }

  lemma EmptyIsSafe()
    ensures Safe(EMPTY)
  {
  }

  /** The lineage error cannot be raised by any command after any run. */
  lemma LineageErrorUnreachable(commands: seq<Command>, c: Command)
    ensures NoLineageError(Step(RunOf(EMPTY, commands), c))
  {
    EmptyIsSafe();
    RunsAreSafe(EMPTY, commands);
    hide Safe, Step, RunOf;
    StepSafe(RunOf(EMPTY, commands), c);
  }

  /** A path of replacement edges through the given memories. */
  ghost predicate ReplacementPath(db: Db, path: seq<int>) {
    |path| >= 2 && forall i :: 0 <= i < |path| - 1 ==> ReplacedBy(db, path[i], path[i + 1])
  }

  /** a replaced b. */
  ghost predicate ReplacedBy(db: Db, a: int, b: int) {
    exists k :: EdgeAt(db, k, a, b)
  }

  ghost predicate EdgeAt(db: Db, k: int, a: int, b: int) {
    0 <= k < |db.edges| && Replacing(db.edges[k]) && db.edges[k].source == a && db.edges[k].target == b
  }

  /** Along a path the edges get strictly older. */
  lemma {:induction false} PathsGoBack(db: Db, path: seq<int>) returns (first: int, last: int)
    requires Forest(db, None) && ReplacementPath(db, path)
    ensures EdgeAt(db, first, path[0], path[1]) && EdgeAt(db, last, path[|path| - 2], path[|path| - 1])
    ensures last <= first
    decreases |path|
  {
    first :| EdgeAt(db, first, path[0], path[1]);
    if |path| == 2 {
      last := first;
    } else {
      forall i | 0 <= i < |path[1..]| - 1
        ensures ReplacedBy(db, path[1..][i], path[1..][i + 1])
      {
        assert ReplacedBy(db, path[i + 1], path[i + 1 + 1]);
      }
      var second;
      second, last := PathsGoBack(db, path[1..]);
    }
  }

  /** In every state that a run reaches, replacement has no cycle and each replaced memory one replacer, tombstoned. */
  lemma ReplacementIsAForest(commands: seq<Command>, path: seq<int>, a: int, b: int, m: int)
    ensures var db := RunOf(EMPTY, commands);
      && (ReplacementPath(db, path) ==> path[0] != path[|path| - 1])
      && (ReplacedBy(db, a, m) ==> m in db.t.heads && db.t.heads[m].status == Tombstoned)
      && (ReplacedBy(db, a, m) && ReplacedBy(db, b, m) ==> a == b)
  {
    var db := RunOf(EMPTY, commands);
    EmptyIsSafe();
    RunsAreSafe(EMPTY, commands);
    hide RunOf, Evolves, Lineage, LabelsUnique, DecisionsMatch, Explained;
    if ReplacementPath(db, path) {
      var first, last := PathsGoBack(db, path);
    }
    if ReplacedBy(db, a, m) {
      var j :| EdgeAt(db, j, a, m);
      assert Tombstone(db, db.edges[j].target);
      if ReplacedBy(db, b, m) {
        var k :| EdgeAt(db, k, b, m);
        assert j == k;
      }
    }
  }

  // Approval labels and replayed decisions.

  lemma {:induction false} EnactNeverTakesLabels(db: Db, c: int, principal: string, verdict: Verdict, kind: EdgeKind,
                                                 targets: seq<int>)
    ensures EnactAll(db, c, principal, verdict, kind, targets) != Err(WriteRefused(ActiveLabelTaken))
  {
    hide MatchingRows;
    if |targets| > 0 {
      EnactNeverTakesLabels(db, c, principal, verdict, kind, targets[..|targets| - 1]);
    }
  }

  /** The label found for an approval is free when the head is activated, so the unique index never refuses it. */
  lemma ApprovalNeverCollides(db: Db, uid: nat, item: Item, req: Request)
    requires uid < |db.items| && item.candidate in db.t.heads
    ensures DecideCandidate(db, uid, item, req) != Err(WriteRefused(ActiveLabelTaken))
  {
    hide MatchingRows, Labels.FirstFree, Labels.AttemptLabel, EnactAll;
    var principal := db.t.heads[item.candidate].principal;
    if KindOf(item.verdict).Some? {
      EnactNeverTakesLabels(db, item.candidate, principal, item.verdict, KindOf(item.verdict).value, item.targets);
    }
    var enacted := EnactTargets(db, item);
    if enacted.Ok? {
      var heads := enacted.value.t.heads;
      var titles := ActiveTitles(heads, principal);
      var h := db.t.heads[item.candidate];
      var title := Labels.Approved(titles, h.title, h.qualifier, LABEL_MAX);
      assert title !in titles;
      forall m | m in heads && heads[m].status == Active && heads[m].principal == principal
        ensures heads[m].title != title
      {
      }
      SamePrincipal(db, item);
    }
  }

  lemma SamePrincipal(db: Db, item: Item)
    requires item.candidate in db.t.heads
    ensures var r := EnactTargets(db, item);
      r.Ok? ==>
        && item.candidate in r.value.t.heads
        && r.value.t.heads[item.candidate].principal == db.t.heads[item.candidate].principal
  {
    if KindOf(item.verdict).Some? {
      EnactKeepsPrincipals(db, item.candidate, db.t.heads[item.candidate].principal, item.verdict,
        KindOf(item.verdict).value, item.targets, item.candidate);
    }
  }

  lemma {:induction false} EnactKeepsPrincipals(db: Db, c: int, principal: string, verdict: Verdict, kind: EdgeKind,
                                                targets: seq<int>, m: int)
    requires m in db.t.heads
    ensures var r := EnactAll(db, c, principal, verdict, kind, targets);
      r.Ok? ==> m in r.value.t.heads && r.value.t.heads[m].principal == db.t.heads[m].principal
  {
    hide MatchingRows, LabelTaken;
    if |targets| > 0 {
      EnactKeepsPrincipals(db, c, principal, verdict, kind, targets[..|targets| - 1], m);
    }
  }

  /** After this request, a decided card's candidate still reads as the request amended it, if it amended it. */
  predicate StillReads(db: Db, uid: nat, req: Request)
    requires uid < |db.items|
  {
    req.amendedBody.Some? ==>
      (db.items[uid].candidate in db.t.heads && db.t.heads[db.items[uid].candidate].body == req.amendedBody.value)
  }

  /**
   * A decision is taken once: sent again after any later run it changes nothing, and is accepted exactly if the
   * replacement it amended still has that text, as it has at first; any different decision is refused.
   */
  lemma DecisionsReplay(db: Db, uid: nat, req: Request, commands: seq<Command>, other: Request)
    requires Safe(db) && Decide(db, uid, req).Ok? && other.decision != req.decision
    ensures var next := Decide(db, uid, req).value;
      uid < |next.items| && StillReads(next, uid, req)
    ensures var later := RunOf(Decide(db, uid, req).value, commands);
      && uid < |later.items| && uid in later.decisions && later.decisions[uid] == req.decision
      && Decide(later, uid, req) == (if StillReads(later, uid, req) then Ok(later) else Err(Conflict))
      && Decide(later, uid, other).Err?
  {
    hide Safe, MatchingRows, LabelTaken, EnactTargets, Labels.Approved, AddFamily, RunOf;
    var next := Decide(db, uid, req).value;
    var later := RunOf(next, commands);
    DecideSafe(db, uid, req);
    assert uid in next.decisions && next.decisions[uid] == req.decision;
    assert CardMoves(db.items[uid], next.items[uid]);
    RunsAreSafe(next, commands);
    assert CardMoves(next.items[uid], later.items[uid]);
  }

  /** A run is resolved once: after any later run the same resolution changes nothing and a different one is refused. */
  lemma ResolutionsReplay(db: Db, run: string, res: Resolution, commands: seq<Command>, again: Resolution)
    requires Safe(db) && Resolve(db, run, res).Ok?
    ensures var later := RunOf(Resolve(db, run, res).value, commands);
      Resolve(later, run, res) == Ok(later) && (again != res ==> Resolve(later, run, again) == Err(Conflict))
  {
    ResolutionIsNoted(db, run, res);
    ResolveSafe(db, run, res);
    var next := Resolve(db, run, res).value;
    hide Safe, RunOf, Wins, StagedIn, ResolveRows;
    RunsAreSafe(next, commands);
  }
}
