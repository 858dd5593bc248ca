/**
 * The invariant of the queue, of splits and of Symphony resolutions, and that every single step keeps it:
 * revision lineages, unique active labels, the forest of replacements, decisions matching card states, and
 * replacement edges that are exactly what the approved cards ask for.
 */
module LifecycleSteps {
  import opened Outcomes
  import opened MemoryTable
  import opened Lifecycle
  import Labels

  predicate Replacing(e: Edge) {
    e.kind == MergedFrom || e.kind == Supersedes
  }

  /**
   * The replacement edges of a database in which `opening`, if any, is a candidate about to be
   * activated: targets are tombstoned and replaced once, sources were activated, and no edge
   * starts at the target of an earlier one.
   */
  ghost predicate Forest(db: Db, opening: Option<int>) {
    && (forall i :: 0 <= i < |db.edges| && Replacing(db.edges[i]) ==>
          Tombstone(db, db.edges[i].target) && Opened(db, db.edges[i].source, opening))
    && (forall i, j :: 0 <= i < j < |db.edges| && Replacing(db.edges[i]) && Replacing(db.edges[j]) ==>
          db.edges[i].target != db.edges[j].target)
    && (forall i, j :: 0 <= i <= j < |db.edges| && Replacing(db.edges[i]) && Replacing(db.edges[j]) ==>
          db.edges[j].source != db.edges[i].target)
  }

  ghost predicate Tombstone(db: Db, m: int) {
    m in db.t.heads && db.t.heads[m].status == Tombstoned
  }

  ghost predicate Opened(db: Db, m: int, opening: Option<int>) {
    m in db.t.heads && (Rank(db.t.heads[m].status) >= Rank(Active) || opening == Some(m))
  }

  /** A card is pending exactly when it has no decision row, and a decided one shows its decision. */
  ghost predicate DecisionsMatch(db: Db) {
    && (forall u :: u in db.decisions ==> u < |db.items|)
    && (forall u: nat :: u < |db.items| ==> StateFits(db, u))
  }

  ghost predicate StateFits(db: Db, u: nat)
    requires u < |db.items|
  {
    if u in db.decisions then db.items[u].state == (if db.decisions[u].vote == Approve then Approved else Rejected)
    else db.items[u].state == Pending
  }

  /** Replacement edges are exactly what the approved merge and supersede cards ask for. */
  ghost predicate Explained(db: Db) {
    && (forall i :: 0 <= i < |db.edges| && Replacing(db.edges[i]) ==> AskedFor(db.items, db.edges[i]))
    && (forall u :: 0 <= u < |db.items| && db.items[u].state == Approved && Lifecycle.Replaces(db.items[u].verdict) ==>
          AllEnacted(db.edges, db.items[u]))
  }

  ghost predicate AskedFor(items: seq<Item>, e: Edge) {
    exists u :: 0 <= u < |items| && items[u].state == Approved && items[u].candidate == e.source
                && KindOf(items[u].verdict) == Some(e.kind) && e.target in items[u].targets
  }

  ghost predicate AllEnacted(edges: seq<Edge>, item: Item)
    requires Lifecycle.Replaces(item.verdict)
  {
    forall k :: 0 <= k < |item.targets| ==> Edge(item.candidate, item.targets[k], KindOf(item.verdict).value) in edges
  }

  ghost predicate Safe(db: Db) {
    && Lineage(db.t)
    && LabelsUnique(db.t)
    && Forest(db, None)
    && DecisionsMatch(db)
    && Explained(db)
  }

  // How a database may change.

  ghost predicate HeadMoves(a: Head, b: Head) {
    && a.principal == b.principal && a.run == b.run
    && Rank(a.status) <= Rank(b.status) && a.revision <= b.revision
  }

  ghost predicate HeadsMove(a: map<int, Head>, b: map<int, Head>) {
    forall m :: m in a ==> m in b && HeadMoves(a[m], b[m])
  }

  ghost predicate CardMoves(a: Item, b: Item) {
    b.(state := a.state) == a && (a.state != Pending ==> b == a)
  }

  ghost predicate Evolves(a: Db, b: Db) {
    && HeadsMove(a.t.heads, b.t.heads)
    && a.t.revisions <= b.t.revisions
    && a.edges <= b.edges
    && |a.items| <= |b.items|
    && (forall u :: 0 <= u < |a.items| ==> CardMoves(a.items[u], b.items[u]))
    && (forall u :: u in a.decisions ==> u in b.decisions && b.decisions[u] == a.decisions[u])
    && (forall r :: r in a.resolutions ==> r in b.resolutions && b.resolutions[r] == a.resolutions[r])
  }

  lemma EvolvesTransitive(a: Db, b: Db, c: Db)
    requires Evolves(a, b) && Evolves(b, c)
    ensures Evolves(a, c)
  {
    forall m | m in a.t.heads
      ensures m in c.t.heads && HeadMoves(a.t.heads[m], c.t.heads[m])
    {
      assert HeadMoves(a.t.heads[m], b.t.heads[m]);
    }
    forall u | 0 <= u < |a.items|
      ensures CardMoves(a.items[u], c.items[u])
    {
      assert CardMoves(a.items[u], b.items[u]) && CardMoves(b.items[u], c.items[u]);
    }
  }

  /** The refusal that would mean a head without its one parent revision. */
  predicate NoLineageError(r: Result<Db, Refusal>) {
    r != Err(WriteRefused(LineageError))
  }

  // One write.

  /** The safety of everything but the cards, with a candidate possibly being opened. */
  ghost predicate Sound(db: Db, opening: Option<int>) {
    Lineage(db.t) && LabelsUnique(db.t) && Forest(db, opening)
  }

  lemma CasEffect(t: Tables, cmd: CasUpdate)
    requires Cas(t, cmd).Ok?
    ensures cmd.memory in t.heads && t.heads[cmd.memory].revision == cmd.expected
    ensures var s := Cas(t, cmd).value;
      && s.heads == t.heads[cmd.memory := Applied(t.heads[cmd.memory], cmd.changes)]
      && t.revisions <= s.revisions
  {
    hide MatchingRows, LabelTaken;
  }

  lemma WriteKeeps(db: Db, id: int, expected: nat, changes: Changes, reason: string, opening: Option<int>)
    requires Sound(db, opening) && id in db.t.heads
    requires changes.status.Some? ==> Rank(db.t.heads[id].status) <= Rank(changes.status.value)
    ensures var r := WriteAt(db, id, expected, changes, reason);
      r.Ok? ==>
        && Sound(r.value, opening)
        && Evolves(db, r.value)
        && db.t.heads[id].revision == expected
        && r.value.t.heads == db.t.heads[id := Applied(db.t.heads[id], changes)]
    ensures NoLineageError(WriteAt(db, id, expected, changes, reason))
  {
    var r := WriteAt(db, id, expected, changes, reason);
    var cmd := CasUpdate(id, expected, reason, changes);
    hide Cas, Lineage, LabelsUnique, Applied, Forest;
    CasKeepsLineage(db.t, cmd);
    if r.Ok? {
      CasEffect(db.t, cmd);
      WritesKeepLabels(db.t, Update(cmd));
      AppliedStatus(db.t.heads[id], changes);
      ForestUnderWrite(db, r.value, id, opening);
    }
  }

  lemma AppliedStatus(h: Head, c: Changes)
    ensures Applied(h, c).status == Or(c.status, h.status)
    ensures Applied(h, c).principal == h.principal && Applied(h, c).run == h.run
      && Applied(h, c).revision == h.revision + 1
  {
  }

  lemma ForestUnderWrite(db: Db, next: Db, id: int, opening: Option<int>)
    requires Forest(db, opening) && id in db.t.heads && id in next.t.heads
    requires next.edges == db.edges && next.t.heads == db.t.heads[id := next.t.heads[id]]
    requires Rank(db.t.heads[id].status) <= Rank(next.t.heads[id].status)
    ensures Forest(next, opening)
  {
    forall m
      ensures Tombstone(db, m) ==> Tombstone(next, m)
      ensures Opened(db, m, opening) ==> Opened(next, m, opening)
    {
    }
    hide Tombstone, Opened;
  }

  lemma AddKeeps(db: Db, id: int, h: Head, parent: Option<int>, reason: string)
    requires Sound(db, None)
    ensures var r := Add(db, id, h, parent, reason);
      r.Ok? ==> Sound(r.value, None) && Evolves(db, r.value)
    ensures NoLineageError(Add(db, id, h, parent, reason))
  {
    var r := Add(db, id, h, parent, reason);
    hide Lineage, LabelsUnique, LabelTaken, Forest;
    if r.Ok? {
      InsertKeepsLineage(db.t, id, h, parent, reason);
      WritesKeepLabels(db.t, Start(id, h, parent, reason));
      assert id !in db.t.heads && r.value.t.heads == db.t.heads[id := h.(revision := 1)];
      ForestUnderAdd(db, r.value, id);
    }
  }

  lemma ForestUnderAdd(db: Db, next: Db, id: int)
    requires Forest(db, None) && id !in db.t.heads && id in next.t.heads
    requires next.edges == db.edges && next.t.heads == db.t.heads[id := next.t.heads[id]]
    ensures Forest(next, None)
  {
    forall m
      ensures Tombstone(db, m) ==> Tombstone(next, m)
      ensures Opened(db, m, None) ==> Opened(next, m, None)
    {
    }
    hide Tombstone, Opened;
  }

  // Enacting targets.

  function EdgesTo(candidate: int, kind: EdgeKind, targets: seq<int>): (r: seq<Edge>)
    ensures |r| == |targets|
  {
    seq(|targets|, i requires 0 <= i < |targets| => Edge(candidate, targets[i], kind))
  }

  /** Appending one replacement edge whose target has just been tombstoned for the first time. */
  lemma ForestGrows(db: Db, e: Edge)
    requires Forest(db, Some(e.source)) && Replacing(e)
    requires Tombstone(db, e.target) && e.source in db.t.heads && db.t.heads[e.source].status == Candidate
    requires forall i :: 0 <= i < |db.edges| && Replacing(db.edges[i]) ==> db.edges[i].target != e.target
    ensures Forest(db.(edges := db.edges + [e]), Some(e.source))
  {
    var next := db.(edges := db.edges + [e]);
    forall i | 0 <= i < |db.edges| && Replacing(db.edges[i])
      ensures db.edges[i].target != e.source
    {
      assert Tombstone(db, db.edges[i].target);
    }
    forall m
      ensures Tombstone(next, m) <==> Tombstone(db, m)
      ensures Opened(next, m, Some(e.source)) <==> Opened(db, m, Some(e.source))
    {
    }
    assert Opened(db, e.source, Some(e.source));
    hide Tombstone, Opened;
    forall i | 0 <= i < |next.edges| && Replacing(next.edges[i])
      ensures Tombstone(next, next.edges[i].target) && Opened(next, next.edges[i].source, Some(e.source))
    {
      if i < |db.edges| {
        assert next.edges[i] == db.edges[i];
      }
    }
  }

  lemma EnactReplacement(db: Db, c: int, principal: string, verdict: Verdict, kind: EdgeKind, target: int)
    requires Sound(db, Some(c)) && c in db.t.heads && db.t.heads[c].status == Candidate
    requires Lifecycle.Replaces(verdict) && KindOf(verdict) == Some(kind)
    ensures var r := EnactTarget(db, c, principal, verdict, kind, target);
      r.Ok? ==>
        && Sound(r.value, Some(c)) && Evolves(db, r.value) && SameShape(db, r.value)
        && r.value.edges == db.edges + [Edge(c, target, kind)]
        && c in r.value.t.heads && r.value.t.heads[c] == db.t.heads[c]
    ensures NoLineageError(EnactTarget(db, c, principal, verdict, kind, target))
  {
    var r := EnactTarget(db, c, principal, verdict, kind, target);
    if target in db.t.heads {
      assert Rank(db.t.heads[target].status) <= Rank(Tombstoned);
      WriteKeeps(db, target, db.t.heads[target].revision, StatusChange(Tombstoned), "replaced", Some(c));
    }
    if r.Ok? {
      var expected := db.t.heads[target].revision;
      var w := WriteAt(db, target, expected, StatusChange(Tombstoned), "replaced").value;
      AppliedStatus(db.t.heads[target], StatusChange(Tombstoned));
      assert Tombstone(w, target);
      forall i | 0 <= i < |db.edges| && Replacing(db.edges[i])
        ensures db.edges[i].target != target
      {
        assert Tombstone(db, db.edges[i].target);
      }
      ForestGrows(w, Edge(c, target, kind));
      hide Forest, Lineage, LabelsUnique, Cas, Applied;
      var next := w.(edges := w.edges + [Edge(c, target, kind)]);
      assert r.value == next;
      EvolvesByEdges(w, next);
      EvolvesTransitive(db, w, next);
    }
  }

  lemma EvolvesByEdges(a: Db, b: Db)
    requires b == a.(edges := b.edges) && a.edges <= b.edges
    ensures Evolves(a, b)
  {
  }

  lemma {:induction false} EnactReplacements(db: Db, c: int, principal: string, verdict: Verdict, kind: EdgeKind,
                                             targets: seq<int>)
    requires Sound(db, Some(c)) && c in db.t.heads && db.t.heads[c].status == Candidate
    requires Lifecycle.Replaces(verdict) && KindOf(verdict) == Some(kind)
    ensures var r := EnactAll(db, c, principal, verdict, kind, targets);
      r.Ok? ==>
        && Sound(r.value, Some(c)) && Evolves(db, r.value)
        && r.value.edges == db.edges + EdgesTo(c, kind, targets)
        && c in r.value.t.heads && r.value.t.heads[c] == db.t.heads[c]
    ensures NoLineageError(EnactAll(db, c, principal, verdict, kind, targets))
  {
    hide Sound, Evolves, EnactTarget;
    if |targets| == 0 {
      EvolvesRefl(db);
    } else {
      var n := |targets| - 1;
      EnactReplacements(db, c, principal, verdict, kind, targets[..n]);
      var before := EnactAll(db, c, principal, verdict, kind, targets[..n]);
      if before.Ok? {
        EnactReplacement(before.value, c, principal, verdict, kind, targets[n]);
        var r := EnactTarget(before.value, c, principal, verdict, kind, targets[n]);
        if r.Ok? {
          EvolvesTransitive(db, before.value, r.value);
          assert EdgesTo(c, kind, targets) == EdgesTo(c, kind, targets[..n]) + [Edge(c, targets[n], kind)];
        }
      }
    }
  }

  lemma EvolvesRefl(db: Db)
    ensures Evolves(db, db)
  {
  }

  /** Contradictions only add contradiction edges. */
  lemma {:induction false} ContradictionsAdd(db: Db, c: int, principal: string, targets: seq<int>)
    ensures var r := EnactAll(db, c, principal, Contradict, Contradicts, targets);
      r.Ok? ==> r.value == db.(edges := db.edges + EdgesTo(c, Contradicts, targets))
    ensures NoLineageError(EnactAll(db, c, principal, Contradict, Contradicts, targets))
  {
    if |targets| > 0 {
      var n := |targets| - 1;
      ContradictionsAdd(db, c, principal, targets[..n]);
      assert EdgesTo(c, Contradicts, targets)
        == EdgesTo(c, Contradicts, targets[..n]) + [Edge(c, targets[n], Contradicts)];
    }
  }

  lemma EnactContradictions(db: Db, c: int, principal: string, targets: seq<int>)
    requires Sound(db, None)
    ensures var r := EnactAll(db, c, principal, Contradict, Contradicts, targets);
      r.Ok? ==>
        && Sound(r.value, None) && Evolves(db, r.value)
        && r.value == db.(edges := db.edges + EdgesTo(c, Contradicts, targets))
    ensures NoLineageError(EnactAll(db, c, principal, Contradict, Contradicts, targets))
  {
    hide EnactAll, Lineage, LabelsUnique;
    var next := db.(edges := db.edges + EdgesTo(c, Contradicts, targets));
    ContradictionsAdd(db, c, principal, targets);
    ForestIgnores(db, EdgesTo(c, Contradicts, targets));
    hide Forest;
    EvolvesByEdges(db, next);
    hide Evolves;
  }

  lemma ForestIgnores(db: Db, more: seq<Edge>)
    requires Forest(db, None) && forall i :: 0 <= i < |more| ==> !Replacing(more[i])
    ensures Forest(db.(edges := db.edges + more), None)
  {
    var next := db.(edges := db.edges + more);
    forall m
      ensures Tombstone(next, m) <==> Tombstone(db, m)
      ensures Opened(next, m, None) <==> Opened(db, m, None)
    {
    }
    hide Tombstone, Opened;
    forall i | |db.edges| <= i < |next.edges|
      ensures !Replacing(next.edges[i])
    {
      assert next.edges[i] == more[i - |db.edges|];
    }
    assert forall i :: 0 <= i < |db.edges| ==> next.edges[i] == db.edges[i];
  }

  // Recording a decision.

  ghost predicate CardsSafe(db: Db) {
    DecisionsMatch(db) && Explained(db)
  }

  /** The card part of safety after a decision whose effect appended the edges `more`. */
  lemma RecordKeeps(db: Db, done: Db, uid: nat, d: Decision, more: seq<Edge>)
    requires CardsSafe(db) && uid < |db.items| && uid !in db.decisions
    requires done.items == db.items && done.decisions == db.decisions && done.edges == db.edges + more
    requires if d.vote == Approve && Lifecycle.Replaces(db.items[uid].verdict)
             then more == EdgesTo(db.items[uid].candidate, KindOf(db.items[uid].verdict).value, db.items[uid].targets)
             else forall i :: 0 <= i < |more| ==> !Replacing(more[i])
    ensures CardsSafe(Recorded(done, uid, d))
  {
    var next := Recorded(done, uid, d);
    var item := db.items[uid];
    assert StateFits(db, uid);
    forall u: nat | u < |next.items|
      ensures StateFits(next, u)
    {
      assert StateFits(db, u);
    }
    assert next.items[uid] == item.(state := next.items[uid].state);
    forall e | AskedFor(db.items, e)
      ensures AskedFor(next.items, e)
    {
      var u :| 0 <= u < |db.items| && db.items[u].state == Approved && db.items[u].candidate == e.source
               && KindOf(db.items[u].verdict) == Some(e.kind) && e.target in db.items[u].targets;
      assert next.items[u] == db.items[u];
    }
    forall i | 0 <= i < |next.edges| && Replacing(next.edges[i])
      ensures AskedFor(next.items, next.edges[i])
    {
      if i < |db.edges| {
        assert next.edges[i] == db.edges[i];
      } else {
        assert next.edges[i] == more[i - |db.edges|];
        AskedByCard(next.items, uid, next.edges[i], i - |db.edges|);
      }
    }
    forall u | 0 <= u < |next.items| && next.items[u].state == Approved && Lifecycle.Replaces(next.items[u].verdict)
      ensures AllEnacted(next.edges, next.items[u])
    {
      EnactedLater(db, next, more, uid, u);
    }
  }

  lemma AskedByCard(items: seq<Item>, uid: nat, e: Edge, k: nat)
    requires uid < |items| && items[uid].state == Approved && Lifecycle.Replaces(items[uid].verdict)
    requires k < |items[uid].targets|
    requires e == Edge(items[uid].candidate, items[uid].targets[k], KindOf(items[uid].verdict).value)
    ensures AskedFor(items, e)
  {
  }

  lemma EnactedLater(db: Db, next: Db, more: seq<Edge>, uid: nat, u: nat)
    requires u < |db.items| == |next.items| && next.edges == db.edges + more
    requires Explained(db) && next.items[u].state == Approved && Lifecycle.Replaces(next.items[u].verdict)
    requires u != uid ==> next.items[u] == db.items[u]
    requires u == uid
      ==> more == EdgesTo(next.items[u].candidate, KindOf(next.items[u].verdict).value, next.items[u].targets)
    ensures AllEnacted(next.edges, next.items[u])
  {
    var item := next.items[u];
    forall k | 0 <= k < |item.targets|
      ensures Edge(item.candidate, item.targets[k], KindOf(item.verdict).value) in next.edges
    {
      if u == uid {
        assert next.edges[|db.edges| + k] == more[k];
      } else {
        assert AllEnacted(db.edges, item);
      }
    }
  }

  lemma RecordEvolves(db: Db, done: Db, uid: nat, d: Decision)
    requires Evolves(db, done) && done.items == db.items && done.decisions == db.decisions
    requires uid < |db.items| && uid !in db.decisions && db.items[uid].state == Pending
    ensures Evolves(db, Recorded(done, uid, d))
  {
    var next := Recorded(done, uid, d);
    forall u | 0 <= u < |db.items|
      ensures CardMoves(db.items[u], next.items[u])
    {
      assert CardMoves(db.items[u], done.items[u]);
    }
  }

  /** Recording changes no head and no edge. */
  lemma RecordSound(done: Db, uid: nat, d: Decision)
    requires Sound(done, None) && uid < |done.items|
    ensures Sound(Recorded(done, uid, d), None)
  {
    var next := Recorded(done, uid, d);
    forall m
      ensures Tombstone(next, m) <==> Tombstone(done, m)
      ensures Opened(next, m, None) <==> Opened(done, m, None)
    {
    }
    hide Tombstone, Opened, Lineage, LabelsUnique;
  }

  lemma RecordSafe(db: Db, done: Db, uid: nat, d: Decision, more: seq<Edge>)
    requires Safe(db) && uid < |db.items| && uid !in db.decisions
    requires Sound(done, None) && Evolves(db, done)
    requires done.items == db.items && done.decisions == db.decisions && done.edges == db.edges + more
    requires if d.vote == Approve && Lifecycle.Replaces(db.items[uid].verdict)
             then more == EdgesTo(db.items[uid].candidate, KindOf(db.items[uid].verdict).value, db.items[uid].targets)
             else forall i :: 0 <= i < |more| ==> !Replacing(more[i])
    ensures Safe(Recorded(done, uid, d)) && Evolves(db, Recorded(done, uid, d))
  {
    assert StateFits(db, uid);
    RecordKeeps(db, done, uid, d, more);
    RecordEvolves(db, done, uid, d);
    RecordSound(done, uid, d);
    hide Evolves, Recorded, Forest, Lineage, LabelsUnique, DecisionsMatch, Explained;
  }

  /** Activating the candidate closes the opening. */
  lemma ActivationCloses(db: Db, c: int, expected: nat, changes: Changes, reason: string)
    requires Sound(db, Some(c)) && c in db.t.heads && db.t.heads[c].status == Candidate
      && changes.status == Some(Active)
    ensures var r := WriteAt(db, c, expected, changes, reason);
      r.Ok? ==> Sound(r.value, None) && Evolves(db, r.value)
    ensures NoLineageError(WriteAt(db, c, expected, changes, reason))
  {
    WriteKeeps(db, c, expected, changes, reason, Some(c));
    var r := WriteAt(db, c, expected, changes, reason);
    if r.Ok? {
      AppliedStatus(db.t.heads[c], changes);
      hide Lineage, LabelsUnique, Evolves, Applied, Cas;
      forall m
        ensures Opened(r.value, m, Some(c)) ==> Opened(r.value, m, None)
      {
      }
      hide Tombstone, Opened;
    }
  }

  lemma OpeningIsWeaker(db: Db, c: int)
    requires Sound(db, None)
    ensures Sound(db, Some(c))
  {
    hide Lineage, LabelsUnique;
    forall m
      ensures Opened(db, m, None) ==> Opened(db, m, Some(c))
    {
    }
    hide Tombstone, Opened;
  }

  /** Enacting an approved card's targets, for every verdict a candidate can carry. */
  lemma EnactSound(db: Db, item: Item) returns (more: seq<Edge>)
    requires Sound(db, None) && item.candidate in db.t.heads && db.t.heads[item.candidate].status == Candidate
    ensures var r := EnactTargets(db, item);
      r.Ok? ==>
        && Sound(r.value, Some(item.candidate)) && Evolves(db, r.value)
        && r.value.edges == db.edges + more
        && item.candidate in r.value.t.heads && r.value.t.heads[item.candidate] == db.t.heads[item.candidate]
    ensures if Lifecycle.Replaces(item.verdict)
      then more == EdgesTo(item.candidate, KindOf(item.verdict).value, item.targets)
      else forall i :: 0 <= i < |more| ==> !Replacing(more[i])
    ensures NoLineageError(EnactTargets(db, item))
  {
    var c := item.candidate;
    var principal := db.t.heads[c].principal;
    OpeningIsWeaker(db, c);
    EvolvesRefl(db);
    hide Evolves, Forest, Lineage, LabelsUnique;
    if Lifecycle.Replaces(item.verdict) {
      var kind := KindOf(item.verdict).value;
      EnactReplacements(db, c, principal, item.verdict, kind, item.targets);
      more := EdgesTo(c, kind, item.targets);
    } else if item.verdict == Contradict {
      EnactContradictions(db, c, principal, item.targets);
      more := EdgesTo(c, Contradicts, item.targets);
      if EnactTargets(db, item).Ok? {
        OpeningIsWeaker(EnactTargets(db, item).value, c);
      }
    } else {
      more := [];
    }
  }

  lemma DecideCandidateSafe(db: Db, uid: nat, item: Item, req: Request)
    requires Safe(db) && uid < |db.items| && item == db.items[uid] && uid !in db.decisions
    requires item.candidate in db.t.heads && db.t.heads[item.candidate].status == Candidate
    ensures var r := DecideCandidate(db, uid, item, req); r.Ok? ==> Safe(r.value) && Evolves(db, r.value)
    ensures NoLineageError(DecideCandidate(db, uid, item, req))
  {
    hide Evolves, Forest, Lineage, LabelsUnique, DecisionsMatch, Explained, EnactTargets, WriteAt, Recorded,
      Labels.Approved;
    var c := item.candidate;
    var candidate := db.t.heads[c];
    if req.decision.vote == Deny {
      WriteKeeps(db, c, candidate.revision, StatusChange(Tombstoned), "rejected", None);
      var w := WriteAt(db, c, candidate.revision, StatusChange(Tombstoned), "rejected");
      if w.Ok? {
        assert db.edges == db.edges + [];
        RecordSafe(db, w.value, uid, req.decision, []);
      }
    } else {
      var more := EnactSound(db, item);
      var e := EnactTargets(db, item);
      if e.Ok? {
        var title := Labels.Approved(ActiveTitles(e.value.t.heads, candidate.principal), candidate.title,
          candidate.qualifier, LABEL_MAX);
        var changes := Changes(Some(title), None, Some(Active), false);
        ActivationCloses(e.value, c, candidate.revision, changes, "approved");
        var w := WriteAt(e.value, c, candidate.revision, changes, "approved");
        if w.Ok? {
          EvolvesTransitive(db, e.value, w.value);
          RecordSafe(db, w.value, uid, req.decision, more);
        }
      }
    }
  }

  // Families, curator cards.

  lemma {:induction false} ChildrenSound(db: Db, proto: Head, children: seq<Child>, ids: seq<int>, parent: Option<int>,
                                         reason: string)
    requires Sound(db, None)
    ensures var r := AddChildren(db, proto, children, ids, parent, reason);
      r.Ok? ==> Sound(r.value, None) && Evolves(db, r.value)
    ensures NoLineageError(AddChildren(db, proto, children, ids, parent, reason))
  {
    hide Evolves, Sound, Add;
    if |children| == 0 {
      EvolvesRefl(db);
    } else {
      var n := |children| - 1;
      ChildrenSound(db, proto, children[..n], ids, parent, reason);
      var before := AddChildren(db, proto, children[..n], ids, parent, reason);
      if before.Ok? && n < |ids| {
        var h := proto.(title := children[n].title, body := children[n].body, status := Active, run := None);
        AddKeeps(before.value, ids[n], h, parent, reason);
        var r := Add(before.value, ids[n], h, parent, reason);
        if r.Ok? {
          EvolvesTransitive(db, before.value, r.value);
        }
      }
    }
  }

  lemma {:induction false} SiblingsRelate(lefts: seq<int>, ids: seq<int>)
    ensures forall i :: 0 <= i < |SiblingEdges(lefts, ids)| ==> !Replacing(SiblingEdges(lefts, ids)[i])
  {
    if |lefts| > 0 {
      SiblingsRelate(lefts[..|lefts| - 1], ids);
      RowRelates(lefts[|lefts| - 1], ids);
    }
  }

  lemma {:induction false} RowRelates(left: int, ids: seq<int>)
    ensures forall i :: 0 <= i < |EdgesFrom(left, ids)| ==> !Replacing(EdgesFrom(left, ids)[i])
  {
    if |ids| > 0 {
      RowRelates(left, ids[..|ids| - 1]);
    }
  }

  lemma FamilySound(db: Db, proto: Head, children: seq<Child>, ids: seq<int>, parent: Option<int>, reason: string)
    returns (more: seq<Edge>)
    requires Sound(db, None)
    ensures var r := AddFamily(db, proto, children, ids, parent, reason);
      r.Ok? ==> Sound(r.value, None) && Evolves(db, r.value) && r.value.edges == db.edges + more
    ensures forall i :: 0 <= i < |more| ==> !Replacing(more[i])
    ensures NoLineageError(AddFamily(db, proto, children, ids, parent, reason))
  {
    hide Evolves, Lineage, LabelsUnique, AddChildren;
    ChildrenSound(db, proto, children, ids, parent, reason);
    var grown := AddChildren(db, proto, children, ids, parent, reason);
    more := [];
    if grown.Ok? {
      var used := ids[..|children|];
      more := SiblingEdges(used, used);
      SiblingsRelate(used, used);
      ForestIgnores(grown.value, more);
      hide Forest, SiblingEdges;
      var next := grown.value.(edges := grown.value.edges + more);
      EvolvesByEdges(grown.value, next);
      EvolvesTransitive(db, grown.value, next);
    }
  }

  ghost predicate PlainEdges(more: seq<Edge>) {
    forall i :: 0 <= i < |more| ==> !Replacing(more[i])
  }

  /** A step that keeps the tables sound, moves forward, adds these edges, and leaves cards and decisions alone. */
  ghost predicate AddsSoundly(db: Db, r: Result<Db, Refusal>, more: seq<Edge>) {
    && NoLineageError(r)
    && (r.Ok? ==>
         && Sound(r.value, None) && Evolves(db, r.value)
         && r.value.items == db.items && r.value.decisions == db.decisions && r.value.edges == db.edges + more)
  }

  lemma ReplacementEffectSound(db: Db, item: Item, candidate: Head, req: Request) returns (more: seq<Edge>)
    requires Sound(db, None) && item.candidate in db.t.heads && candidate == db.t.heads[item.candidate]
    requires req.decision.vote == Approve && Lifecycle.Replaces(item.verdict)
    ensures AddsSoundly(db, CuratorEffect(db, item, candidate, req), more)
    ensures CuratorEffect(db, item, candidate, req).Ok?
      ==> more == EdgesTo(item.candidate, KindOf(item.verdict).value, item.targets)
  {
    hide Evolves, Sound, WriteAt, EnactTargets;
    var c := item.candidate;
    more := [];
    if candidate.status == Candidate {
      more := EnactSound(db, item);
      var e := EnactTargets(db, item);
      if e.Ok? {
        var changes := Changes(None, req.amendedBody, Some(Active), false);
        ActivationCloses(e.value, c, candidate.revision, changes, "curation/activate");
        var w := WriteAt(e.value, c, candidate.revision, changes, "curation/activate");
        if w.Ok? {
          EvolvesTransitive(db, e.value, w.value);
        }
      }
    }
  }

  lemma SplitEffectSound(db: Db, item: Item, candidate: Head, req: Request) returns (more: seq<Edge>)
    requires Sound(db, None) && item.candidate in db.t.heads && candidate == db.t.heads[item.candidate]
    requires req.decision.vote == Approve && item.verdict == Split
    ensures AddsSoundly(db, CuratorEffect(db, item, candidate, req), more) && PlainEdges(more)
  {
    hide Evolves, Sound, WriteAt, AddFamily;
    var c := item.candidate;
    more := [];
    assert Rank(candidate.status) <= Rank(Tombstoned);
    WriteKeeps(db, c, candidate.revision, StatusChange(Tombstoned), "curation/split-source", None);
    var w := WriteAt(db, c, candidate.revision, StatusChange(Tombstoned), "curation/split-source");
    if w.Ok? {
      var parent := Some(|w.value.t.revisions| - 1);
      more := FamilySound(w.value, candidate, item.children, req.newIds, parent, "curation/split-child");
      var f := AddFamily(w.value, candidate, item.children, req.newIds, parent, "curation/split-child");
      if f.Ok? {
        EvolvesTransitive(db, w.value, f.value);
      }
    }
  }

  lemma CuratorEffectSound(db: Db, item: Item, candidate: Head, req: Request) returns (more: seq<Edge>)
    requires Sound(db, None) && item.candidate in db.t.heads && candidate == db.t.heads[item.candidate]
    ensures AddsSoundly(db, CuratorEffect(db, item, candidate, req), more)
    ensures if req.decision.vote == Approve && Lifecycle.Replaces(item.verdict)
      then CuratorEffect(db, item, candidate, req).Ok?
        ==> more == EdgesTo(item.candidate, KindOf(item.verdict).value, item.targets)
      else PlainEdges(more)
  {
    var c := item.candidate;
    if req.decision.vote == Approve && Lifecycle.Replaces(item.verdict) {
      more := ReplacementEffectSound(db, item, candidate, req);
    } else if req.decision.vote == Approve && item.verdict == Split {
      more := SplitEffectSound(db, item, candidate, req);
    } else if req.decision.vote == Approve && item.verdict == Contradict {
      EnactContradictions(db, c, candidate.principal, item.targets);
      ContradictTargets(db, item);
      EvolvesRefl(db);
      more := EdgesTo(c, Contradicts, item.targets);
      assert AddsSoundly(db, CuratorEffect(db, item, candidate, req), more) by {
        hide Evolves, Sound, EnactTargets, EdgesTo;
      }
    } else {
      OneWriteSound(db, item, candidate, req);
      more := [];
    }
  }

  /** The other verdicts, and every denial, write the candidate once or do nothing. */
  lemma OneWriteSound(db: Db, item: Item, candidate: Head, req: Request)
    requires Sound(db, None) && item.candidate in db.t.heads && candidate == db.t.heads[item.candidate]
    requires req.decision.vote == Deny || item.verdict == Retire || item.verdict == KeywordRepair || item.verdict == New
    ensures AddsSoundly(db, CuratorEffect(db, item, candidate, req), [])
  {
    hide Evolves, Sound, WriteAt;
    var c := item.candidate;
    EvolvesRefl(db);
    assert db.edges + [] == db.edges;
    assert Rank(candidate.status) <= Rank(Tombstoned);
    WriteKeeps(db, c, candidate.revision, StatusChange(Tombstoned), "curation/rejected", None);
    WriteKeeps(db, c, candidate.revision, StatusChange(Tombstoned), "curation/retire", None);
    WriteKeeps(db, c, candidate.revision, Changes(None, None, None, true), "curation/keyword-repair", None);
  }

  lemma ContradictTargets(db: Db, item: Item)
    requires item.candidate in db.t.heads && item.verdict == Contradict
    ensures EnactTargets(db, item)
         == EnactAll(db, item.candidate, db.t.heads[item.candidate].principal, Contradict, Contradicts, item.targets)
  {
  }

  lemma DecideCuratorSafe(db: Db, uid: nat, item: Item, req: Request)
    requires Safe(db) && uid < |db.items| && item == db.items[uid] && uid !in db.decisions
    requires item.candidate in db.t.heads
    ensures var r := DecideCurator(db, uid, item, req); r.Ok? ==> Safe(r.value) && Evolves(db, r.value)
    ensures NoLineageError(DecideCurator(db, uid, item, req))
  {
    hide Evolves, Forest, Lineage, LabelsUnique, DecisionsMatch, Explained, CuratorEffect, Recorded;
    var candidate := db.t.heads[item.candidate];
    var more := CuratorEffectSound(db, item, candidate, req);
    var done := CuratorEffect(db, item, candidate, req);
    if done.Ok? {
      RecordSafe(db, done.value, uid, req.decision, more);
    }
  }

  lemma DecideSafe(db: Db, uid: nat, req: Request)
    requires Safe(db)
    ensures var r := Decide(db, uid, req); r.Ok? ==> Safe(r.value) && Evolves(db, r.value)
    ensures NoLineageError(Decide(db, uid, req))
  {
    hide Evolves, Safe, DecideCandidate, DecideCurator;
    EvolvesRefl(db);
    if uid < |db.items| && uid !in db.decisions && db.items[uid].candidate in db.t.heads {
      var item := db.items[uid];
      if item.birthplace == FromCurator {
        DecideCuratorSafe(db, uid, item, req);
      } else if db.t.heads[item.candidate].status == Candidate {
        DecideCandidateSafe(db, uid, item, req);
      }
    }
  }

  lemma {:induction false} DecideFromSafe(db: Db, batch: int, req: Request, uid: nat)
    requires Safe(db)
    ensures var r := DecideFrom(db, batch, req, uid); r.Ok? ==> Safe(r.value) && Evolves(db, r.value)
    decreases |db.items| - uid
    ensures NoLineageError(DecideFrom(db, batch, req, uid))
  {
    hide Evolves, Safe, Decide;
    EvolvesRefl(db);
    if uid < |db.items| {
      DecideFromSafe(db, batch, req, uid + 1);
      DecideSafe(db, uid, req);
      var after := Decide(db, uid, req);
      if after.Ok? {
        DecideFromSafe(after.value, batch, req, uid + 1);
        var r := DecideFrom(after.value, batch, req, uid + 1);
        if r.Ok? {
          EvolvesTransitive(db, after.value, r.value);
        }
      }
    }
  }

  // Cards, splits and resolutions.

  /** Steps that leave the decided cards and the replacement edges alone keep the card part of safety. */
  lemma CardsKept(db: Db, next: Db, more: seq<Edge>)
    requires CardsSafe(db) && PlainEdges(more)
    requires next.edges == db.edges + more && next.decisions == db.decisions
    requires db.items <= next.items && forall u :: |db.items| <= u < |next.items| ==> next.items[u].state == Pending
    ensures CardsSafe(next)
  {
    forall u: nat | u < |next.items|
      ensures StateFits(next, u)
    {
      if u < |db.items| {
        assert StateFits(db, u) && next.items[u] == db.items[u];
      }
    }
    forall e | AskedFor(db.items, e)
      ensures AskedFor(next.items, e)
    {
      var u :| 0 <= u < |db.items| && db.items[u].state == Approved && db.items[u].candidate == e.source
               && KindOf(db.items[u].verdict) == Some(e.kind) && e.target in db.items[u].targets;
      assert next.items[u] == db.items[u];
    }
    forall i | 0 <= i < |next.edges| && Replacing(next.edges[i])
      ensures AskedFor(next.items, next.edges[i])
    {
      NewEdgesArePlain(db, next, more, i);
    }
    forall u | 0 <= u < |next.items| && next.items[u].state == Approved && Lifecycle.Replaces(next.items[u].verdict)
      ensures AllEnacted(next.edges, next.items[u])
    {
      assert next.items[u] == db.items[u];
      assert AllEnacted(db.edges, db.items[u]);
    }
  }

  lemma NewEdgesArePlain(db: Db, next: Db, more: seq<Edge>, i: nat)
    requires PlainEdges(more) && next.edges == db.edges + more && i < |next.edges|
    ensures if i < |db.edges| then next.edges[i] == db.edges[i] else !Replacing(next.edges[i])
  {
    if i >= |db.edges| {
      assert next.edges[i] == more[i - |db.edges|];
    }
  }

  lemma EnqueueSafe(db: Db, item: Item)
    requires Safe(db)
    ensures var r := Enqueue(db, item); r.Ok? ==> Safe(r.value) && Evolves(db, r.value)
    ensures NoLineageError(Enqueue(db, item))
  {
    var r := Enqueue(db, item);
    if r.Ok? {
      CardsKept(db, r.value, []);
      forall m
        ensures Tombstone(r.value, m) <==> Tombstone(db, m)
        ensures Opened(r.value, m, None) <==> Opened(db, m, None)
      {
      }
      hide Tombstone, Opened, Lineage, LabelsUnique, DecisionsMatch, Explained;
    }
  }

  lemma WriteSafe(db: Db, id: int, expected: nat, changes: Changes, reason: string)
    requires Safe(db) && id in db.t.heads
    requires changes.status.Some? ==> Rank(db.t.heads[id].status) <= Rank(changes.status.value)
    ensures var r := WriteAt(db, id, expected, changes, reason); r.Ok? ==> Safe(r.value) && Evolves(db, r.value)
    ensures NoLineageError(WriteAt(db, id, expected, changes, reason))
  {
    hide Evolves, Forest, Lineage, LabelsUnique, DecisionsMatch, Explained, WriteAt;
    WriteKeeps(db, id, expected, changes, reason, None);
    var r := WriteAt(db, id, expected, changes, reason);
    if r.Ok? {
      CardsKept(db, r.value, []);
    }
  }

  lemma AddSafe(db: Db, id: int, h: Head, parent: Option<int>, reason: string)
    requires Safe(db)
    ensures var r := Add(db, id, h, parent, reason); r.Ok? ==> Safe(r.value) && Evolves(db, r.value)
    ensures NoLineageError(Add(db, id, h, parent, reason))
  {
    hide Evolves, Forest, Lineage, LabelsUnique, DecisionsMatch, Explained, Add;
    AddKeeps(db, id, h, parent, reason);
    var r := Add(db, id, h, parent, reason);
    if r.Ok? {
      CardsKept(db, r.value, []);
    }
  }

  lemma SplitSafe(db: Db, id: int, source: Head, children: seq<Child>, ids: seq<int>)
    requires Safe(db)
    ensures var r := SplitSource(db, id, source, children, ids); r.Ok? ==> Safe(r.value) && Evolves(db, r.value)
    ensures NoLineageError(SplitSource(db, id, source, children, ids))
  {
    hide Evolves, Forest, Lineage, LabelsUnique, DecisionsMatch, Explained, Add, AddFamily;
    var h := source.(status := Tombstoned, run := None);
    AddSafe(db, id, h, None, "remember/source-split");
    var w := Add(db, id, h, None, "remember/source-split");
    if w.Ok? {
      var parent := Some(|w.value.t.revisions| - 1);
      var more := FamilySound(w.value, source, children, ids, parent, "remember/split-child");
      var f := AddFamily(w.value, source, children, ids, parent, "remember/split-child");
      if f.Ok? {
        CardsKept(w.value, f.value, more);
        EvolvesTransitive(db, w.value, f.value);
      }
    }
  }

  /** Winning rows stay below activation until the queue decides them. */
  ghost predicate WinnersWaiting(db: Db, read: Tables, winner: string) {
    forall m :: m in read.heads && read.heads[m].status == Staged && read.heads[m].run.Some? && Wins(read, winner, m)
      ==> m in db.t.heads && Rank(db.t.heads[m].status) <= Rank(Candidate)
  }

  lemma ResolveRowSafe(db: Db, principal: string, batch: int, m: int, read: Head, wins: bool)
    requires Safe(db) && m in db.t.heads
    requires wins ==> Rank(db.t.heads[m].status) <= Rank(Candidate)
    ensures var r := ResolveRow(db, principal, batch, m, read, wins);
      r.Ok? ==>
        && Safe(r.value) && Evolves(db, r.value)
        && r.value.t.heads
             == db.t.heads[m := Applied(db.t.heads[m], StatusChange(if wins then Candidate else Tombstoned))]
    ensures NoLineageError(ResolveRow(db, principal, batch, m, read, wins))
  {
    hide Evolves, Safe, WriteAt, Enqueue, Applied;
    if wins {
      WriteSafe(db, m, read.revision, StatusChange(Candidate), "symphony/winner-queued");
      WriteHeads(db, m, read.revision, StatusChange(Candidate), "symphony/winner-queued");
      var w := WriteAt(db, m, read.revision, StatusChange(Candidate), "symphony/winner-queued");
      if w.Ok? {
        EnqueueSafe(w.value, SymphonyCard(m, principal, batch));
        var r := Enqueue(w.value, SymphonyCard(m, principal, batch));
        EnqueueHeads(w.value, SymphonyCard(m, principal, batch));
        if r.Ok? {
          EvolvesTransitive(db, w.value, r.value);
        }
      }
    } else {
      assert Rank(db.t.heads[m].status) <= Rank(Tombstoned);
      WriteSafe(db, m, read.revision, StatusChange(Tombstoned), "symphony/loser-tombstone");
      WriteHeads(db, m, read.revision, StatusChange(Tombstoned), "symphony/loser-tombstone");
    }
  }

  lemma WriteHeads(db: Db, id: int, expected: nat, changes: Changes, reason: string)
    requires id in db.t.heads
    ensures var r := WriteAt(db, id, expected, changes, reason);
      r.Ok? ==>
        && db.t.heads[id].revision == expected
        && r.value.t.heads == db.t.heads[id := Applied(db.t.heads[id], changes)]
  {
    if Cas(db.t, CasUpdate(id, expected, reason, changes)).Ok? {
      CasEffect(db.t, CasUpdate(id, expected, reason, changes));
    }
    hide Cas;
  }

  lemma EnqueueHeads(db: Db, item: Item)
    ensures Enqueue(db, item).Ok? ==> Enqueue(db, item).value.t == db.t
  {
  }

  /** The status a resolution gives to a row, everything else about the heads being left alone. */
  ghost predicate Routed(before: map<int, Head>, after: map<int, Head>, read: Tables, winner: string, rows: seq<int>)
    requires forall i :: 0 <= i < |rows| ==> rows[i] in read.heads && read.heads[rows[i]].run.Some?
  {
    && after.Keys == before.Keys
    && (forall i :: 0 <= i < |rows| ==>
         && rows[i] in after
         && after[rows[i]].status == (if Wins(read, winner, rows[i]) then Candidate else Tombstoned))
    && (forall m :: m in before && m !in rows ==> after[m] == before[m])
  }

  lemma {:induction false} ResolveRowsSafe(db: Db, read: Tables, principal: string, batch: int, winner: string,
                                           rows: seq<int>)
    requires Safe(db)
    requires forall i :: 0 <= i < |rows| ==>
      rows[i] in read.heads && read.heads[rows[i]].status == Staged && read.heads[rows[i]].run.Some?
        && rows[i] in db.t.heads
    requires WinnersWaiting(db, read, winner)
    ensures var r := ResolveRows(db, read, principal, batch, winner, rows);
      r.Ok? ==>
        && Safe(r.value) && Evolves(db, r.value) && WinnersWaiting(r.value, read, winner)
        && Routed(db.t.heads, r.value.t.heads, read, winner, rows)
    ensures NoLineageError(ResolveRows(db, read, principal, batch, winner, rows))
  {
    hide Evolves, Safe, ResolveRow, Wins;
    EvolvesRefl(db);
    if |rows| > 0 {
      var n := |rows| - 1;
      ResolveRowsSafe(db, read, principal, batch, winner, rows[..n]);
      var before := ResolveRows(db, read, principal, batch, winner, rows[..n]);
      if before.Ok? {
        var m, wins := rows[n], Wins(read, winner, rows[n]);
        ResolveRowSafe(before.value, principal, batch, m, read.heads[m], wins);
        var r := ResolveRow(before.value, principal, batch, m, read.heads[m], wins);
        if r.Ok? {
          EvolvesTransitive(db, before.value, r.value);
          AppliedStatus(before.value.t.heads[m], StatusChange(if wins then Candidate else Tombstoned));
          hide Applied;
          RoutedStep(db.t.heads, before.value.t.heads, r.value.t.heads, read, winner, rows);
        }
      }
    }
  }

  lemma RoutedStep(before: map<int, Head>, mid: map<int, Head>, after: map<int, Head>, read: Tables, winner: string,
                   rows: seq<int>)
    requires |rows| > 0 && forall i :: 0 <= i < |rows| ==> rows[i] in read.heads && read.heads[rows[i]].run.Some?
    requires Routed(before, mid, read, winner, rows[..|rows| - 1])
    requires rows[|rows| - 1] in mid && rows[|rows| - 1] in after
      && after == mid[rows[|rows| - 1] := after[rows[|rows| - 1]]]
    requires after[rows[|rows| - 1]].status == if Wins(read, winner, rows[|rows| - 1]) then Candidate else Tombstoned
    ensures Routed(before, after, read, winner, rows)
  {
    hide Wins;
    var n := |rows| - 1;
    assert rows == rows[..n] + [rows[n]];
    forall i | 0 <= i < |rows|
      ensures rows[i] in after
        && after[rows[i]].status == (if Wins(read, winner, rows[i]) then Candidate else Tombstoned)
    {
      if i < n && rows[i] != rows[n] {
        assert rows[..n][i] == rows[i];
      }
    }
  }

  /** Every staged memory of the run is among the rows read. */
  lemma {:induction false} StagedFound(t: Tables, revisions: seq<Revision>, run: string, m: int, u: nat)
    requires u < |revisions| && revisions[u].memory == m && revisions[u].revision == 1
    requires m in t.heads && t.heads[m].status == Staged && t.heads[m].run.Some? && t.heads[m].run.value.id == run
    ensures m in StagedIn(t, revisions, run)
  {
    if u < |revisions| - 1 {
      StagedFound(t, revisions[..|revisions| - 1], run, m, u);
    }
  }

  ghost predicate RoutedHead(t: Tables, run: string, winner: string, m: int, after: Head)
    requires m in t.heads
  {
    var h := t.heads[m];
    if h.status == Staged && h.run.Some? && h.run.value.id == run
    then after.status == (if Wins(t, winner, m) then Candidate else Tombstoned)
    else after == h
  }

  /**
   * A first resolution routes the whole run: each staged memory under the winning origin becomes a
   * candidate, every other staged memory of the run is tombstoned, and no other head moves.
   */
  lemma ResolveRoutes(db: Db, run: string, res: Resolution)
    requires Safe(db) && run !in db.resolutions && Resolve(db, run, res).Ok?
    ensures var next := Resolve(db, run, res).value;
      forall m :: m in db.t.heads ==> m in next.t.heads && RoutedHead(db.t, run, res.winner, m, next.t.heads[m])
  {
    var rows := StagedIn(db.t, db.t.revisions, run);
    var noted := db.(resolutions := db.resolutions[run := res]);
    NotedSafe(db, run, res);
    StagedMembers(db.t, db.t.revisions, run);
    hide Safe, Wins, Evolves, ResolveRows, StagedIn;
    assert forall i :: 0 <= i < |rows| ==> rows[i] in rows;
    ResolveRowsSafe(noted, db.t, res.principal, res.batch, res.winner, rows);
    hide WinnersWaiting, Routed, RoutedHead;
    var next := Resolve(db, run, res).value;
    RunRouted(db, run, res.winner, next.t.heads);
  }

  lemma RunRouted(db: Db, run: string, winner: string, after: map<int, Head>)
    requires Safe(db)
    requires var rows := StagedIn(db.t, db.t.revisions, run);
      (forall i :: 0 <= i < |rows| ==> rows[i] in db.t.heads && db.t.heads[rows[i]].run.Some?)
      && Routed(db.t.heads, after, db.t, winner, rows)
    ensures forall m :: m in db.t.heads ==> m in after && RoutedHead(db.t, run, winner, m, after[m])
  {
    var rows := StagedIn(db.t, db.t.revisions, run);
    StagedMembers(db.t, db.t.revisions, run);
    hide Safe, Wins, StagedIn;
    forall m | m in db.t.heads
      ensures m in after && RoutedHead(db.t, run, winner, m, after[m])
    {
      if db.t.heads[m].status == Staged && db.t.heads[m].run.Some? && db.t.heads[m].run.value.id == run {
        var u := FirstRow(db, m);
        StagedFound(db.t, db.t.revisions, run, m, u);
        var i :| 0 <= i < |rows| && rows[i] == m;
      }
    }
  }

  lemma FirstRow(db: Db, m: int) returns (u: nat)
    requires Safe(db) && m in db.t.heads
    ensures u < |db.t.revisions| && db.t.revisions[u].memory == m && db.t.revisions[u].revision == 1
  {
    assert Chained(db.t, m);
    var rows := History(db.t.revisions, m);
    assert RowFits(db.t.revisions, rows, m, 0);
    u := rows[0];
  }

  lemma {:induction false} StagedMembers(t: Tables, revisions: seq<Revision>, run: string)
    ensures forall m :: m in StagedIn(t, revisions, run) ==>
      m in t.heads && t.heads[m].status == Staged && t.heads[m].run.Some? && t.heads[m].run.value.id == run
  {
    if |revisions| > 0 {
      StagedMembers(t, revisions[..|revisions| - 1], run);
    }
  }

  lemma NotedSafe(db: Db, run: string, res: Resolution)
    requires Safe(db) && run !in db.resolutions
    ensures var noted := db.(resolutions := db.resolutions[run := res]);
      Safe(noted) && Evolves(db, noted) && WinnersWaiting(noted, db.t, res.winner)
  {
    var noted := db.(resolutions := db.resolutions[run := res]);
    CardsKept(db, noted, []);
    forall m
      ensures Tombstone(noted, m) <==> Tombstone(db, m)
      ensures Opened(noted, m, None) <==> Opened(db, m, None)
    {
    }
    hide Tombstone, Opened, Lineage, LabelsUnique, DecisionsMatch, Explained, Wins;
  }

  lemma ResolveSafe(db: Db, run: string, res: Resolution)
    requires Safe(db)
    ensures var r := Resolve(db, run, res); r.Ok? ==> Safe(r.value) && Evolves(db, r.value)
    ensures NoLineageError(Resolve(db, run, res))
  {
    EvolvesRefl(db);
    hide Safe, Evolves, Wins, StagedIn, ResolveRows;
    if run !in db.resolutions {
      var rows := StagedIn(db.t, db.t.revisions, run);
      var noted := db.(resolutions := db.resolutions[run := res]);
      NotedSafe(db, run, res);
      assert forall i :: 0 <= i < |rows| ==> rows[i] in rows;
      ResolveRowsSafe(noted, db.t, res.principal, res.batch, res.winner, rows);
      var r := ResolveRows(noted, db.t, res.principal, res.batch, res.winner, rows);
      if r.Ok? {
        EvolvesTransitive(db, noted, r.value);
      }
    }
  }

  lemma ResolutionIsNoted(db: Db, run: string, res: Resolution)
    requires Safe(db) && Resolve(db, run, res).Ok?
    ensures var next := Resolve(db, run, res).value; run in next.resolutions && next.resolutions[run] == res
  {
    hide Safe, Wins, StagedIn;
    if run !in db.resolutions {
      var rows := StagedIn(db.t, db.t.revisions, run);
      var noted := db.(resolutions := db.resolutions[run := res]);
      NotedSafe(db, run, res);
      assert forall i :: 0 <= i < |rows| ==> rows[i] in rows;
      ResolveRowsSafe(noted, db.t, res.principal, res.batch, res.winner, rows);
      hide ResolveRows;
    }
  }

  // Every command.

  lemma StepSafe(db: Db, c: Command)
    requires Safe(db)
    ensures var r := Step(db, c); r.Ok? ==> Safe(r.value) && Evolves(db, r.value)
    ensures NoLineageError(Step(db, c))
  {
    hide Safe, Evolves, Add, SplitSource, Decide, DecideBatch, Resolve, WriteAt, Enqueue;
    EvolvesRefl(db);
    match c
    case Create(id, h) => AddSafe(db, id, h.(status := Active, run := None), None, "remember");
    case CreateCandidate(id, h) => AddSafe(db, id, h.(status := Candidate, run := None), None, "candidate");
    case CreateSource(id, h) => AddSafe(db, id, h.(status := Tombstoned, run := None), None, "seed_source_split");
    case StageMemory(id, h) => AddSafe(db, id, h.(status := Staged), None, "symphony/staged");
    case SplitMemory(id, h, children, ids) => SplitSafe(db, id, h, children, ids);
    case EnqueueDraft(item, neighbours) =>
      EnqueueSafe(db, item);
      if item.candidate in db.t.heads {
        assert Rank(db.t.heads[item.candidate].status) <= Rank(Tombstoned);
        WriteSafe(db, item.candidate, db.t.heads[item.candidate].revision, StatusChange(Tombstoned),
          "invalid_queue_target");
      }
    case EnqueueCurator(item) => EnqueueSafe(db, item);
    case DecideOne(uid, req) => DecideSafe(db, uid, req);
    case DecideMany(batch, req) => BatchSafe(db, batch, req);
    case ResolveRun(run, resolution) => ResolveSafe(db, run, resolution);
    case Injected(id, quarantine) =>
      if id in db.t.heads {
        WriteSafe(db, id, db.t.heads[id].revision, Changes(None, None, None, true), "inject");
        if db.t.heads[id].status == Active {
          WriteSafe(db, id, db.t.heads[id].revision, Changes(None, None, Some(Quarantined), true),
            "inject/commit:removed:never");
        }
      }
  }

  lemma BatchSafe(db: Db, batch: int, req: Request)
    requires Safe(db)
    ensures var r := DecideBatch(db, batch, req); r.Ok? ==> Safe(r.value) && Evolves(db, r.value)
    ensures NoLineageError(DecideBatch(db, batch, req))
  {
    hide Safe, Evolves;
    DecideFromSafe(db, batch, req, 0);
  }
}
