/** The services that change the database in place, each proved against its step in Lifecycle. */
module QueueService {
  import opened Outcomes
  import opened MemoryTable
  import opened Lifecycle
  import Labels

  class Database {
    const store: MemoryStore
    var edges: seq<Edge>
    var items: seq<Item>
    var decisions: map<nat, Decision>
    var resolutions: map<string, Resolution>

    function State(): Db
      reads this, store
    {
      Db(store.State(), edges, items, decisions, resolutions)
    }

    constructor ()
      ensures State() == EMPTY && fresh(store)
    {
      store := new MemoryStore();
      edges, items, decisions, resolutions := [], [], map[], map[];
    }

    /** What a rolled back transaction leaves behind. */
    method Rollback(before: Db)
      modifies this, store
      ensures State() == before
    {
      store.Restore(before.t);
      edges, items, decisions, resolutions := before.edges, before.items, before.decisions, before.resolutions;
    }

    method WriteHead(id: int, expected: nat, changes: Changes, reason: string) returns (r: Result<(), Refusal>)
      modifies store
      ensures var spec := WriteAt(old(State()), id, expected, changes, reason);
        && (spec.Ok? ==> r == Ok(()) && State() == spec.value)
        && (spec.Err? ==> r == Err(spec.error) && State() == old(State()))
    {
      var w := store.CasUpdateMemoryUnit(CasUpdate(id, expected, reason, changes));
      if w.Err? {
        return Err(WriteRefused(w.error));
      }
      r := Ok(());
    }

    method AddHead(id: int, head: Head, parent: Option<int>, reason: string) returns (r: Result<(), Refusal>)
      modifies store
      ensures var spec := Add(old(State()), id, head, parent, reason);
        && (spec.Ok? ==> r == Ok(()) && State() == spec.value)
        && (spec.Err? ==> r == Err(spec.error) && State() == old(State()))
    {
      var w := store.InsertRoot(id, head, parent, reason);
      if w.Err? {
        return Err(WriteRefused(w.error));
      }
      r := Ok(());
    }

    /** Tombstone each replaced target and add its edge; the caller rolls back a refusal. */
    method EnactCardTargets(item: Item) returns (r: Result<(), Refusal>)
      requires item.candidate in store.heads
      modifies this, store
      ensures var spec := EnactTargets(old(State()), item);
        && (spec.Ok? ==> r == Ok(()) && State() == spec.value)
        && (spec.Err? ==> r == Err(spec.error))
    {
      if KindOf(item.verdict) == None {
        return Ok(());
      }
      ghost var before := State();
      var principal, kind := store.heads[item.candidate].principal, KindOf(item.verdict).value;
      for i := 0 to |item.targets|
        invariant EnactAll(before, item.candidate, principal, item.verdict, kind, item.targets[..i]) == Ok(State())
      {
        hide Cas, MatchingRows, LabelTaken;
        ghost var here := State();
        var target := item.targets[i];
        EnactStep(before, here, item.candidate, principal, item.verdict, kind, item.targets, i);
        if target !in store.heads {
          return Err(Conflict);
        }
        if store.heads[target].principal != principal || store.heads[target].status != Active {
          return Err(Conflict);
        }
        if Lifecycle.Replaces(item.verdict) {
          r := WriteHead(target, store.heads[target].revision, StatusChange(Tombstoned), "replaced");
          if r.Err? {
            return;
          }
        }
        var edge := Edge(item.candidate, target, kind);
        if edge in edges {
          return Err(EdgeTaken);
        }
        edges := edges + [edge];
      }
      assert item.targets[..|item.targets|] == item.targets;
      r := Ok(());
    }

    method RecordDecision(uid: nat, decision: Decision)
      requires uid < |items|
      modifies this`decisions, this`items
      ensures State() == Recorded(old(State()), uid, decision)
    {
      decisions := decisions[uid := decision];
      items := items[uid := items[uid].(state := if decision.vote == Approve then Approved else Rejected)];
    }

    method AddEdgesFrom(id: int, ids: seq<int>)
      modifies this`edges
      ensures edges == old(edges) + EdgesFrom(id, ids)
    {
      NoEdgeYet(id);
      for j := 0 to |ids|
        invariant edges == old(edges) + EdgesFrom(id, ids[..j])
      {
        OneMoreEdge(id, ids, j);
        hide EdgesFrom;
        if id != ids[j] {
          edges := edges + [Edge(id, ids[j], RelatesTo)];
        }
      }
      assert ids[..|ids|] == ids;
    }

    method AddSiblings(ids: seq<int>)
      modifies this`edges
      ensures edges == old(edges) + SiblingEdges(ids, ids)
    {
      assert SiblingEdges(ids[..0], ids) == [];
      hide SiblingEdges, EdgesFrom;
      for i := 0 to |ids|
        invariant edges == old(edges) + SiblingEdges(ids[..i], ids)
      {
        OneMoreSibling(ids, i);
        AddEdgesFrom(ids[i], ids);
      }
      assert ids[..|ids|] == ids;
    }

    method AddFamilyOf(proto: Head, children: seq<Child>, ids: seq<int>, parent: Option<int>, reason: string)
      returns (r: Result<(), Refusal>)
      modifies this, store
      ensures var spec := AddFamily(old(State()), proto, children, ids, parent, reason);
        && (spec.Ok? ==> r == Ok(()) && State() == spec.value)
        && (spec.Err? ==> r == Err(spec.error))
    {
      ghost var before := State();
      for i := 0 to |children|
        invariant AddChildren(before, proto, children[..i], ids, parent, reason) == Ok(State())
      {
        ghost var here := State();
        ChildStep(before, here, proto, children, ids, parent, reason, i);
        if i >= |ids| {
          return Err(WriteRefused(IdTaken));
        }
        r := AddHead(ids[i],
          proto.(title := children[i].title, body := children[i].body, status := Active, run := None), parent, reason);
        if r.Err? {
          return;
        }
      }
      assert children[..|children|] == children;
      AddSiblings(ids[..|children|]);
      r := Ok(());
    }

    /** The effect of an owner's decision on a curator card. */
    method EnactCurator(item: Item, req: Request) returns (r: Result<(), Refusal>)
      requires item.candidate in store.heads
      modifies this, store
      ensures var spec := CuratorEffect(old(State()), item, old(store.heads[item.candidate]), req);
        && (spec.Ok? ==> r == Ok(()) && State() == spec.value)
        && (spec.Err? ==> r == Err(spec.error))
    {
      hide Cas, WriteAt, EnactTargets, AddFamily;
      var candidate := store.heads[item.candidate];
      if req.decision.vote == Deny {
        if candidate.status == Candidate {
          r := WriteHead(item.candidate, candidate.revision, StatusChange(Tombstoned), "curation/rejected");
        } else {
          r := Ok(());
        }
        return;
      }
      match item.verdict
      case Merge | Supersede =>
        if candidate.status != Candidate {
          return Err(Conflict);
        }
        r := EnactCardTargets(item);
        if r.Ok? {
          r := WriteHead(item.candidate, candidate.revision, Changes(None, req.amendedBody, Some(Active), false),
            "curation/activate");
        }
      case Contradict =>
        if candidate.status != Active {
          return Err(Conflict);
        }
        r := EnactCardTargets(item);
      case Retire =>
        r := WriteHead(item.candidate, candidate.revision, StatusChange(Tombstoned), "curation/retire");
      case KeywordRepair =>
        r := WriteHead(item.candidate, candidate.revision, Changes(None, None, None, true), "curation/keyword-repair");
      case Split =>
        if candidate.status != Active {
          return Err(InvalidRequest);
        }
        r := WriteHead(item.candidate, candidate.revision, StatusChange(Tombstoned), "curation/split-source");
        if r.Ok? {
          var parent := Some(|store.revisions| - 1);
          r := AddFamilyOf(candidate, item.children, req.newIds, parent, "curation/split-child");
        }
      case New =>
        r := Err(InvalidRequest);
    }

    /** Approve or deny a thread, seed or symphony candidate. */
    method EnactCandidate(item: Item, req: Request) returns (r: Result<(), Refusal>)
      requires item.candidate in store.heads
      modifies this, store
      ensures var spec := CandidateEffect(old(State()), item, req);
        && (spec.Ok? ==> r == Ok(()) && State() == spec.value)
        && (spec.Err? ==> r == Err(spec.error))
    {
      hide Cas, WriteAt, EnactTargets, Labels.Approved;
      var candidate := store.heads[item.candidate];
      if req.decision.vote == Deny {
        r := WriteHead(item.candidate, candidate.revision, StatusChange(Tombstoned), "rejected");
        return;
      }
      r := EnactCardTargets(item);
      if r.Ok? {
        var title, _ := Labels.ApprovalLabel(ActiveTitles(store.heads, candidate.principal), candidate.title,
          candidate.qualifier, LABEL_MAX);
        r := WriteHead(item.candidate, candidate.revision, Changes(Some(title), None, Some(Active), false), "approved");
      }
    }

    /** One decision transaction. A refusal of any kind leaves the database as it was. */
    method DecideCard(uid: nat, req: Request) returns (r: Result<(), Refusal>)
      modifies this, store
      ensures var spec := Decide(old(State()), uid, req);
        && (spec.Ok? ==> r == Ok(()) && State() == spec.value)
        && (spec.Err? ==> r == Err(spec.error) && State() == old(State()))
    {
      hide EnactTargets, CuratorEffect, CandidateEffect, Recorded;
      if uid >= |items| {
        return Err(ItemNotFound);
      }
      var item := items[uid];
      if !AmendmentAllowed(item, req)
        || (item.birthplace == FromCurator && item.verdict == Split && !ValidFamily(item.children)) {
        return Err(InvalidRequest);
      }
      if uid in decisions {
        if req.amendedBody.Some?
           && (item.candidate !in store.heads || store.heads[item.candidate].body != req.amendedBody.value) {
          return Err(Conflict);
        }
        return if decisions[uid] != req.decision then Err(Conflict) else Ok(());
      }
      if item.verdict == Contradict && req.decision.mode == Passive {
        return Err(InvalidRequest);
      }
      if item.candidate !in store.heads {
        return Err(Conflict);
      }
      var before := State();
      if item.birthplace == FromCurator {
        if req.decision.mode != Explicit || req.decision.actor != Human {
          return Err(InvalidRequest);
        }
        if store.heads[item.candidate].revision != item.candidateRevision {
          return Err(Conflict);
        }
        r := EnactCurator(item, req);
      } else {
        if store.heads[item.candidate].status != Candidate {
          return Err(Conflict);
        }
        r := EnactCandidate(item, req);
      }
      if r.Err? {
        Rollback(before);
        return;
      }
      RecordDecision(uid, req.decision);
    }

    /** Every pending card of a seed or symphony batch, in one transaction. */
    method DecideCards(batch: int, req: Request) returns (r: Result<(), Refusal>)
      modifies this, store
      ensures var spec := DecideBatch(old(State()), batch, req);
        && (spec.Ok? ==> r == Ok(()) && State() == spec.value)
        && (spec.Err? ==> r == Err(spec.error) && State() == old(State()))
    {
      hide Decide;
      if req.decision.mode != Explicit || req.decision.actor != Human || req.amendedBody.Some? {
        return Err(InvalidRequest);
      }
      var before := State();
      var rows := items;
      if forall i :: 0 <= i < |rows| ==> !InBatch(rows[i], batch) {
        return Err(ItemNotFound);
      }
      var uid := 0;
      while uid < |items|
        invariant 0 <= uid <= |items| && |items| == |rows|
        invariant DecideFrom(before, batch, req, 0) == DecideFrom(State(), batch, req, uid)
        decreases |rows| - uid
      {
        if InBatch(items[uid], batch) && items[uid].state == Pending {
          r := DecideCard(uid, req);
          if r.Err? {
            Rollback(before);
            return;
          }
        }
        uid := uid + 1;
      }
      r := Ok(());
    }

    method EnqueueCard(item: Item) returns (r: Result<(), Refusal>)
      modifies this`items
      ensures var spec := Enqueue(old(State()), item);
        && (spec.Ok? ==> r == Ok(()) && State() == spec.value)
        && (spec.Err? ==> r == Err(spec.error) && State() == old(State()))
    {
      if item.candidate !in store.heads {
        return Err(Conflict);
      }
      if item.birthplace != FromCurator && NonCuratorCardExists(items, item.candidate) {
        return Err(CandidateTaken);
      }
      items := items + [item.(state := Pending)];
      r := Ok(());
    }

    /** Route one row: a winner becomes a candidate with a card, a loser is tombstoned; the caller rolls back. */
    method ResolveRowOf(m: int, read: Head, res: Resolution, wins: bool) returns (r: Result<(), Refusal>)
      modifies this`items, store
      ensures var spec := ResolveRow(old(State()), res.principal, res.batch, m, read, wins);
        && (spec.Ok? ==> r == Ok(()) && State() == spec.value)
        && (spec.Err? ==> r == Err(spec.error))
    {
      hide WriteAt, Enqueue;
      if wins {
        r := WriteHead(m, read.revision, StatusChange(Candidate), "symphony/winner-queued");
        if r.Ok? {
          r := EnqueueCard(SymphonyCard(m, res.principal, res.batch));
        }
      } else {
        r := WriteHead(m, read.revision, StatusChange(Tombstoned), "symphony/loser-tombstone");
      }
    }

    /** Route a run: winners to the queue, losers to their tombstones, all or nothing. */
    method ResolveSymphony(run: string, res: Resolution) returns (r: Result<(), Refusal>)
      modifies this, store
      ensures var spec := Resolve(old(State()), run, res);
        && (spec.Ok? ==> r == Ok(()) && State() == spec.value)
        && (spec.Err? ==> r == Err(spec.error) && State() == old(State()))
    {
      hide ResolveRow, StagedIn, Wins;
      if !OriginInRun(run, res.winner) {
        return Err(Conflict);
      }
      if run in resolutions {
        return if resolutions[run] == res then Ok(()) else Err(Conflict);
      }
      var read := store.State();
      var rows := StagedIn(read, read.revisions, run);
      assert forall i :: 0 <= i < |rows| ==> rows[i] in rows;
      if |rows| == 0 {
        return Err(RunNotFound);
      }
      if exists i :: 0 <= i < |rows| && read.heads[rows[i]].principal != res.principal {
        return Err(Conflict);
      }
      if forall i :: 0 <= i < |rows| ==> !Wins(read, res.winner, rows[i]) {
        return Err(WinnerNotFound);
      }
      var before := State();
      resolutions := resolutions[run := res];
      ghost var noted := State();
      for i := 0 to |rows|
        invariant ResolveRows(noted, read, res.principal, res.batch, res.winner, rows[..i]) == Ok(State())
      {
        var m := rows[i];
        ResolveStep(noted, State(), read, res, rows, i);
        r := ResolveRowOf(m, read.heads[m], res, Wins(read, res.winner, m));
        if r.Err? {
          Rollback(before);
          return;
        }
      }
      assert rows[..|rows|] == rows;
      r := Ok(());
    }
  }

  // A prefix that went through, one more element, and what that says of the whole list.

  lemma {:induction false} EnactFailsOn(db: Db, c: int, principal: string, verdict: Verdict, kind: EdgeKind,
                                        targets: seq<int>, i: nat)
    requires i < |targets|
    ensures var r := EnactAll(db, c, principal, verdict, kind, targets[..i + 1]);
      r.Err? ==> EnactAll(db, c, principal, verdict, kind, targets) == r
    decreases |targets|
  {
    hide EnactTarget;
    if i + 1 == |targets| {
      assert targets[..i + 1] == targets;
    } else {
      var n := |targets| - 1;
      EnactFailsOn(db, c, principal, verdict, kind, targets[..n], i);
      assert targets[..n][..i + 1] == targets[..i + 1];
    }
  }

  lemma EnactStep(db: Db, here: Db, c: int, principal: string, verdict: Verdict, kind: EdgeKind, targets: seq<int>,
                  i: nat)
    requires i < |targets| && EnactAll(db, c, principal, verdict, kind, targets[..i]) == Ok(here)
    ensures var one := EnactTarget(here, c, principal, verdict, kind, targets[i]);
      && EnactAll(db, c, principal, verdict, kind, targets[..i + 1]) == one
      && (one.Err? ==> EnactAll(db, c, principal, verdict, kind, targets) == one)
  {
    hide EnactTarget;
    assert targets[..i + 1][..i] == targets[..i];
    EnactFailsOn(db, c, principal, verdict, kind, targets, i);
  }

  lemma NoEdgeYet(id: int)
    ensures EdgesFrom(id, []) == []
  {
  }

  lemma OneMoreEdge(id: int, ids: seq<int>, j: nat)
    requires j < |ids|
    ensures EdgesFrom(id, ids[..j + 1])
         == EdgesFrom(id, ids[..j]) + if id == ids[j] then [] else [Edge(id, ids[j], RelatesTo)]
  {
    assert ids[..j + 1][..j] == ids[..j];
  }

  lemma OneMoreSibling(ids: seq<int>, i: nat)
    requires i < |ids|
    ensures SiblingEdges(ids[..i + 1], ids) == SiblingEdges(ids[..i], ids) + EdgesFrom(ids[i], ids)
  {
    assert ids[..i + 1][..i] == ids[..i];
  }

  lemma {:induction false} ChildrenFailOn(db: Db, proto: Head, children: seq<Child>, ids: seq<int>, parent: Option<int>,
                                          reason: string, i: nat)
    requires i < |children|
    ensures var r := AddChildren(db, proto, children[..i + 1], ids, parent, reason);
      r.Err? ==> AddChildren(db, proto, children, ids, parent, reason) == r
    decreases |children|
  {
    hide Add;
    if i + 1 == |children| {
      assert children[..i + 1] == children;
    } else {
      var n := |children| - 1;
      ChildrenFailOn(db, proto, children[..n], ids, parent, reason, i);
      assert children[..n][..i + 1] == children[..i + 1];
    }
  }

  lemma ChildStep(db: Db, here: Db, proto: Head, children: seq<Child>, ids: seq<int>, parent: Option<int>,
                  reason: string, i: nat)
    requires i < |children| && AddChildren(db, proto, children[..i], ids, parent, reason) == Ok(here)
    ensures var one := if i >= |ids| then Err(WriteRefused(IdTaken))
        else Add(here, ids[i],
          proto.(title := children[i].title, body := children[i].body, status := Active, run := None), parent, reason);
      && AddChildren(db, proto, children[..i + 1], ids, parent, reason) == one
      && (one.Err? ==> AddChildren(db, proto, children, ids, parent, reason) == one)
  {
    hide Add;
    assert children[..i + 1][..i] == children[..i];
    ChildrenFailOn(db, proto, children, ids, parent, reason, i);
  }

  lemma {:induction false} ResolveFailsOn(db: Db, read: Tables, res: Resolution, rows: seq<int>, i: nat)
    requires i < |rows| && forall k :: 0 <= k < |rows| ==> rows[k] in read.heads && read.heads[rows[k]].run.Some?
    ensures var r := ResolveRows(db, read, res.principal, res.batch, res.winner, rows[..i + 1]);
      r.Err? ==> ResolveRows(db, read, res.principal, res.batch, res.winner, rows) == r
    decreases |rows|
  {
    hide ResolveRow, Wins;
    if i + 1 == |rows| {
      assert rows[..i + 1] == rows;
    } else {
      var n := |rows| - 1;
      ResolveFailsOn(db, read, res, rows[..n], i);
      assert rows[..n][..i + 1] == rows[..i + 1];
    }
  }

  lemma ResolveStep(db: Db, here: Db, read: Tables, res: Resolution, rows: seq<int>, i: nat)
    requires i < |rows| && forall k :: 0 <= k < |rows| ==> rows[k] in read.heads && read.heads[rows[k]].run.Some?
    requires ResolveRows(db, read, res.principal, res.batch, res.winner, rows[..i]) == Ok(here)
    ensures var one := ResolveRow(here, res.principal, res.batch, rows[i], read.heads[rows[i]],
      Wins(read, res.winner, rows[i]));
      && ResolveRows(db, read, res.principal, res.batch, res.winner, rows[..i + 1]) == one
      && (one.Err? ==> ResolveRows(db, read, res.principal, res.batch, res.winner, rows) == one)
  {
    hide ResolveRow, Wins;
    assert rows[..i + 1][..i] == rows[..i];
    ResolveFailsOn(db, read, res, rows, i);
  }
}
