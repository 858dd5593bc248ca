/** What each command of the queue, of splits and of Symphony writes. */
module LifecycleEffects {
  import opened Outcomes
  import opened MemoryTable
  import opened Lifecycle
  import LifecycleSteps
  import Labels

  // One head.

  lemma WriteAtWrites(db: Db, id: int, expected: nat, changes: Changes, reason: string)
    requires WriteAt(db, id, expected, changes, reason).Ok?
    ensures var next := WriteAt(db, id, expected, changes, reason).value;
      && id in db.t.heads && db.t.heads[id].revision == expected
      && next == db.(t := next.t)
      && var h := db.t.heads[id];
         next.t.heads == db.t.heads[id := h.(
           title := if changes.title.Some? then changes.title.value else h.title,
           body := if changes.body.Some? then changes.body.value else h.body,
           status := if changes.status.Some? then changes.status.value else h.status,
           revision := h.revision + 1)]
    ensures |WriteAt(db, id, expected, changes, reason).value.t.revisions| == |db.t.revisions| + 1
  {
    hide MatchingRows, LabelTaken;
  }

  lemma AddWrites(db: Db, id: int, h: Head, parent: Option<int>, reason: string)
    requires Add(db, id, h, parent, reason).Ok?
    ensures id !in db.t.heads
    ensures Add(db, id, h, parent, reason).value == db.(t := Tables(
      db.t.heads[id := h.(revision := 1)], db.t.revisions + [Revision(id, 1, parent, h.title, h.body, reason)]))
  {
    hide LabelTaken;
  }

  // Targets.

  lemma EnactTargetWrites(db: Db, c: int, principal: string, verdict: Verdict, kind: EdgeKind, target: int)
    requires EnactTarget(db, c, principal, verdict, kind, target).Ok?
    ensures target in db.t.heads
      && db.t.heads[target].principal == principal && db.t.heads[target].status == Active
    ensures var next := EnactTarget(db, c, principal, verdict, kind, target).value; var h := db.t.heads[target];
      && next == db.(t := next.t, edges := db.edges + [Edge(c, target, kind)])
      && next.t.heads ==
           if verdict == Merge || verdict == Supersede
           then db.t.heads[target := h.(status := Tombstoned, revision := h.revision + 1)] else db.t.heads
  {
    if verdict == Merge || verdict == Supersede {
      WriteAtWrites(db, target, db.t.heads[target].revision, StatusChange(Tombstoned), "replaced");
    }
    hide WriteAt;
  }

  /** The heads after enactment: replaced targets are tombstoned, every other head is as it was. */
  ghost predicate TargetsClosed(before: map<int, Head>, after: map<int, Head>, closing: bool, targets: seq<int>) {
    && after.Keys == before.Keys
    && forall m :: m in before ==>
         var h := before[m];
         after[m] == if closing && m in targets then h.(status := Tombstoned, revision := h.revision + 1) else h
  }

  /** The edges after enactment: one per target, in order. */
  ghost predicate TargetsLinked(before: seq<Edge>, after: seq<Edge>, c: int, kind: EdgeKind, targets: seq<int>) {
    && |after| == |before| + |targets| && after[..|before|] == before
    && forall i :: 0 <= i < |targets| ==> after[|before| + i] == Edge(c, targets[i], kind)
  }

  ghost predicate TargetsOpen(heads: map<int, Head>, principal: string, targets: seq<int>) {
    forall i :: 0 <= i < |targets| ==>
      targets[i] in heads && heads[targets[i]].principal == principal && heads[targets[i]].status == Active
  }

  lemma ClosedOneMore(before: map<int, Head>, mid: map<int, Head>, after: map<int, Head>, closing: bool,
                      principal: string, targets: seq<int>)
    requires |targets| > 0
    requires TargetsClosed(before, mid, closing, targets[..|targets| - 1])
    requires TargetsOpen(before, principal, targets[..|targets| - 1])
    requires var last := targets[|targets| - 1];
      last in mid && mid[last].principal == principal && mid[last].status == Active
      && after == if closing
                  then mid[last := mid[last].(status := Tombstoned, revision := mid[last].revision + 1)] else mid
    ensures TargetsClosed(before, after, closing, targets) && TargetsOpen(before, principal, targets)
  {
    var n := |targets| - 1;
    var last := targets[n];
    assert targets == targets[..n] + [last];
    assert last in before && (closing ==> last !in targets[..n]);
    forall i | 0 <= i < |targets|
      ensures targets[i] in before && before[targets[i]].principal == principal && before[targets[i]].status == Active
    {
      if i < n {
        assert targets[..n][i] == targets[i];
      }
    }
  }

  lemma LinkedOneMore(before: seq<Edge>, mid: seq<Edge>, c: int, kind: EdgeKind, targets: seq<int>)
    requires |targets| > 0 && TargetsLinked(before, mid, c, kind, targets[..|targets| - 1])
    ensures TargetsLinked(before, mid + [Edge(c, targets[|targets| - 1], kind)], c, kind, targets)
  {
    var n := |targets| - 1;
    var after := mid + [Edge(c, targets[n], kind)];
    forall i | 0 <= i < |targets|
      ensures after[|before| + i] == Edge(c, targets[i], kind)
    {
      if i < n {
        assert targets[..n][i] == targets[i] && after[|before| + i] == mid[|before| + i];
      }
    }
    assert after[..|before|] == mid[..|before|];
  }

  lemma {:induction false} EnactAllWrites(db: Db, c: int, principal: string, verdict: Verdict, kind: EdgeKind,
                                          targets: seq<int>)
    requires EnactAll(db, c, principal, verdict, kind, targets).Ok?
    ensures var next := EnactAll(db, c, principal, verdict, kind, targets).value;
      && next == db.(t := next.t, edges := next.edges)
      && TargetsClosed(db.t.heads, next.t.heads, verdict == Merge || verdict == Supersede, targets)
      && TargetsLinked(db.edges, next.edges, c, kind, targets)
    ensures TargetsOpen(db.t.heads, principal, targets)
  {
    hide EnactTarget;
    if |targets| > 0 {
      var n := |targets| - 1;
      EnactAllWrites(db, c, principal, verdict, kind, targets[..n]);
      var mid := EnactAll(db, c, principal, verdict, kind, targets[..n]).value;
      EnactTargetWrites(mid, c, principal, verdict, kind, targets[n]);
      var next := EnactTarget(mid, c, principal, verdict, kind, targets[n]).value;
      ClosedOneMore(db.t.heads, mid.t.heads, next.t.heads, verdict == Merge || verdict == Supersede, principal,
                    targets);
      LinkedOneMore(db.edges, mid.edges, c, kind, targets);
      hide TargetsClosed, TargetsLinked, TargetsOpen;
    }
  }

  // Decisions.

  /** A first decision closes its card and records itself, and touches no other card. */
  lemma DecisionIsRecorded(db: Db, uid: nat, req: Request)
    requires Decide(db, uid, req).Ok? && uid !in db.decisions
    ensures var next := Decide(db, uid, req).value;
      && uid < |db.items|
      && next.items == db.items[uid := db.items[uid].(
           state := if req.decision.vote == Approve then Approved else Rejected)]
      && next.decisions == db.decisions[uid := req.decision]
      && next.resolutions == db.resolutions
  {
    var item := db.items[uid];
    var c := item.candidate;
    if item.birthplace == FromCurator {
      CuratorEffectKeeps(db, item, db.t.heads[c], req);
    }
    hide CandidateEffect, CuratorEffect;
  }

  lemma CuratorEffectKeeps(db: Db, item: Item, candidate: Head, req: Request)
    requires item.candidate in db.t.heads && CuratorEffect(db, item, candidate, req).Ok?
    ensures var next := CuratorEffect(db, item, candidate, req).value;
      next == db.(t := next.t, edges := next.edges)
  {
    hide WriteAt, AddFamily, EnactTargets;
    var written := WriteAt(db, item.candidate, db.t.heads[item.candidate].revision, StatusChange(Tombstoned),
      "curation/split-source");
    if req.decision.vote == Approve && item.verdict == Split && written.Ok? {
      assert AddFamily(written.value, candidate, item.children, req.newIds, Some(|written.value.t.revisions| - 1),
        "curation/split-child").Ok?;
    }
  }

  /** What a decided card does with its targets: replacements and contradictions link, replacements tombstone. */
  ghost predicate TargetsEnacted(db: Db, next: Db, item: Item)
    requires item.candidate in db.t.heads
  {
    && TargetsClosed(db.t.heads, next.t.heads[item.candidate := db.t.heads[item.candidate]],
                     item.verdict == Merge || item.verdict == Supersede, item.targets)
    && (item.verdict == Merge ==> TargetsLinked(db.edges, next.edges, item.candidate, MergedFrom, item.targets))
    && (item.verdict == Supersede ==> TargetsLinked(db.edges, next.edges, item.candidate, Supersedes, item.targets))
    && (item.verdict == Contradict ==> TargetsLinked(db.edges, next.edges, item.candidate, Contradicts, item.targets))
    && (item.verdict == Merge || item.verdict == Supersede || item.verdict == Contradict ==>
         TargetsOpen(db.t.heads, db.t.heads[item.candidate].principal, item.targets))
    && (!(item.verdict == Merge || item.verdict == Supersede || item.verdict == Contradict) ==> next.edges == db.edges)
  }

  /** Nothing but the candidate's head changes. */
  ghost predicate OnlyCandidate(db: Db, next: Db, c: int, after: Head) {
    next.edges == db.edges && next.t.heads == db.t.heads[c := after]
  }

  lemma EnactTargetsWrites(db: Db, item: Item)
    requires item.candidate in db.t.heads && EnactTargets(db, item).Ok?
    requires db.t.heads[item.candidate].status == Candidate || item.verdict == Contradict
    ensures var next := EnactTargets(db, item).value;
      && next == db.(t := next.t, edges := next.edges) && item.candidate in next.t.heads
      && next.t.heads[item.candidate] == db.t.heads[item.candidate]
      && TargetsEnacted(db, next, item)
  {
    var c := item.candidate;
    var next := EnactTargets(db, item).value;
    if KindOf(item.verdict).Some? {
      EnactAllWrites(db, c, db.t.heads[c].principal, item.verdict, KindOf(item.verdict).value, item.targets);
      hide EnactAll, TargetsLinked;
      if c in item.targets {
        var i :| 0 <= i < |item.targets| && item.targets[i] == c;
        assert db.t.heads[item.targets[i]].status == Active;
      }
    }
    assert next.t.heads[c := db.t.heads[c]] == next.t.heads;
  }

  /**
   * A consent card decided for the first time: its candidate waits as a candidate and no text is amended. A denial
   * tombstones it; an approval enacts its targets and activates it under a label that no other active memory of
   * its principal has, its own if that is free.
   */
  lemma CandidateDecided(db: Db, uid: nat, req: Request)
    requires Decide(db, uid, req).Ok? && uid < |db.items| && uid !in db.decisions
    requires db.items[uid].birthplace != FromCurator
    ensures var item := db.items[uid];
      && item.candidate in db.t.heads && db.t.heads[item.candidate].status == Candidate
      && req.amendedBody == None && !(item.verdict == Contradict && req.decision.mode == Passive)
    ensures var item, next := db.items[uid], Decide(db, uid, req).value;
      var c := item.candidate; var h := db.t.heads[c];
      c in next.t.heads && var g := next.t.heads[c];
      if req.decision.vote == Deny then
        OnlyCandidate(db, next, c, h.(status := Tombstoned, revision := h.revision + 1))
      else
        && TargetsEnacted(db, next, item)
        && g == h.(title := g.title, status := Active, revision := h.revision + 1)
        && LabelFree(next.t.heads, c, h.principal, g.title)
        && (LabelFree(next.t.heads, c, h.principal, h.title) ==> g.title == h.title)
  {
    var item := db.items[uid];
    var c := item.candidate;
    var h := db.t.heads[c];
    if req.decision.vote == Deny {
      WriteAtWrites(db, c, h.revision, StatusChange(Tombstoned), "rejected");
      hide WriteAt;
    } else {
      var e := EnactTargets(db, item).value;
      EnactTargetsWrites(db, item);
      hide EnactTargets;
      var title := Labels.Approved(ActiveTitles(e.t.heads, h.principal), h.title, h.qualifier, LABEL_MAX);
      WriteAtWrites(e, c, h.revision, Changes(Some(title), None, Some(Active), false), "approved");
      var next := CandidateEffect(db, item, req).value;
      ActivatedLast(db, e, next, item);
      ApprovedIsFree(e.t.heads, next.t.heads, c, h.principal, h.title, h.qualifier);
      hide WriteAt, TargetsEnacted, Labels.Approved, ActiveTitles, LabelFree;
    }
  }

  lemma ActivatedLast(db: Db, e: Db, next: Db, item: Item)
    requires item.candidate in db.t.heads && item.candidate in e.t.heads && item.candidate in next.t.heads
    requires TargetsEnacted(db, e, item) && next.edges == e.edges
    requires next.t.heads == e.t.heads[item.candidate := next.t.heads[item.candidate]]
    ensures TargetsEnacted(db, next, item)
  {
    var c := item.candidate;
    assert next.t.heads[c := db.t.heads[c]] == e.t.heads[c := db.t.heads[c]];
  }

  /** No other active memory of the principal has the label. */
  ghost predicate LabelFree(heads: map<int, Head>, c: int, principal: string, title: string) {
    forall m :: m in heads && m != c && heads[m].status == Active && heads[m].principal == principal
      ==> heads[m].title != title
  }

  lemma ApprovedIsFree(before: map<int, Head>, after: map<int, Head>, c: int, principal: string, base: string,
                       qualifier: string)
    requires c in before && before[c].status == Candidate && c in after && after == before[c := after[c]]
    ensures var title := Labels.Approved(ActiveTitles(before, principal), base, qualifier, LABEL_MAX);
      && LabelFree(after, c, principal, title)
      && (LabelFree(after, c, principal, base) ==> title == base)
  {
    var active := ActiveTitles(before, principal);
    var title := Labels.Approved(active, base, qualifier, LABEL_MAX);
    Labels.ApprovedIsUnused(active, base, qualifier, LABEL_MAX);
    hide Labels.Approved;
    forall m | m in after && m != c && after[m].status == Active && after[m].principal == principal
      ensures after[m].title in active
    {
      assert before[m] == after[m];
    }
    if base in active {
      var m :| m in before && before[m].status == Active && before[m].principal == principal && before[m].title == base;
      assert after[m] == before[m];
    }
  }

  // Families.

  /** The children's rows: each child active under its own title and body, as a first revision from the parent row. */
  ghost predicate ChildrenAdded(before: Tables, after: Tables, proto: Head, children: seq<Child>, ids: seq<int>,
                                parent: Option<int>, reason: string)
  {
    && |ids| >= |children|
    && (forall i :: 0 <= i < |children| ==>
         && ids[i] !in before.heads && ids[i] in after.heads
         && after.heads[ids[i]]
              == Head(proto.principal, children[i].title, children[i].body, proto.qualifier, None, Active, 1))
    && (forall i, j :: 0 <= i < j < |children| ==> ids[i] != ids[j])
    && (forall m :: m in before.heads ==> m in after.heads && after.heads[m] == before.heads[m])
    && (forall m :: m in after.heads ==> m in before.heads || m in ids[..|children|])
    && |after.revisions| == |before.revisions| + |children| && after.revisions[..|before.revisions|] == before.revisions
    && (forall i :: 0 <= i < |children| ==>
         after.revisions[|before.revisions| + i]
           == Revision(ids[i], 1, parent, children[i].title, children[i].body, reason))
  }

  lemma ChildAdded(before: Tables, mid: Tables, after: Tables, proto: Head, children: seq<Child>, ids: seq<int>,
                   parent: Option<int>, reason: string)
    requires 0 < |children| <= |ids|
    requires ChildrenAdded(before, mid, proto, children[..|children| - 1], ids, parent, reason)
    requires var n := |children| - 1;
      && ids[n] !in mid.heads
      && after.heads == mid.heads[ids[n] :=
           Head(proto.principal, children[n].title, children[n].body, proto.qualifier, None, Active, 1)]
      && after.revisions
           == mid.revisions + [Revision(ids[n], 1, parent, children[n].title, children[n].body, reason)]
    ensures ChildrenAdded(before, after, proto, children, ids, parent, reason)
  {
    var n := |children| - 1;
    assert ids[..n + 1] == ids[..n] + [ids[n]];
    assert forall i :: 0 <= i < n ==> children[..n][i] == children[i];
    forall i | 0 <= i < n
      ensures ids[i] in mid.heads && ids[i] != ids[n]
    {
    }
    forall i | 0 <= i < |children|
      ensures after.revisions[|before.revisions| + i]
           == Revision(ids[i], 1, parent, children[i].title, children[i].body, reason)
    {
      if i < n {
        assert after.revisions[|before.revisions| + i] == mid.revisions[|before.revisions| + i];
      }
    }
    assert after.revisions[..|before.revisions|] == mid.revisions[..|before.revisions|];
  }

  lemma {:induction false} AddChildrenWrites(db: Db, proto: Head, children: seq<Child>, ids: seq<int>,
                                             parent: Option<int>, reason: string)
    requires AddChildren(db, proto, children, ids, parent, reason).Ok?
    ensures var next := AddChildren(db, proto, children, ids, parent, reason).value;
      next == db.(t := next.t) && ChildrenAdded(db.t, next.t, proto, children, ids, parent, reason)
  {
    if |children| > 0 {
      var n := |children| - 1;
      AddChildrenWrites(db, proto, children[..n], ids, parent, reason);
      var mid := AddChildren(db, proto, children[..n], ids, parent, reason).value;
      var child := proto.(title := children[n].title, body := children[n].body, status := Active, run := None);
      AddWrites(mid, ids[n], child, parent, reason);
      var next := Add(mid, ids[n], child, parent, reason).value;
      hide Add, ChildrenAdded;
      ChildAdded(db.t, mid.t, next.t, proto, children, ids, parent, reason);
    }
  }

  /** Every two of the family are related, both ways, once. */
  ghost predicate SiblingsRelated(before: seq<Edge>, after: seq<Edge>, ids: seq<int>) {
    && |after| >= |before| && after[..|before|] == before
    && forall a, b, kind :: Edge(a, b, kind) in after[|before|..] <==>
         kind == RelatesTo && a in ids && b in ids && a != b
  }

  lemma {:induction false} EdgesFromAre(left: int, ids: seq<int>, e: Edge)
    ensures e in EdgesFrom(left, ids) <==>
      e.kind == RelatesTo && e.source == left && e.target in ids && e.target != left
  {
    if |ids| > 0 {
      EdgesFromAre(left, ids[..|ids| - 1], e);
      assert ids == ids[..|ids| - 1] + [ids[|ids| - 1]];
    }
  }

  lemma {:induction false} SiblingEdgesAre(lefts: seq<int>, ids: seq<int>, e: Edge)
    ensures e in SiblingEdges(lefts, ids) <==>
      e.kind == RelatesTo && e.source in lefts && e.target in ids && e.target != e.source
  {
    if |lefts| > 0 {
      var n := |lefts| - 1;
      SiblingEdgesAre(lefts[..n], ids, e);
      EdgesFromAre(lefts[n], ids, e);
      assert lefts == lefts[..n] + [lefts[n]];
      hide EdgesFrom;
    }
  }

  lemma AddFamilyWrites(db: Db, proto: Head, children: seq<Child>, ids: seq<int>, parent: Option<int>, reason: string)
    requires AddFamily(db, proto, children, ids, parent, reason).Ok?
    ensures var next := AddFamily(db, proto, children, ids, parent, reason).value;
      && |children| <= |ids| && next == db.(t := next.t, edges := next.edges)
      && ChildrenAdded(db.t, next.t, proto, children, ids, parent, reason)
      && SiblingsRelated(db.edges, next.edges, ids[..|children|])
  {
    AddChildrenWrites(db, proto, children, ids, parent, reason);
    var used := ids[..|children|];
    var next := AddFamily(db, proto, children, ids, parent, reason).value;
    hide AddChildren, ChildrenAdded, SiblingEdges;
    assert next.edges[|db.edges|..] == SiblingEdges(used, used);
    forall a, b, kind
      ensures Edge(a, b, kind) in next.edges[|db.edges|..] <==>
        kind == RelatesTo && a in used && b in used && a != b
    {
      SiblingEdgesAre(used, used, Edge(a, b, kind));
    }
  }

  /**
   * A split on remembering: two to sixty-four children with titles within the limit, no title and no body twice. The
   * exact source is kept as a tombstone, the children are active and relate to each other.
   */
  lemma SplitWrites(db: Db, id: int, source: Head, children: seq<Child>, ids: seq<int>)
    requires SplitSource(db, id, source, children, ids).Ok?
    ensures 2 <= |children| <= 64 && forall i :: 0 <= i < |children| ==> |children[i].title| <= 64
    ensures forall i, j :: 0 <= i < j < |children| ==>
      children[i].title != children[j].title && children[i].body != children[j].body
    ensures id !in db.t.heads
    ensures var next := SplitSource(db, id, source, children, ids).value;
      var root := Head(source.principal, source.title, source.body, source.qualifier, None, Tombstoned, 1);
      && |children| <= |ids| && next == db.(t := next.t, edges := next.edges)
      && ChildrenAdded(
           Tables(db.t.heads[id := root],
                  db.t.revisions + [Revision(id, 1, None, source.title, source.body, "remember/source-split")]),
           next.t, source, children, ids, Some(|db.t.revisions|), "remember/split-child")
      && SiblingsRelated(db.edges, next.edges, ids[..|children|])
  {
    var root := source.(status := Tombstoned, run := None);
    AddWrites(db, id, root, None, "remember/source-split");
    var written := Add(db, id, root, None, "remember/source-split").value;
    hide Add;
    AddFamilyWrites(written, source, children, ids, Some(|written.t.revisions| - 1), "remember/split-child");
    hide AddFamily, ChildrenAdded, SiblingsRelated;
  }

  /** Children that fit, and only they, are accepted for a split. */
  lemma SplitRefuses(db: Db, id: int, source: Head, children: seq<Child>, ids: seq<int>)
    ensures SplitSource(db, id, source, children, ids) == Err(InvalidRequest) <==>
      !(&& 2 <= |children| <= 64
        && (forall i :: 0 <= i < |children| ==> |children[i].title| <= 64)
        && (forall i, j :: 0 <= i < j < |children| ==>
             children[i].title != children[j].title && children[i].body != children[j].body))
  {
    FamilyNeverInvalid(db, id, source, children, ids);
    hide Add, AddFamily;
  }

  // Curator cards.

  /**
   * A curator card decided for the first time needs an explicit human decision on the revision that the card names.
   * A denial tombstones a waiting candidate and nothing else; an approval does what the verdict says.
   */
  lemma CuratorDecided(db: Db, uid: nat, req: Request)
    requires Decide(db, uid, req).Ok? && uid < |db.items| && uid !in db.decisions
    requires db.items[uid].birthplace == FromCurator
    ensures var item := db.items[uid];
      && item.candidate in db.t.heads && db.t.heads[item.candidate].revision == item.candidateRevision
      && req.decision.mode == Explicit && req.decision.actor == Human
      && (req.amendedBody.Some? ==>
           (item.verdict == Merge || item.verdict == Supersede) && req.decision.vote == Approve)
    ensures var item, next := db.items[uid], Decide(db, uid, req).value;
      var c := item.candidate; var h := db.t.heads[c];
      var closed := h.(status := Tombstoned, revision := h.revision + 1);
      if req.decision.vote == Deny then
        OnlyCandidate(db, next, c, if h.status == Candidate then closed else h)
      else match item.verdict
        case Merge | Supersede =>
          && h.status == Candidate && TargetsEnacted(db, next, item) && c in next.t.heads
          && next.t.heads[c] == h.(
               body := if req.amendedBody.Some? then req.amendedBody.value else h.body,
               status := Active, revision := h.revision + 1)
        case Contradict => h.status == Active && TargetsEnacted(db, next, item) && next.t == db.t
        case Retire => OnlyCandidate(db, next, c, closed)
        case KeywordRepair => OnlyCandidate(db, next, c, h.(revision := h.revision + 1))
        case Split =>
          && h.status == Active && |item.children| <= |req.newIds|
          && |next.t.revisions| > |db.t.revisions|
          && ChildrenAdded(Tables(db.t.heads[c := closed], next.t.revisions[..|db.t.revisions| + 1]), next.t, h,
               item.children, req.newIds, Some(|db.t.revisions|), "curation/split-child")
          && SiblingsRelated(db.edges, next.edges, req.newIds[..|item.children|])
        case New => false
  {
    var item := db.items[uid];
    var c := item.candidate;
    var h := db.t.heads[c];
    if req.decision.vote == Deny || item.verdict == Retire || item.verdict == KeywordRepair {
      OneWriteWrites(db, item, req);
    } else if item.verdict == Split {
      SplitEffectWrites(db, item, req);
    } else {
      LinkingWrites(db, item, req);
    }
    hide CuratorEffect, ChildrenAdded, SiblingsRelated, TargetsClosed, TargetsLinked, TargetsOpen;
  }

  lemma OneWriteWrites(db: Db, item: Item, req: Request)
    requires item.candidate in db.t.heads && CuratorEffect(db, item, db.t.heads[item.candidate], req).Ok?
    requires req.decision.vote == Deny || item.verdict == Retire || item.verdict == KeywordRepair
    ensures var c := item.candidate; var h := db.t.heads[c];
      var next := CuratorEffect(db, item, h, req).value;
      OnlyCandidate(db, next, c,
        if req.decision.vote == Deny && h.status != Candidate then h
        else if req.decision.vote == Approve && item.verdict == KeywordRepair then h.(revision := h.revision + 1)
        else h.(status := Tombstoned, revision := h.revision + 1))
  {
    var c := item.candidate; var h := db.t.heads[c];
    if req.decision.vote == Deny {
      if h.status == Candidate {
        WriteAtWrites(db, c, h.revision, StatusChange(Tombstoned), "curation/rejected");
      }
    } else if item.verdict == Retire {
      WriteAtWrites(db, c, h.revision, StatusChange(Tombstoned), "curation/retire");
    } else {
      WriteAtWrites(db, c, h.revision, Changes(None, None, None, true), "curation/keyword-repair");
    }
    hide WriteAt;
  }

  lemma SplitEffectWrites(db: Db, item: Item, req: Request)
    requires item.candidate in db.t.heads && CuratorEffect(db, item, db.t.heads[item.candidate], req).Ok?
    requires req.decision.vote == Approve && item.verdict == Split
    ensures var c := item.candidate; var h := db.t.heads[c];
      var next := CuratorEffect(db, item, h, req).value;
      && h.status == Active && |item.children| <= |req.newIds| && |next.t.revisions| > |db.t.revisions|
      && ChildrenAdded(
           Tables(db.t.heads[c := h.(status := Tombstoned, revision := h.revision + 1)],
                  next.t.revisions[..|db.t.revisions| + 1]),
           next.t, h, item.children, req.newIds, Some(|db.t.revisions|), "curation/split-child")
      && SiblingsRelated(db.edges, next.edges, req.newIds[..|item.children|])
  {
    var c := item.candidate; var h := db.t.heads[c];
    WriteAtWrites(db, c, h.revision, StatusChange(Tombstoned), "curation/split-source");
    var w := WriteAt(db, c, h.revision, StatusChange(Tombstoned), "curation/split-source").value;
    hide WriteAt;
    AddFamilyWrites(w, h, item.children, req.newIds, Some(|w.t.revisions| - 1), "curation/split-child");
    hide AddFamily, SiblingsRelated;
    var next := CuratorEffect(db, item, h, req).value;
    assert next.t.revisions[..|db.t.revisions| + 1] == w.t.revisions;
    assert w.t == Tables(w.t.heads, w.t.revisions);
    hide ChildrenAdded;
  }

  lemma LinkingWrites(db: Db, item: Item, req: Request)
    requires item.candidate in db.t.heads && CuratorEffect(db, item, db.t.heads[item.candidate], req).Ok?
    requires req.decision.vote == Approve
      && (item.verdict == Merge || item.verdict == Supersede || item.verdict == Contradict)
    ensures var c := item.candidate; var h := db.t.heads[c];
      var next := CuratorEffect(db, item, h, req).value;
      && c in next.t.heads && TargetsEnacted(db, next, item)
      && (if item.verdict == Contradict then h.status == Active && next.t == db.t
          else h.status == Candidate && next.t.heads[c] == h.(
            body := if req.amendedBody.Some? then req.amendedBody.value else h.body,
            status := Active, revision := h.revision + 1))
  {
    var c := item.candidate; var h := db.t.heads[c];
    EnactTargetsWrites(db, item);
    var e := EnactTargets(db, item).value;
    if item.verdict == Contradict {
      ContradictsOnly(db, c, h.principal, item.targets);
      hide EnactTargets, TargetsEnacted;
    } else {
      hide EnactTargets;
      var changes := Changes(None, req.amendedBody, Some(Active), false);
      WriteAtWrites(e, c, h.revision, changes, "curation/activate");
      hide WriteAt;
      ActivatedLast(db, e, CuratorEffect(db, item, h, req).value, item);
      hide TargetsEnacted;
    }
  }

  lemma {:induction false} ContradictsOnly(db: Db, c: int, principal: string, targets: seq<int>)
    ensures var r := EnactAll(db, c, principal, Contradict, Contradicts, targets); r.Ok? ==> r.value.t == db.t
  {
    if |targets| > 0 {
      ContradictsOnly(db, c, principal, targets[..|targets| - 1]);
    }
  }

  lemma {:induction false} ChildrenNeverInvalid(db: Db, proto: Head, children: seq<Child>, ids: seq<int>,
                                                parent: Option<int>, reason: string)
    ensures AddChildren(db, proto, children, ids, parent, reason) != Err(InvalidRequest)
  {
    hide LabelTaken;
    if |children| > 0 {
      ChildrenNeverInvalid(db, proto, children[..|children| - 1], ids, parent, reason);
    }
  }

  lemma FamilyNeverInvalid(db: Db, id: int, source: Head, children: seq<Child>, ids: seq<int>)
    ensures var w := Add(db, id, source.(status := Tombstoned, run := None), None, "remember/source-split");
      && w != Err(InvalidRequest)
      && (w.Ok? ==>
           AddFamily(w.value, source, children, ids, Some(|w.value.t.revisions| - 1), "remember/split-child")
             != Err(InvalidRequest))
  {
    var w := Add(db, id, source.(status := Tombstoned, run := None), None, "remember/source-split");
    if w.Ok? {
      ChildrenNeverInvalid(w.value, source, children, ids, Some(|w.value.t.revisions| - 1), "remember/split-child");
    }
    hide LabelTaken;
  }

  // Cards and single writes.

  /**
   * A card is queued for a memory that exists and, unless it is a curator card, has no such card yet; it is
   * appended as pending.
   */
  lemma EnqueueWrites(db: Db, item: Item)
    ensures Enqueue(db, item) ==
      if item.candidate !in db.t.heads then Err(Conflict)
      else if item.birthplace != FromCurator && exists u ::
                0 <= u < |db.items| && db.items[u].candidate == item.candidate && db.items[u].birthplace != FromCurator
      then Err(CandidateTaken)
      else Ok(db.(items := db.items + [item.(state := Pending)]))
  {
  }

  /** A drafted card is queued if its targets are all fetched, active and the principal's; else its draft is closed. */
  lemma DraftWrites(db: Db, item: Item, neighbours: seq<int>)
    requires item.candidate in db.t.heads && (item.birthplace == FromThread || item.birthplace == FromSeed)
    ensures var r := Step(db, EnqueueDraft(item, neighbours));
      if forall i :: 0 <= i < |item.targets| ==>
           && item.targets[i] in neighbours && item.targets[i] in db.t.heads
           && db.t.heads[item.targets[i]].status == Active && db.t.heads[item.targets[i]].principal == item.principal
      then r == Enqueue(db, item)
      else r.Ok? ==>
        && r.value == db.(t := r.value.t)
        && var h := db.t.heads[item.candidate];
           r.value.t.heads == db.t.heads[item.candidate := h.(status := Tombstoned, revision := h.revision + 1)]
  {
    hide Enqueue;
    var changes := StatusChange(Tombstoned);
    if WriteAt(db, item.candidate, db.t.heads[item.candidate].revision, changes, "invalid_queue_target").Ok? {
      WriteAtWrites(db, item.candidate, db.t.heads[item.candidate].revision, changes, "invalid_queue_target");
    }
    hide WriteAt;
  }

  /** The status in which each command creates a memory; only a staged one keeps its run. */
  lemma CreatedAs(db: Db, id: int, h: Head)
    requires id !in db.t.heads
    ensures var r := Step(db, Create(id, h));
      r.Ok? ==> r.value.t.heads == db.t.heads[id := h.(status := Active, run := None, revision := 1)]
    ensures var r := Step(db, CreateCandidate(id, h));
      r.Ok? ==> r.value.t.heads == db.t.heads[id := h.(status := Candidate, run := None, revision := 1)]
    ensures var r := Step(db, CreateSource(id, h));
      r.Ok? ==> r.value.t.heads == db.t.heads[id := h.(status := Tombstoned, run := None, revision := 1)]
    ensures var r := Step(db, StageMemory(id, h));
      r.Ok? ==> h.run.Some? && r.value.t.heads == db.t.heads[id := h.(status := Staged, revision := 1)]
    ensures forall c :: c in [Create(id, h), CreateCandidate(id, h), CreateSource(id, h), StageMemory(id, h)] ==>
      var r := Step(db, c); r.Ok? ==> r.value == db.(t := r.value.t)
  {
    hide LabelTaken;
  }

  /** Staging again is accepted exactly for the same content and origin while it is still staged. */
  lemma StagedAgain(db: Db, id: int, h: Head)
    requires id in db.t.heads && h.run.Some?
    ensures var known := db.t.heads[id];
      Step(db, StageMemory(id, h)) ==
        if known.status == Staged && known.principal == h.principal && known.run == h.run
           && known.title == h.title && known.body == h.body
        then Ok(db) else Err(Conflict)
  {
  }

  /** A gate's write on a head keeps everything but its revision, and quarantines only an active memory. */
  lemma InjectedWrites(db: Db, id: int, quarantine: bool)
    requires Step(db, Injected(id, quarantine)).Ok?
    ensures var next := Step(db, Injected(id, quarantine)).value;
      && id in db.t.heads && next == db.(t := next.t)
      && var h := db.t.heads[id];
         next.t.heads == db.t.heads[id := h.(
           status := if quarantine && h.status == Active then Quarantined else h.status, revision := h.revision + 1)]
  {
    var h := db.t.heads[id];
    if quarantine && h.status == Active {
      WriteAtWrites(db, id, h.revision, Changes(None, None, Some(Quarantined), true), "inject/commit:removed:never");
    } else {
      WriteAtWrites(db, id, h.revision, Changes(None, None, None, true), "inject");
    }
    hide WriteAt;
  }

  // Batches.

  ghost predicate BatchCard(item: Item, batch: int) {
    item.batch == Some(batch) && (item.birthplace == FromSeed || item.birthplace == FromSymphony)
  }

  /** Cards from some position on, decided alike if they are pending cards of the batch, untouched otherwise. */
  ghost predicate DecidedAlike(db: Db, next: Db, batch: int, d: Decision, from: nat) {
    && |next.items| == |db.items| && next.resolutions == db.resolutions
    && (forall u :: 0 <= u < |db.items| ==>
         next.items[u] ==
           if u >= from && BatchCard(db.items[u], batch) && db.items[u].state == Pending
           then db.items[u].(state := if d.vote == Approve then Approved else Rejected) else db.items[u])
    && (forall u: nat ::
         if from <= u < |db.items| && BatchCard(db.items[u], batch) && db.items[u].state == Pending
         then u in next.decisions && next.decisions[u] == d
         else (u in next.decisions <==> u in db.decisions)
              && (u in db.decisions ==> next.decisions[u] == db.decisions[u]))
  }

  lemma DecidedAlikeStep(db: Db, mid: Db, next: Db, batch: int, d: Decision, from: nat)
    requires from < |db.items| && BatchCard(db.items[from], batch) && db.items[from].state == Pending
    requires mid.resolutions == db.resolutions && mid.decisions == db.decisions[from := d]
    requires mid.items
      == db.items[from := db.items[from].(state := if d.vote == Approve then Approved else Rejected)]
    requires DecidedAlike(mid, next, batch, d, from + 1)
    ensures DecidedAlike(db, next, batch, d, from)
  {
    forall u | 0 <= u < |db.items| && u != from
      ensures mid.items[u] == db.items[u]
    {
    }
    hide BatchCard;
  }

  lemma {:induction false} DecideFromWrites(db: Db, batch: int, req: Request, from: nat)
    requires DecideFrom(db, batch, req, from).Ok?
    requires forall u: nat :: u < |db.items| && db.items[u].state == Pending ==> u !in db.decisions
    ensures DecidedAlike(db, DecideFrom(db, batch, req, from).value, batch, req.decision, from)
    decreases |db.items| - from
  {
    hide Decide;
    if from < |db.items| {
      if BatchCard(db.items[from], batch) && db.items[from].state == Pending {
        var mid := Decide(db, from, req).value;
        DecisionIsRecorded(db, from, req);
        DecideFromWrites(mid, batch, req, from + 1);
        DecidedAlikeStep(db, mid, DecideFrom(db, batch, req, from).value, batch, req.decision, from);
      } else {
        DecideFromWrites(db, batch, req, from + 1);
        hide DecideFrom;
      }
    }
  }

  /** A batch decision decides every pending seed or Symphony card of the batch alike, and no other card. */
  lemma BatchWrites(db: Db, batch: int, req: Request)
    requires DecideBatch(db, batch, req).Ok?
    requires forall u: nat :: u < |db.items| && db.items[u].state == Pending ==> u !in db.decisions
    ensures DecidedAlike(db, DecideBatch(db, batch, req).value, batch, req.decision, 0)
    ensures req.decision.mode == Explicit && req.decision.actor == Human && req.amendedBody == None
    ensures exists u :: 0 <= u < |db.items| && BatchCard(db.items[u], batch)
  {
    DecideFromWrites(db, batch, req, 0);
    hide DecideFrom, DecidedAlike;
  }

  // Resolutions.

  lemma PrefixIs(s: string, p: string)
    ensures p <= s <==> exists rest :: s == p + rest
  {
    if p <= s {
      assert s == p + s[|p|..];
    }
  }

  /** The origin is the winner's or lies beneath it. */
  ghost predicate Beneath(origin: string, winner: string) {
    origin == winner || exists rest :: origin == winner + "." + rest
  }

  lemma WinsIsBeneath(t: Tables, winner: string, m: int)
    requires m in t.heads && t.heads[m].run.Some?
    ensures Wins(t, winner, m) <==> Beneath(t.heads[m].run.value.origin, winner)
  {
    PrefixIs(t.heads[m].run.value.origin, winner + ".");
  }

  /** The heads of a run after its resolution. */
  ghost predicate HeadsResolved(before: map<int, Head>, after: map<int, Head>, read: Tables, winner: string,
                                rows: seq<int>)
    requires forall i :: 0 <= i < |rows| ==> rows[i] in read.heads && read.heads[rows[i]].run.Some?
  {
    && after.Keys == before.Keys
    && (forall i :: 0 <= i < |rows| ==>
         var h := read.heads[rows[i]];
         rows[i] in after && after[rows[i]] == h.(
           status := if Beneath(h.run.value.origin, winner) then Candidate else Tombstoned,
           revision := h.revision + 1))
    && (forall m :: m in before && m !in rows ==> after[m] == before[m])
  }

  /** The cards after it: those before, then one for each winner. */
  ghost predicate CardsResolved(before: seq<Item>, after: seq<Item>, read: Tables, res: Resolution, rows: seq<int>)
    requires forall i :: 0 <= i < |rows| ==> rows[i] in read.heads && read.heads[rows[i]].run.Some?
  {
    && |after| >= |before| && after[..|before|] == before
    && (forall u :: |before| <= u < |after| ==> CardForWinner(after[u], read, res, rows))
    && (forall i :: 0 <= i < |rows| && Beneath(read.heads[rows[i]].run.value.origin, res.winner) ==>
         HasCard(after[|before|..], rows[i]))
    && (forall u, v :: |before| <= u < v < |after| ==> after[u].candidate != after[v].candidate)
  }

  ghost predicate RowsResolved(db: Db, next: Db, read: Tables, res: Resolution, rows: seq<int>)
    requires forall i :: 0 <= i < |rows| ==> rows[i] in read.heads && read.heads[rows[i]].run.Some?
  {
    && next == db.(t := next.t, items := next.items)
    && HeadsResolved(db.t.heads, next.t.heads, read, res.winner, rows)
    && CardsResolved(db.items, next.items, read, res, rows)
  }

  ghost predicate HasCard(items: seq<Item>, m: int) {
    exists u :: 0 <= u < |items| && items[u].candidate == m
  }

  ghost predicate CardForWinner(item: Item, read: Tables, res: Resolution, rows: seq<int>)
    requires forall i :: 0 <= i < |rows| ==> rows[i] in read.heads && read.heads[rows[i]].run.Some?
  {
    && item.candidate in rows && Beneath(read.heads[item.candidate].run.value.origin, res.winner)
    && item == Item(item.candidate, res.principal, FromSymphony, Some(res.batch), New, [], 0, [], Pending)
  }

  lemma ResolveRowWrites(db: Db, res: Resolution, m: int, read: Head, wins: bool)
    requires ResolveRow(db, res.principal, res.batch, m, read, wins).Ok?
    ensures m in db.t.heads && db.t.heads[m].revision == read.revision
    ensures var next := ResolveRow(db, res.principal, res.batch, m, read, wins).value;
      && next == db.(t := next.t, items := next.items)
      && next.t.heads == db.t.heads[m := db.t.heads[m].(
           status := if wins then Candidate else Tombstoned, revision := read.revision + 1)]
      && next.items == db.items
           + if wins then [Item(m, res.principal, FromSymphony, Some(res.batch), New, [], 0, [], Pending)] else []
  {
    if wins {
      WriteAtWrites(db, m, read.revision, StatusChange(Candidate), "symphony/winner-queued");
    } else {
      WriteAtWrites(db, m, read.revision, StatusChange(Tombstoned), "symphony/loser-tombstone");
    }
    hide WriteAt;
  }

  lemma HeadsResolvedStep(before: map<int, Head>, mid: map<int, Head>, after: map<int, Head>, read: Tables,
                          winner: string, rows: seq<int>)
    requires |rows| > 0 && forall i :: 0 <= i < |rows| ==> rows[i] in read.heads && read.heads[rows[i]].run.Some?
    requires HeadsResolved(before, mid, read, winner, rows[..|rows| - 1])
    requires var m := rows[|rows| - 1]; var h := read.heads[m];
      && m in mid && mid[m].revision == h.revision && m in before && before[m] == h
      && after == mid[m := mid[m].(
           status := if Beneath(h.run.value.origin, winner) then Candidate else Tombstoned, revision := h.revision + 1)]
    ensures HeadsResolved(before, after, read, winner, rows) && rows[|rows| - 1] !in rows[..|rows| - 1]
  {
    hide Beneath;
    var n := |rows| - 1;
    var m := rows[n];
    assert rows == rows[..n] + [m];
    assert m !in rows[..n];
    forall i | 0 <= i < n
      ensures rows[..n][i] == rows[i] && rows[i] != m
    {
    }
  }

  lemma CardKept(item: Item, read: Tables, res: Resolution, rows: seq<int>, more: seq<int>)
    requires rows <= more && forall i :: 0 <= i < |more| ==> more[i] in read.heads && read.heads[more[i]].run.Some?
    requires CardForWinner(item, read, res, rows)
    ensures CardForWinner(item, read, res, more)
  {
    hide Beneath;
  }

  lemma CardsResolvedStep(before: seq<Item>, mid: seq<Item>, read: Tables, res: Resolution, rows: seq<int>)
    requires |rows| > 0 && forall i :: 0 <= i < |rows| ==> rows[i] in read.heads && read.heads[rows[i]].run.Some?
    requires CardsResolved(before, mid, read, res, rows[..|rows| - 1]) && rows[|rows| - 1] !in rows[..|rows| - 1]
    ensures var m := rows[|rows| - 1];
      CardsResolved(before, mid + if Beneath(read.heads[m].run.value.origin, res.winner)
        then [Item(m, res.principal, FromSymphony, Some(res.batch), New, [], 0, [], Pending)] else [],
        read, res, rows)
  {
    hide Beneath;
    var n := |rows| - 1;
    var m := rows[n];
    var wins := Beneath(read.heads[m].run.value.origin, res.winner);
    var card := Item(m, res.principal, FromSymphony, Some(res.batch), New, [], 0, [], Pending);
    var after := mid + if wins then [card] else [];
    assert CardsResolved(before, after, read, res, rows) by {
      forall i | 0 <= i < |rows| && Beneath(read.heads[rows[i]].run.value.origin, res.winner)
        ensures HasCard(after[|before|..], rows[i])
      {
        if i < n {
          assert HasCard(mid[|before|..], rows[..n][i]);
          var u :| 0 <= u < |mid[|before|..]| && mid[|before|..][u].candidate == rows[i];
          assert after[|before|..][u] == mid[|before|..][u];
        } else {
          assert after[|before|..][|mid| - |before|] == card;
        }
      }
      forall u | |before| <= u < |after|
        ensures CardForWinner(after[u], read, res, rows)
        ensures u < |mid| ==> after[u].candidate in rows[..n]
      {
        if u < |mid| {
          assert CardForWinner(mid[u], read, res, rows[..n]);
          CardKept(mid[u], read, res, rows[..n], rows);
        } else {
          assert after[u] == card && m in rows;
        }
      }
      hide CardForWinner, HasCard;
      assert after[..|before|] == mid[..|before|];
    }
  }

  lemma {:induction false} ResolveRowsWrites(db: Db, read: Tables, res: Resolution, rows: seq<int>)
    requires forall i :: 0 <= i < |rows| ==> rows[i] in read.heads && read.heads[rows[i]].run.Some?
    requires forall i :: 0 <= i < |rows| ==> rows[i] in db.t.heads && db.t.heads[rows[i]] == read.heads[rows[i]]
    requires ResolveRows(db, read, res.principal, res.batch, res.winner, rows).Ok?
    ensures RowsResolved(db, ResolveRows(db, read, res.principal, res.batch, res.winner, rows).value, read, res, rows)
  {
    hide Beneath, Wins, ResolveRow;
    if |rows| > 0 {
      var n := |rows| - 1;
      ResolveRowsWrites(db, read, res, rows[..n]);
      var mid := ResolveRows(db, read, res.principal, res.batch, res.winner, rows[..n]).value;
      var m := rows[n];
      WinsIsBeneath(read, res.winner, m);
      ResolveRowWrites(mid, res, m, read.heads[m], Wins(read, res.winner, m));
      var next := ResolveRow(mid, res.principal, res.batch, m, read.heads[m], Wins(read, res.winner, m)).value;
      HeadsResolvedStep(db.t.heads, mid.t.heads, next.t.heads, read, res.winner, rows);
      CardsResolvedStep(db.items, mid.items, read, res, rows);
      hide HeadsResolved, CardsResolved;
    }
  }

  /** A memory of the run that waits for its resolution. */
  ghost predicate StagedFor(heads: map<int, Head>, run: string, m: int) {
    m in heads && heads[m].status == Staged && heads[m].run.Some? && heads[m].run.value.id == run
  }

  lemma StagedRows(db: Db, run: string)
    requires LifecycleSteps.Safe(db)
    ensures forall m :: m in StagedIn(db.t, db.t.revisions, run) <==> StagedFor(db.t.heads, run, m)
  {
    LifecycleSteps.StagedMembers(db.t, db.t.revisions, run);
    hide StagedIn, LifecycleSteps.Safe;
    forall m | StagedFor(db.t.heads, run, m)
      ensures m in StagedIn(db.t, db.t.revisions, run)
    {
      var u := LifecycleSteps.FirstRow(db, m);
      LifecycleSteps.StagedFound(db.t, db.t.revisions, run, m, u);
    }
  }

  /**
   * A first resolution is noted. Each staged memory of its run whose origin is the winner's or lies beneath it
   * becomes a candidate, each other one a tombstone; exactly the candidates get a card, one each, and no other head,
   * edge or card changes.
   */
  lemma ResolutionWrites(db: Db, run: string, res: Resolution)
    requires LifecycleSteps.Safe(db) && run !in db.resolutions && Resolve(db, run, res).Ok?
    ensures var next := Resolve(db, run, res).value;
      && next == db.(t := next.t, items := next.items, resolutions := db.resolutions[run := res])
      && next.t.heads.Keys == db.t.heads.Keys
      && forall m :: m in db.t.heads ==>
           var h := db.t.heads[m];
           next.t.heads[m] ==
             if !StagedFor(db.t.heads, run, m) then h
             else if Beneath(h.run.value.origin, res.winner) then h.(status := Candidate, revision := h.revision + 1)
             else h.(status := Tombstoned, revision := h.revision + 1)
    ensures var next := Resolve(db, run, res).value;
      && |next.items| >= |db.items| && next.items[..|db.items|] == db.items
      && (forall u :: |db.items| <= u < |next.items| ==>
           next.items[u] == Item(next.items[u].candidate, res.principal, FromSymphony, Some(res.batch), New, [], 0, [],
                                 Pending))
      && (forall u, v :: |db.items| <= u < v < |next.items| ==> next.items[u].candidate != next.items[v].candidate)
      && forall m :: HasCard(next.items[|db.items|..], m) <==>
           StagedFor(db.t.heads, run, m) && Beneath(db.t.heads[m].run.value.origin, res.winner)
  {
    StagedRows(db, run);
    hide LifecycleSteps.Safe, StagedIn, Beneath, Wins;
    var rows := StagedIn(db.t, db.t.revisions, run);
    var noted := db.(resolutions := db.resolutions[run := res]);
    assert forall i :: 0 <= i < |rows| ==> rows[i] in rows;
    ResolveRowsWrites(noted, db.t, res, rows);
    hide ResolveRows;
    var next := Resolve(db, run, res).value;
    CardsAreWinners(noted, next, db.t, res, rows, run);
    forall m | StagedFor(db.t.heads, run, m)
      ensures next.t.heads[m] == db.t.heads[m].(
        status := if Beneath(db.t.heads[m].run.value.origin, res.winner) then Candidate else Tombstoned,
        revision := db.t.heads[m].revision + 1)
    {
      var i :| 0 <= i < |rows| && rows[i] == m;
    }
  }

  lemma CardsAreWinners(db: Db, next: Db, read: Tables, res: Resolution, rows: seq<int>, run: string)
    requires forall i :: 0 <= i < |rows| ==> rows[i] in read.heads && read.heads[rows[i]].run.Some?
    requires RowsResolved(db, next, read, res, rows)
    requires forall m :: m in rows <==> StagedFor(read.heads, run, m)
    ensures forall u :: |db.items| <= u < |next.items| ==>
      next.items[u]
        == Item(next.items[u].candidate, res.principal, FromSymphony, Some(res.batch), New, [], 0, [], Pending)
    ensures forall m :: HasCard(next.items[|db.items|..], m) <==>
      StagedFor(read.heads, run, m) && Beneath(read.heads[m].run.value.origin, res.winner)
  {
    hide Beneath;
    var more := next.items[|db.items|..];
    forall u | |db.items| <= u < |next.items|
      ensures CardForWinner(next.items[u], read, res, rows)
    {
    }
    forall m
      ensures HasCard(more, m) <==> StagedFor(read.heads, run, m) && Beneath(read.heads[m].run.value.origin, res.winner)
    {
      if HasCard(more, m) {
        var u :| 0 <= u < |more| && more[u].candidate == m;
        assert CardForWinner(next.items[|db.items| + u], read, res, rows);
      }
      if StagedFor(read.heads, run, m) && Beneath(read.heads[m].run.value.origin, res.winner) {
        var i :| 0 <= i < |rows| && rows[i] == m;
        assert HasCard(more, rows[i]);
      }
    }
  }

  /** The winner is the run's root or lies beneath it. */
  ghost predicate Placed(run: string, winner: string) {
    winner == run + "/root" || exists rest :: winner == run + "/root." + rest
  }

  lemma PlacedInRun(run: string, winner: string)
    ensures OriginInRun(run, winner) <==> Placed(run, winner)
  {
    PrefixIs(winner, run + "/root.");
  }

  /** Why a resolution is refused: by its winner, by an earlier one, or by what is staged for the run. */
  lemma ResolutionRefuses(db: Db, run: string, res: Resolution)
    requires LifecycleSteps.Safe(db)
    ensures !Placed(run, res.winner) ==> Resolve(db, run, res) == Err(Conflict)
    ensures Placed(run, res.winner) && run in db.resolutions ==>
      Resolve(db, run, res) == if db.resolutions[run] == res then Ok(db) else Err(Conflict)
    ensures Placed(run, res.winner) && run !in db.resolutions ==>
      (Resolve(db, run, res) == Err(RunNotFound) <==> forall m :: !StagedFor(db.t.heads, run, m))
    ensures Placed(run, res.winner) && run !in db.resolutions ==>
      ((exists m :: StagedFor(db.t.heads, run, m) && db.t.heads[m].principal != res.principal) ==>
         Resolve(db, run, res) == Err(Conflict))
    ensures Placed(run, res.winner) && run !in db.resolutions && (exists m :: StagedFor(db.t.heads, run, m)) ==>
      ((forall m :: StagedFor(db.t.heads, run, m) ==>
          db.t.heads[m].principal == res.principal && !Beneath(db.t.heads[m].run.value.origin, res.winner)) ==>
         Resolve(db, run, res) == Err(WinnerNotFound))
  {
    PlacedInRun(run, res.winner);
    StagedRows(db, run);
    hide LifecycleSteps.Safe, StagedIn, Beneath, Wins, Placed, OriginInRun, ResolveRows;
    if OriginInRun(run, res.winner) && run !in db.resolutions {
      var rows := StagedIn(db.t, db.t.revisions, run);
      NoRows(db, run, res, rows);
      OtherPrincipal(db, run, res, rows);
      NoWinner(db, run, res, rows);
    }
  }

  lemma NoRows(db: Db, run: string, res: Resolution, rows: seq<int>)
    requires rows == StagedIn(db.t, db.t.revisions, run) && OriginInRun(run, res.winner) && run !in db.resolutions
    requires forall m :: m in rows <==> StagedFor(db.t.heads, run, m)
    ensures Resolve(db, run, res) == Err(RunNotFound) <==> forall m :: !StagedFor(db.t.heads, run, m)
  {
    assert forall i :: 0 <= i < |rows| ==> rows[i] in rows;
    hide StagedIn, Wins, OriginInRun, StagedFor;
    RowsNeverMissing(db.(resolutions := db.resolutions[run := res]), db.t, res, rows);
    hide ResolveRows;
    if |rows| > 0 {
      assert StagedFor(db.t.heads, run, rows[0]);
    }
  }

  lemma OtherPrincipal(db: Db, run: string, res: Resolution, rows: seq<int>)
    requires rows == StagedIn(db.t, db.t.revisions, run) && OriginInRun(run, res.winner) && run !in db.resolutions
    requires forall m :: m in rows <==> StagedFor(db.t.heads, run, m)
    ensures forall m :: StagedFor(db.t.heads, run, m) && db.t.heads[m].principal != res.principal ==>
      Resolve(db, run, res) == Err(Conflict)
  {
    hide StagedIn, Wins, OriginInRun, ResolveRows;
    forall m | StagedFor(db.t.heads, run, m) && db.t.heads[m].principal != res.principal
      ensures Resolve(db, run, res) == Err(Conflict)
    {
      var i :| 0 <= i < |rows| && rows[i] == m;
    }
  }

  lemma NoWinner(db: Db, run: string, res: Resolution, rows: seq<int>)
    requires rows == StagedIn(db.t, db.t.revisions, run) && OriginInRun(run, res.winner) && run !in db.resolutions
    requires forall m :: m in rows <==> StagedFor(db.t.heads, run, m)
    ensures
      && (exists m :: StagedFor(db.t.heads, run, m))
      && (forall m :: StagedFor(db.t.heads, run, m) ==>
           db.t.heads[m].principal == res.principal && !Beneath(db.t.heads[m].run.value.origin, res.winner))
      ==> Resolve(db, run, res) == Err(WinnerNotFound)
  {
    forall i | 0 <= i < |rows|
      ensures rows[i] in rows && StagedFor(db.t.heads, run, rows[i])
      ensures Wins(db.t, res.winner, rows[i]) <==> Beneath(db.t.heads[rows[i]].run.value.origin, res.winner)
    {
      assert rows[i] in rows;
      WinsIsBeneath(db.t, res.winner, rows[i]);
    }
    hide StagedIn, Wins, Beneath, OriginInRun, ResolveRows;
  }

  lemma {:induction false} RowsNeverMissing(db: Db, read: Tables, res: Resolution, rows: seq<int>)
    requires forall i :: 0 <= i < |rows| ==> rows[i] in read.heads && read.heads[rows[i]].run.Some?
    ensures ResolveRows(db, read, res.principal, res.batch, res.winner, rows) != Err(RunNotFound)
  {
    hide Cas, Wins;
    if |rows| > 0 {
      RowsNeverMissing(db, read, res, rows[..|rows| - 1]);
    }
  }
}
