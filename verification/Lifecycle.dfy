/**
 * The consent queue, memory splits and Symphony resolution, each command one atomic step on a value that holds all
 * the tables.
 */
module Lifecycle {
  import opened Outcomes
  import opened MemoryTable
  import Labels

  datatype Birthplace = FromThread | FromSeed | FromSymphony | FromCurator

  datatype Verdict = New | Merge | Supersede | Contradict | Retire | KeywordRepair | Split

  datatype ItemState = Pending | Approved | Rejected

  datatype Child = Child(title: string, body: string)

  /** A consent card. Its uid is its position; curator cards carry a revision and, for a split, children. */
  datatype Item = Item(
    candidate: int,
    principal: string,
    birthplace: Birthplace,
    batch: Option<int>,
    verdict: Verdict,
    targets: seq<int>,
    candidateRevision: nat,
    children: seq<Child>,
    state: ItemState)

  datatype Vote = Approve | Deny

  datatype Mode = Explicit | Passive

  datatype Actor = Human | Machine

  datatype Decision = Decision(vote: Vote, mode: Mode, actor: Actor)

  /** A request; newIds are the ids the database will generate for split children. */
  datatype Request = Request(decision: Decision, amendedBody: Option<string>, newIds: seq<int>)

  datatype EdgeKind = MergedFrom | Supersedes | Contradicts | RelatesTo

  datatype Edge = Edge(source: int, target: int, kind: EdgeKind)

  datatype Resolution = Resolution(principal: string, batch: int, winner: string, machine: string, context: string)

  datatype Db = Db(
    t: Tables,
    edges: seq<Edge>,
    items: seq<Item>,
    decisions: map<nat, Decision>,
    resolutions: map<string, Resolution>)

  datatype Refusal =
    | ItemNotFound
    | RunNotFound
    | WinnerNotFound
    | InvalidRequest
    | Conflict
    | EdgeTaken
    | CandidateTaken
    | WriteRefused(error: WriteError)

  const LABEL_MAX := 64

  // Writing one head.

  /** next differs from db in its heads' fields and in longer logs only. */
  predicate SameShape(db: Db, next: Db) {
    next.t.heads.Keys == db.t.heads.Keys && next.items == db.items
    && next.decisions == db.decisions && next.resolutions == db.resolutions
  }

  /** A write that expects the revision the caller read earlier in its transaction. */
  function WriteAt(db: Db, id: int, expected: nat, changes: Changes, reason: string): (r: Result<Db, Refusal>)
    ensures r.Ok? ==> SameShape(db, r.value) && r.value.edges == db.edges
  {
    match Cas(db.t, CasUpdate(id, expected, reason, changes))
    case Ok(t) => Ok(db.(t := t))
    case Err(e) => Err(WriteRefused(e))
  }

  /** A write on a head locked and read just before. */
  function Write(db: Db, id: int, changes: Changes, reason: string): (r: Result<Db, Refusal>)
    requires id in db.t.heads
    ensures r.Ok? ==> SameShape(db, r.value) && r.value.edges == db.edges
  {
    WriteAt(db, id, db.t.heads[id].revision, changes, reason)
  }

  function Add(db: Db, id: int, h: Head, parent: Option<int>, reason: string): (r: Result<Db, Refusal>)
    ensures r.Ok? ==> r.value == db.(t := r.value.t)
  {
    match Insert(db.t, id, h, parent, reason)
    case Ok(t) => Ok(db.(t := t))
    case Err(e) => Err(WriteRefused(e))
  }

  // Deciding a card.

  function KindOf(v: Verdict): Option<EdgeKind> {
    match v
    case Merge => Some(MergedFrom)
    case Supersede => Some(Supersedes)
    case Contradict => Some(Contradicts)
    case _ => None
  }

  predicate Replaces(v: Verdict) {
    v == Merge || v == Supersede
  }

  function EnactTarget(db: Db, candidate: int, principal: string, verdict: Verdict, kind: EdgeKind, target: int)
    : (r: Result<Db, Refusal>)
    ensures r.Ok? ==> SameShape(db, r.value)
  {
    if target !in db.t.heads then Err(Conflict)
    else if db.t.heads[target].principal != principal || db.t.heads[target].status != Active then Err(Conflict)
    else
      var written :- if Replaces(verdict) then Write(db, target, StatusChange(Tombstoned), "replaced") else Ok(db);
      var edge := Edge(candidate, target, kind);
      if edge in written.edges then Err(EdgeTaken)
      else Ok(written.(edges := written.edges + [edge]))
  }

  /** The targets in order, each against the state its predecessors left. */
  function EnactAll(db: Db, candidate: int, principal: string, verdict: Verdict, kind: EdgeKind, targets: seq<int>)
    : (r: Result<Db, Refusal>)
    ensures r.Ok? ==> SameShape(db, r.value)
  {
    if |targets| == 0 then Ok(db)
    else
      var n := |targets| - 1;
      var before :- EnactAll(db, candidate, principal, verdict, kind, targets[..n]);
      EnactTarget(before, candidate, principal, verdict, kind, targets[n])
  }

  function EnactTargets(db: Db, item: Item): (r: Result<Db, Refusal>)
    requires item.candidate in db.t.heads
    ensures r.Ok? ==> SameShape(db, r.value)
  {
    if KindOf(item.verdict) == None then Ok(db)
    else EnactAll(db, item.candidate, db.t.heads[item.candidate].principal, item.verdict, KindOf(item.verdict).value,
      item.targets)
  }

  function ActiveTitles(heads: map<int, Head>, principal: string): set<string> {
    set m | m in heads && heads[m].status == Active && heads[m].principal == principal :: heads[m].title
  }

  function Recorded(db: Db, uid: nat, d: Decision): Db
    requires uid < |db.items|
  {
    var state := if d.vote == Approve then Approved else Rejected;
    db.(decisions := db.decisions[uid := d], items := db.items[uid := db.items[uid].(state := state)])
  }

  predicate AmendmentAllowed(item: Item, req: Request) {
    req.amendedBody.Some? ==>
      item.birthplace == FromCurator && Replaces(item.verdict) && req.decision.vote == Approve
        && req.decision.actor == Human
  }

  /** One decision transaction: replay of an earlier decision, or the first one with all its effects. */
  function Decide(db: Db, uid: nat, req: Request): (r: Result<Db, Refusal>)
    ensures r.Ok? ==> |r.value.items| == |db.items|
  {
    if uid >= |db.items| then Err(ItemNotFound)
    else
      var item := db.items[uid];
      if !AmendmentAllowed(item, req) then Err(InvalidRequest)
      else if item.birthplace == FromCurator && item.verdict == Split && !ValidFamily(item.children) then
        Err(InvalidRequest)
      else if uid in db.decisions then
        if req.amendedBody.Some?
           && (item.candidate !in db.t.heads || db.t.heads[item.candidate].body != req.amendedBody.value) then
        Err(Conflict)
        else if db.decisions[uid] != req.decision then Err(Conflict)
        else Ok(db)
      else if item.verdict == Contradict && req.decision.mode == Passive then Err(InvalidRequest)
      else if item.candidate !in db.t.heads then Err(Conflict)
      else if item.birthplace == FromCurator then DecideCurator(db, uid, item, req)
      else if db.t.heads[item.candidate].status != Candidate then Err(Conflict)
      else DecideCandidate(db, uid, item, req)
  }

  function DecideCandidate(db: Db, uid: nat, item: Item, req: Request): (r: Result<Db, Refusal>)
    requires uid < |db.items| && item.candidate in db.t.heads
    ensures r.Ok? ==> |r.value.items| == |db.items|
  {
    var done :- CandidateEffect(db, item, req);
    Ok(Recorded(done, uid, req.decision))
  }

  /** An approval enacts the targets first, then activates under a label that is free by then. */
  function CandidateEffect(db: Db, item: Item, req: Request): (r: Result<Db, Refusal>)
    requires item.candidate in db.t.heads
    ensures r.Ok? ==> SameShape(db, r.value)
  {
    var candidate := db.t.heads[item.candidate];
    if req.decision.vote == Deny then Write(db, item.candidate, StatusChange(Tombstoned), "rejected")
    else
      var enacted :- EnactTargets(db, item);
      var title := Labels.Approved(ActiveTitles(enacted.t.heads, candidate.principal), candidate.title,
        candidate.qualifier, LABEL_MAX);
      WriteAt(enacted, item.candidate, candidate.revision, Changes(Some(title), None, Some(Active), false), "approved")
  }

  function DecideCurator(db: Db, uid: nat, item: Item, req: Request): (r: Result<Db, Refusal>)
    requires uid < |db.items| && item.candidate in db.t.heads
    ensures r.Ok? ==> |r.value.items| == |db.items|
  {
    var candidate := db.t.heads[item.candidate];
    if req.decision.mode != Explicit || req.decision.actor != Human then Err(InvalidRequest)
    else if candidate.revision != item.candidateRevision then Err(Conflict)
    else
      var done :- CuratorEffect(db, item, candidate, req);
      Ok(Recorded(done, uid, req.decision))
  }

  function CuratorEffect(db: Db, item: Item, candidate: Head, req: Request): (r: Result<Db, Refusal>)
    requires item.candidate in db.t.heads
    ensures r.Ok? ==> r.value.items == db.items
  {
    if req.decision.vote == Deny then
      if candidate.status == Candidate then
        Write(db, item.candidate, StatusChange(Tombstoned), "curation/rejected")
      else Ok(db)
    else
      match item.verdict
      case Merge | Supersede =>
        if candidate.status != Candidate then Err(Conflict)
        else
          var enacted :- EnactTargets(db, item);
          WriteAt(enacted, item.candidate, candidate.revision, Changes(None, req.amendedBody, Some(Active), false),
            "curation/activate")
      case Contradict =>
        if candidate.status != Active then Err(Conflict) else EnactTargets(db, item)
      case Retire => Write(db, item.candidate, StatusChange(Tombstoned), "curation/retire")
      case KeywordRepair => Write(db, item.candidate, Changes(None, None, None, true), "curation/keyword-repair")
      case Split =>
        if candidate.status != Active then Err(InvalidRequest)
        else
          var written :- Write(db, item.candidate, StatusChange(Tombstoned), "curation/split-source");
          AddFamily(written, candidate, item.children, req.newIds, Some(|written.t.revisions| - 1),
            "curation/split-child")
      case New => Err(InvalidRequest)
  }

  // Families of children.

  predicate ValidFamily(children: seq<Child>) {
    && 2 <= |children| <= 64
    && (forall i :: 0 <= i < |children| ==> |children[i].title| <= LABEL_MAX)
    && forall i, j :: 0 <= i < j < |children|
         ==> children[i].title != children[j].title && children[i].body != children[j].body
  }

  function AddChildren(db: Db, proto: Head, children: seq<Child>, ids: seq<int>, parent: Option<int>, reason: string)
    : (r: Result<Db, Refusal>)
    ensures r.Ok? ==> r.value == db.(t := r.value.t) && |children| <= |ids|
  {
    if |children| == 0 then Ok(db)
    else
      var n := |children| - 1;
      var before :- AddChildren(db, proto, children[..n], ids, parent, reason);
      if n >= |ids| then Err(WriteRefused(IdTaken))
      else
        Add(before, ids[n],
            proto.(title := children[n].title, body := children[n].body, status := Active, run := None),
            parent, reason)
  }

  function EdgesFrom(left: int, ids: seq<int>): seq<Edge> {
    if |ids| == 0 then []
    else
      var rest, right := EdgesFrom(left, ids[..|ids| - 1]), ids[|ids| - 1];
      if left == right then rest else rest + [Edge(left, right, RelatesTo)]
  }

  function SiblingEdges(lefts: seq<int>, ids: seq<int>): seq<Edge> {
    if |lefts| == 0 then []
    else SiblingEdges(lefts[..|lefts| - 1], ids) + EdgesFrom(lefts[|lefts| - 1], ids)
  }

  function AddFamily(db: Db, proto: Head, children: seq<Child>, ids: seq<int>, parent: Option<int>, reason: string)
    : (r: Result<Db, Refusal>)
    ensures r.Ok? ==> r.value == db.(t := r.value.t, edges := r.value.edges)
  {
    var grown :- AddChildren(db, proto, children, ids, parent, reason);
    var used := ids[..|children|];
    Ok(grown.(edges := grown.edges + SiblingEdges(used, used)))
  }

  /** The remember-split: a tombstoned exact source and its active children. */
  function SplitSource(db: Db, id: int, source: Head, children: seq<Child>, ids: seq<int>): Result<Db, Refusal> {
    if !ValidFamily(children) then Err(InvalidRequest)
    else
      var written :- Add(db, id, source.(status := Tombstoned, run := None), None, "remember/source-split");
      AddFamily(written, source, children, ids, Some(|written.t.revisions| - 1), "remember/split-child")
  }

  // Cards.

  predicate NonCuratorCardExists(items: seq<Item>, candidate: int) {
    exists i :: 0 <= i < |items| && items[i].candidate == candidate && items[i].birthplace != FromCurator
  }

  function Enqueue(db: Db, item: Item): Result<Db, Refusal> {
    if item.candidate !in db.t.heads then Err(Conflict)
    else if item.birthplace != FromCurator && NonCuratorCardExists(db.items, item.candidate) then Err(CandidateTaken)
    else Ok(db.(items := db.items + [item.(state := Pending)]))
  }

  predicate ActiveFor(heads: map<int, Head>, principal: string, m: int) {
    m in heads && heads[m].principal == principal && heads[m].status == Active
  }

  /** Extraction and seed cards: every target must be an active fetched neighbour, else the candidate is discarded. */
  function EnqueueExtracted(db: Db, item: Item, neighbours: seq<int>): Result<Db, Refusal> {
    if item.candidate !in db.t.heads then Err(Conflict)
    else if exists i :: 0 <= i < |item.targets|
                        && !(item.targets[i] in neighbours && ActiveFor(db.t.heads, item.principal, item.targets[i]))
    then Write(db, item.candidate, StatusChange(Tombstoned), "invalid_queue_target")
    else Enqueue(db, item)
  }

  // Symphony.

  predicate StartsWith(s: string, prefix: string) {
    prefix <= s
  }

  predicate OriginInRun(run: string, origin: string) {
    origin == run + "/root" || StartsWith(origin, run + "/root.")
  }

  predicate OriginPrefix(prefix: string, candidate: string) {
    candidate == prefix || (candidate != "" && StartsWith(candidate, prefix + "."))
  }

  /** The run's staged memories in order of creation, read off their first revision rows. */
  function StagedIn(t: Tables, revisions: seq<Revision>, run: string): (r: seq<int>)
    ensures forall m :: m in r ==> m in t.heads && t.heads[m].status == Staged && t.heads[m].run.Some?
  {
    if |revisions| == 0 then []
    else
      var rest, row := StagedIn(t, revisions[..|revisions| - 1], run), revisions[|revisions| - 1];
      var m := row.memory;
      if row.revision == 1 && m in t.heads && t.heads[m].status == Staged && t.heads[m].run.Some?
         && t.heads[m].run.value.id == run
      then rest + [m] else rest
  }

  predicate Wins(t: Tables, winner: string, m: int)
    requires m in t.heads && t.heads[m].run.Some?
  {
    OriginPrefix(winner, t.heads[m].run.value.origin)
  }

  function SymphonyCard(m: int, principal: string, batch: int): Item {
    Item(m, principal, FromSymphony, Some(batch), New, [], 0, [], Pending)
  }

  /** One row, written against the revision at which it was first read. */
  function ResolveRow(db: Db, principal: string, batch: int, m: int, read: Head, wins: bool): (r: Result<Db, Refusal>)
    ensures r.Ok? ==> r.value.t.heads.Keys == db.t.heads.Keys
  {
    if wins then
      var written :- WriteAt(db, m, read.revision, StatusChange(Candidate), "symphony/winner-queued");
      Enqueue(written, SymphonyCard(m, principal, batch))
    else WriteAt(db, m, read.revision, StatusChange(Tombstoned), "symphony/loser-tombstone")
  }

  /** Winners are judged against the rows as first read; each row is then written in turn. */
  function ResolveRows(db: Db, read: Tables, principal: string, batch: int, winner: string, rows: seq<int>)
    : (r: Result<Db, Refusal>)
    requires forall i :: 0 <= i < |rows| ==> rows[i] in read.heads && read.heads[rows[i]].run.Some?
    ensures r.Ok? ==> r.value.t.heads.Keys == db.t.heads.Keys
  {
    if |rows| == 0 then Ok(db)
    else
      var n := |rows| - 1;
      var before :- ResolveRows(db, read, principal, batch, winner, rows[..n]);
      ResolveRow(before, principal, batch, rows[n], read.heads[rows[n]], Wins(read, winner, rows[n]))
  }

  function Resolve(db: Db, run: string, res: Resolution): Result<Db, Refusal> {
    if !OriginInRun(run, res.winner) then Err(Conflict)
    else if run in db.resolutions then
      if db.resolutions[run] == res then Ok(db) else Err(Conflict)
    else
      var rows := StagedIn(db.t, db.t.revisions, run);
      if |rows| == 0 then Err(RunNotFound)
      else if exists i :: 0 <= i < |rows| && db.t.heads[rows[i]].principal != res.principal then Err(Conflict)
      else if forall i :: 0 <= i < |rows| ==> !Wins(db.t, res.winner, rows[i]) then Err(WinnerNotFound)
      else
        var noted := db.(resolutions := db.resolutions[run := res]);
        ResolveRows(noted, db.t, res.principal, res.batch, res.winner, rows)
  }

  /** Staging is idempotent on the same content and provenance, and refuses a different one. */
  function Stage(db: Db, id: int, h: Head): Result<Db, Refusal> {
    if h.run == None then Err(InvalidRequest)
    else if id in db.t.heads then
      var known := db.t.heads[id];
      if known.principal == h.principal && known.title == h.title && known.body == h.body && known.run == h.run
        && known.status == Staged
      then Ok(db) else Err(Conflict)
    else Add(db, id, h.(status := Staged), None, "symphony/staged")
  }

  // Batches.

  /** Every pending card of the batch takes the same decision; decided ones are only counted. */
  function DecideFrom(db: Db, batch: int, req: Request, uid: nat): Result<Db, Refusal>
    decreases |db.items| - uid
  {
    if uid >= |db.items| then Ok(db)
    else
      var item := db.items[uid];
      if InBatch(item, batch) && item.state == Pending
      then
        var after :- Decide(db, uid, req);
        DecideFrom(after, batch, req, uid + 1)
      else DecideFrom(db, batch, req, uid + 1)
  }

  predicate InBatch(item: Item, batch: int) {
    item.batch == Some(batch) && (item.birthplace == FromSeed || item.birthplace == FromSymphony)
  }

  function DecideBatch(db: Db, batch: int, req: Request): Result<Db, Refusal> {
    if req.decision.mode != Explicit || req.decision.actor != Human || req.amendedBody.Some? then Err(InvalidRequest)
    else if forall i :: 0 <= i < |db.items| ==> !InBatch(db.items[i], batch) then Err(ItemNotFound)
    else DecideFrom(db, batch, req, 0)
  }

  // Runs.

  datatype Command =
    | Create(id: int, head: Head)
    | CreateCandidate(id: int, head: Head)
    | CreateSource(id: int, head: Head)
    | StageMemory(id: int, head: Head)
    | SplitMemory(id: int, head: Head, children: seq<Child>, ids: seq<int>)
    | EnqueueDraft(item: Item, neighbours: seq<int>)
    | EnqueueCurator(item: Item)
    | DecideOne(uid: nat, req: Request)
    | DecideMany(batch: int, req: Request)
    | ResolveRun(run: string, resolution: Resolution)
    | Injected(id: int, quarantine: bool)

  /** A gate commit or feedback write: counters only, or the quarantine of an active memory. */
  function Inject(db: Db, id: int, quarantine: bool): Result<Db, Refusal> {
    if id !in db.t.heads then Err(WriteRefused(MemoryNotFound))
    else if quarantine && db.t.heads[id].status == Active
    then Write(db, id, Changes(None, None, Some(Quarantined), true), "inject/commit:removed:never")
    else Write(db, id, Changes(None, None, None, true), "inject")
  }

  function Step(db: Db, c: Command): Result<Db, Refusal> {
    match c
    case Create(id, h) => Add(db, id, h.(status := Active, run := None), None, "remember")
    case CreateCandidate(id, h) => Add(db, id, h.(status := Candidate, run := None), None, "candidate")
    case CreateSource(id, h) => Add(db, id, h.(status := Tombstoned, run := None), None, "seed_source_split")
    case StageMemory(id, h) => Stage(db, id, h)
    case SplitMemory(id, h, children, ids) => SplitSource(db, id, h, children, ids)
    case EnqueueDraft(item, neighbours) =>
      if item.birthplace == FromThread || item.birthplace == FromSeed then EnqueueExtracted(db, item, neighbours)
      else Err(InvalidRequest)
    case EnqueueCurator(item) => if item.birthplace == FromCurator then Enqueue(db, item) else Err(InvalidRequest)
    case DecideOne(uid, req) => Decide(db, uid, req)
    case DecideMany(batch, req) => DecideBatch(db, batch, req)
    case ResolveRun(run, resolution) => Resolve(db, run, resolution)
    case Injected(id, quarantine) => Inject(db, id, quarantine)
  }

  /** A refused command is rolled back whole. */
  function After(db: Db, c: Command): Db {
    match Step(db, c)
    case Ok(next) => next
    case Err(_) => db
  }

  function RunOf(db: Db, commands: seq<Command>): Db {
    if |commands| == 0 then db else After(RunOf(db, commands[..|commands| - 1]), commands[|commands| - 1])
  }

  const EMPTY := Db(Tables(map[], []), [], [], map[], map[])
}
