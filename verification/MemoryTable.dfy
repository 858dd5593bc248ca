/** Memory heads with compare-and-swap writes, and their append-only revisions. */
module MemoryTable {
  import opened Outcomes

  datatype Status = Staged | Candidate | Active | Quarantined | Tombstoned

  /** The order in which a status may move. */
  function Rank(s: Status): nat {
    match s
    case Staged => 0
    case Candidate => 1
    case Active => 2
    case Quarantined => 3
    case Tombstoned => 4
  }

  datatype Run = Run(id: string, origin: string)

  datatype Head = Head(
    principal: string,
    title: string,
    body: string,
    qualifier: string,
    run: Option<Run>,
    status: Status,
    revision: nat)

  /** One revision row. Its uid is the position at which it was appended. */
  datatype Revision = Revision(
    memory: int,
    revision: nat,
    parent: Option<int>,
    title: string,
    body: string,
    reason: string)

  datatype Tables = Tables(heads: map<int, Head>, revisions: seq<Revision>)

  /** The fields a write sets; `others` stands for fields outside this model. */
  datatype Changes = Changes(title: Option<string>, body: Option<string>, status: Option<Status>, others: bool)

  datatype CasUpdate = CasUpdate(memory: int, expected: nat, reason: string, changes: Changes)

  datatype WriteError =
    | NothingChanged
    | MemoryNotFound
    | CasConflict(current: Head)
    | LineageError
    | ActiveLabelTaken
    | IdTaken

  function StatusChange(s: Status): Changes {
    Changes(None, None, Some(s), false)
  }

  function Or<T>(o: Option<T>, current: T): T {
    if o.Some? then o.value else current
  }

  function Applied(h: Head, c: Changes): Head {
    h.(title := Or(c.title, h.title), body := Or(c.body, h.body), status := Or(c.status, h.status),
       revision := h.revision + 1)
  }

  /** The partial unique index on (principal, label) over active heads. */
  predicate LabelTaken(heads: map<int, Head>, id: int, h: Head) {
    h.status == Active
    && exists m :: m in heads && m != id && heads[m].status == Active
                   && heads[m].principal == h.principal && heads[m].title == h.title
  }

  /** The positions of the rows that a select on (memory, revision) returns. */
  function MatchingRows(revisions: seq<Revision>, memory: int, revision: nat): seq<int> {
    if |revisions| == 0 then []
    else
      var n := |revisions| - 1;
      var rest := MatchingRows(revisions[..n], memory, revision);
      if revisions[n].memory == memory && revisions[n].revision == revision then rest + [n] else rest
  }

  function Cas(t: Tables, cmd: CasUpdate): Result<Tables, WriteError> {
    if cmd.changes == Changes(None, None, None, false) then Err(NothingChanged)
    else if cmd.memory !in t.heads then Err(MemoryNotFound)
    else
      var current := t.heads[cmd.memory];
      if current.revision != cmd.expected then Err(CasConflict(current))
      else
        var updated := Applied(current, cmd.changes);
        if LabelTaken(t.heads, cmd.memory, updated) then Err(ActiveLabelTaken)
        else
          var parents := MatchingRows(t.revisions, cmd.memory, cmd.expected);
          if |parents| != 1 then Err(LineageError)
          else Ok(Tables(
            t.heads[cmd.memory := updated],
            t.revisions + [Revision(cmd.memory, updated.revision, Some(parents[0]), updated.title, updated.body,
              cmd.reason)]))
  }

  /** A first revision may name a parent in another memory: the revision it was split from. */
  function Insert(t: Tables, id: int, h: Head, parent: Option<int>, reason: string): Result<Tables, WriteError> {
    if id in t.heads then Err(IdTaken)
    else
      var root := h.(revision := 1);
      if LabelTaken(t.heads, id, root) then Err(ActiveLabelTaken)
      else Ok(Tables(t.heads[id := root], t.revisions + [Revision(id, 1, parent, root.title, root.body, reason)]))
  }

  // The lineage every write keeps.

  /** The positions of all of a memory's rows, oldest first. */
  ghost function History(revisions: seq<Revision>, memory: int): seq<int> {
    if |revisions| == 0 then []
    else
      var n := |revisions| - 1;
      var rest := History(revisions[..n], memory);
      if revisions[n].memory == memory then rest + [n] else rest
  }

  /** The memory's rows are numbered 1, 2, 3, ... and each but the first has the row before it as parent. */
  ghost predicate Numbered(revisions: seq<Revision>, memory: int) {
    var rows := History(revisions, memory);
    forall i :: 0 <= i < |rows| ==> RowFits(revisions, rows, memory, i)
  }

  ghost predicate RowFits(revisions: seq<Revision>, rows: seq<int>, memory: int, i: int)
    requires 0 <= i < |rows|
  {
    && 0 <= rows[i] < |revisions|
    && revisions[rows[i]].memory == memory
    && revisions[rows[i]].revision == i + 1
    && (i > 0 ==> revisions[rows[i]].parent == Some(rows[i - 1]))
  }

  /** The head stands at the number of its rows and shows what the newest of them recorded. */
  ghost predicate Chained(t: Tables, memory: int)
    requires memory in t.heads
  {
    var h, rows := t.heads[memory], History(t.revisions, memory);
    && Numbered(t.revisions, memory)
    && h.revision == |rows| >= 1
    && RowFits(t.revisions, rows, memory, |rows| - 1)
    && var newest := t.revisions[rows[|rows| - 1]];
       newest.title == h.title && newest.body == h.body
  }

  ghost predicate Lineage(t: Tables) {
    forall m :: if m in t.heads then Chained(t, m) else History(t.revisions, m) == []
  }

  /** No two active memories of a principal share a label. */
  ghost predicate LabelsUnique(t: Tables) {
    forall m, n :: m in t.heads && n in t.heads && m != n
      && t.heads[m].status == Active && t.heads[n].status == Active && t.heads[m].principal == t.heads[n].principal
      ==> t.heads[m].title != t.heads[n].title
  }

  /** On numbered rows a select by revision finds that one row, or none beyond the last. */
  lemma {:induction false} NumberedMatches(revisions: seq<Revision>, memory: int, k: nat)
    requires Numbered(revisions, memory) && k >= 1
    ensures var rows := History(revisions, memory);
      MatchingRows(revisions, memory, k) == if k <= |rows| then [rows[k - 1]] else []
  {
    if |revisions| > 0 {
      var n := |revisions| - 1;
      var rest, rows := History(revisions[..n], memory), History(revisions, memory);
      NumberedPrefix(revisions, memory);
      NumberedMatches(revisions[..n], memory, k);
      if revisions[n].memory == memory {
        assert RowFits(revisions, rows, memory, |rest|);
      }
    }
  }

  lemma NumberedPrefix(revisions: seq<Revision>, memory: int)
    requires |revisions| > 0 && Numbered(revisions, memory)
    ensures Numbered(revisions[..|revisions| - 1], memory)
  {
    var n := |revisions| - 1;
    var rest, rows := History(revisions[..n], memory), History(revisions, memory);
    HistoryInRange(revisions[..n], memory);
    forall i | 0 <= i < |rest|
      ensures RowFits(revisions[..n], rest, memory, i)
    {
      assert RowFits(revisions, rows, memory, i);
    }
  }

  lemma {:induction false} HistoryInRange(revisions: seq<Revision>, memory: int)
    ensures forall i :: 0 <= i < |History(revisions, memory)| ==> 0 <= History(revisions, memory)[i] < |revisions|
  {
    if |revisions| > 0 {
      HistoryInRange(revisions[..|revisions| - 1], memory);
    }
  }

  /** With the lineage intact the head's revision has exactly one row, so the lineage error cannot be raised. */
  lemma OneParent(t: Tables, memory: int)
    requires memory in t.heads && Chained(t, memory)
    ensures MatchingRows(t.revisions, memory, t.heads[memory].revision)
         == [History(t.revisions, memory)[t.heads[memory].revision - 1]]
  {
    NumberedMatches(t.revisions, memory, t.heads[memory].revision);
  }

  lemma AppendHistory(revisions: seq<Revision>, row: Revision, memory: int)
    ensures History(revisions + [row], memory)
         == if row.memory == memory then History(revisions, memory) + [|revisions|] else History(revisions, memory)
  {
    assert (revisions + [row])[..|revisions|] == revisions;
  }

  /** The row that continues a memory's chain. */
  ghost predicate Continues(revisions: seq<Revision>, row: Revision) {
    var rows := History(revisions, row.memory);
    && row.revision == |rows| + 1
    && (|rows| > 0 ==> row.parent == Some(rows[|rows| - 1]))
  }

  lemma AppendNumbered(revisions: seq<Revision>, row: Revision, memory: int)
    requires Numbered(revisions, memory)
    requires row.memory == memory ==> Continues(revisions, row)
    ensures Numbered(revisions + [row], memory)
  {
    var rows, more := History(revisions, memory), History(revisions + [row], memory);
    AppendHistory(revisions, row, memory);
    HistoryInRange(revisions, memory);
    hide History;
    forall i | 0 <= i < |more|
      ensures RowFits(revisions + [row], more, memory, i)
    {
      if i < |rows| {
        assert RowFits(revisions, rows, memory, i);
        assert more[i] == rows[i] && (i > 0 ==> more[i - 1] == rows[i - 1]);
        assert (revisions + [row])[rows[i]] == revisions[rows[i]];
      }
    }
  }

  lemma CasKeepsLineage(t: Tables, cmd: CasUpdate)
    requires Lineage(t)
    ensures Cas(t, cmd) != Err(LineageError)
    ensures Cas(t, cmd).Ok? ==> Lineage(Cas(t, cmd).value)
  {
    if cmd.memory in t.heads && t.heads[cmd.memory].revision == cmd.expected {
      assert Chained(t, cmd.memory);
      OneParent(t, cmd.memory);
      hide MatchingRows, LabelTaken, Numbered, History;
      if Cas(t, cmd).Ok? {
        var s := Cas(t, cmd).value;
        var row := s.revisions[|t.revisions|];
        assert s.revisions == t.revisions + [row];
        forall m
          ensures if m in s.heads then Chained(s, m) else History(s.revisions, m) == []
        {
          assert if m in t.heads then Chained(t, m) else History(t.revisions, m) == [];
          AppendKeepsChain(t, s, row, m);
        }
      }
    }
  }

  lemma AppendKeepsChain(t: Tables, s: Tables, row: Revision, m: int)
    requires s.revisions == t.revisions + [row] && row.memory in s.heads
    requires s.heads == t.heads[row.memory := s.heads[row.memory]]
    requires var h := s.heads[row.memory]; h.revision == row.revision && h.title == row.title && h.body == row.body
    requires if m in t.heads then Chained(t, m) else History(t.revisions, m) == []
    requires m == row.memory ==> Continues(t.revisions, row)
    ensures if m in s.heads then Chained(s, m) else History(s.revisions, m) == []
  {
    AppendHistory(t.revisions, row, m);
    assert Numbered(t.revisions, m);
    AppendNumbered(t.revisions, row, m);
    HistoryInRange(t.revisions, m);
    hide History, Numbered;
  }

  lemma InsertKeepsLineage(t: Tables, id: int, h: Head, parent: Option<int>, reason: string)
    requires Lineage(t)
    ensures var r := Insert(t, id, h, parent, reason); r.Ok? ==> Lineage(r.value)
  {
    var r := Insert(t, id, h, parent, reason);
    if r.Ok? {
      var s := r.value;
      var row := s.revisions[|t.revisions|];
      assert s.revisions == t.revisions + [row];
      assert History(t.revisions, id) == [];
      hide LabelTaken, Numbered, History;
      forall m
        ensures if m in s.heads then Chained(s, m) else History(s.revisions, m) == []
      {
        assert if m in t.heads then Chained(t, m) else History(t.revisions, m) == [];
        AppendKeepsChain(t, s, row, m);
      }
    }
  }

  // What one write does, field by field.

  /**
   * A successful write changes one head and appends one row: every field named in the changes takes its value,
   * every other keeps its own, and the row repeats the new text.
   */
  lemma CasWrites(t: Tables, cmd: CasUpdate)
    requires Cas(t, cmd).Ok?
    ensures cmd.memory in t.heads && cmd.memory in Cas(t, cmd).value.heads
    ensures var s := Cas(t, cmd).value;
      var h, g := t.heads[cmd.memory], s.heads[cmd.memory];
      && s.heads == t.heads[cmd.memory := g]
      && (if cmd.changes.title.Some? then g.title == cmd.changes.title.value else g.title == h.title)
      && (if cmd.changes.body.Some? then g.body == cmd.changes.body.value else g.body == h.body)
      && (if cmd.changes.status.Some? then g.status == cmd.changes.status.value else g.status == h.status)
      && g.principal == h.principal && g.qualifier == h.qualifier && g.run == h.run
      && h.revision == cmd.expected && g.revision == cmd.expected + 1
    ensures var s := Cas(t, cmd).value;
      && |s.revisions| == |t.revisions| + 1 && s.revisions[..|t.revisions|] == t.revisions
      && var row, g := s.revisions[|t.revisions|], s.heads[cmd.memory];
         && row.memory == cmd.memory && row.revision == g.revision && row.title == g.title && row.body == g.body
         && row.reason == cmd.reason && row.parent.Some? && 0 <= row.parent.value < |t.revisions|
         && var parent := t.revisions[row.parent.value];
            parent.memory == cmd.memory && parent.revision == cmd.expected
  {
    var rows := MatchingRows(t.revisions, cmd.memory, cmd.expected);
    MatchingAre(t.revisions, cmd.memory, cmd.expected, rows[0]);
    hide MatchingRows, LabelTaken;
  }

  lemma {:induction false} MatchingAre(revisions: seq<Revision>, memory: int, revision: nat, u: int)
    ensures u in MatchingRows(revisions, memory, revision) <==>
      0 <= u < |revisions| && revisions[u].memory == memory && revisions[u].revision == revision
  {
    if |revisions| > 0 {
      MatchingAre(revisions[..|revisions| - 1], memory, revision, u);
    }
  }

  /**
   * On intact tables a write succeeds exactly if it names a change, the memory is there at the expected revision,
   * and it does not end active under the label of another active memory of its principal.
   */
  lemma CasAcceptsExactlyWhen(t: Tables, cmd: CasUpdate)
    requires Lineage(t)
    ensures Cas(t, cmd).Ok? <==>
      && (cmd.changes.title.Some? || cmd.changes.body.Some? || cmd.changes.status.Some? || cmd.changes.others)
      && cmd.memory in t.heads && t.heads[cmd.memory].revision == cmd.expected
      && var h := t.heads[cmd.memory];
         var title := if cmd.changes.title.Some? then cmd.changes.title.value else h.title;
         var status := if cmd.changes.status.Some? then cmd.changes.status.value else h.status;
         status == Active ==>
           forall m ::
             m in t.heads && m != cmd.memory && t.heads[m].status == Active && t.heads[m].principal == h.principal
             ==> t.heads[m].title != title
  {
    CasKeepsLineage(t, cmd);
    hide MatchingRows, Lineage;
  }

  /** An insertion succeeds exactly on a new id and a label that is free if it is active, and keeps the content. */
  lemma InsertWrites(t: Tables, id: int, h: Head, parent: Option<int>, reason: string)
    ensures Insert(t, id, h, parent, reason).Ok? <==>
      && id !in t.heads
      && (h.status == Active ==>
           forall m :: m in t.heads && t.heads[m].status == Active && t.heads[m].principal == h.principal
             ==> t.heads[m].title != h.title)
    ensures Insert(t, id, h, parent, reason).Ok? ==>
      var s := Insert(t, id, h, parent, reason).value;
      && s.heads == t.heads[id := Head(h.principal, h.title, h.body, h.qualifier, h.run, h.status, 1)]
      && s.revisions == t.revisions + [Revision(id, 1, parent, h.title, h.body, reason)]
  {
  }

  // Any interleaving of writers.

  /** What one writer asks for: an update of the revision it read, however long ago, or a first revision. */
  datatype WriteRequest = Update(cmd: CasUpdate) | Start(id: int, head: Head, parent: Option<int>, reason: string)

  function Attempted(t: Tables, w: WriteRequest): Result<Tables, WriteError> {
    match w
    case Update(cmd) => Cas(t, cmd)
    case Start(id, h, parent, reason) => Insert(t, id, h, parent, reason)
  }

  /** A refused write changes nothing. */
  function AfterWrite(t: Tables, w: WriteRequest): Tables {
    var r := Attempted(t, w);
    if r.Ok? then r.value else t
  }

  /** The tables after these writes, in the order in which the database took them. */
  function Interleaved(t: Tables, writes: seq<WriteRequest>): Tables {
    if |writes| == 0 then t else AfterWrite(Interleaved(t, writes[..|writes| - 1]), writes[|writes| - 1])
  }

  lemma WritesKeepLabels(t: Tables, w: WriteRequest)
    requires LabelsUnique(t)
    ensures LabelsUnique(AfterWrite(t, w))
  {
    hide MatchingRows;
  }

  /** Heads never disappear and revisions never go back; a head is replaced only by one of a later revision. */
  ghost predicate Onward(a: Tables, b: Tables) {
    && a.revisions <= b.revisions
    && forall m :: m in a.heads ==>
         m in b.heads && (b.heads[m] == a.heads[m] || a.heads[m].revision < b.heads[m].revision)
  }

  lemma WriteKeepsTables(t: Tables, w: WriteRequest)
    requires Lineage(t) && LabelsUnique(t)
    ensures Lineage(AfterWrite(t, w)) && LabelsUnique(AfterWrite(t, w))
    ensures Attempted(t, w) != Err(LineageError)
  {
    hide Cas, Lineage, LabelsUnique;
    WritesKeepLabels(t, w);
    match w
    case Update(cmd) => CasKeepsLineage(t, cmd);
    case Start(id, h, parent, reason) => InsertKeepsLineage(t, id, h, parent, reason);
  }

  /**
   * Whatever the writers ask for and however their writes interleave, stale and refused ones included, every
   * memory's revisions stay one chain, active labels stay unique, and no write meets a broken lineage.
   */
  lemma {:induction false} InterleavingsKeepLineage(t: Tables, writes: seq<WriteRequest>, next: WriteRequest)
    requires Lineage(t) && LabelsUnique(t)
    ensures Lineage(Interleaved(t, writes)) && LabelsUnique(Interleaved(t, writes))
    ensures Attempted(Interleaved(t, writes), next) != Err(LineageError)
    decreases |writes|
  {
    hide Lineage, LabelsUnique, Attempted, AfterWrite;
    if |writes| > 0 {
      var n := |writes| - 1;
      InterleavingsKeepLineage(t, writes[..n], writes[n]);
      WriteKeepsTables(Interleaved(t, writes[..n]), writes[n]);
    }
    WriteKeepsTables(Interleaved(t, writes), next);
  }

  lemma WriteGoesOnward(t: Tables, w: WriteRequest)
    ensures Onward(t, AfterWrite(t, w))
  {
    hide MatchingRows, LabelTaken;
  }

  lemma {:induction false} InterleavingsGoOnward(t: Tables, writes: seq<WriteRequest>)
    ensures Onward(t, Interleaved(t, writes))
    decreases |writes|
  {
    if |writes| > 0 {
      InterleavingsGoOnward(t, writes[..|writes| - 1]);
      WriteGoesOnward(Interleaved(t, writes[..|writes| - 1]), writes[|writes| - 1]);
      hide AfterWrite;
    }
  }

  /**
   * One writer wins per expected revision: after a write succeeded, every later write of that memory that
   * expects the same revision is refused with the head as it then is, whatever was written in between.
   */
  lemma {:induction false} OneWinner(t: Tables, first: CasUpdate, between: seq<WriteRequest>, second: CasUpdate)
    requires first.memory == second.memory && first.expected == second.expected
    requires Cas(t, first).Ok? && second.changes != Changes(None, None, None, false)
    ensures var later := Interleaved(Cas(t, first).value, between);
      && second.memory in later.heads && later.heads[second.memory].revision > second.expected
      && Cas(later, second) == Err(CasConflict(later.heads[second.memory]))
  {
    hide MatchingRows, LabelTaken, Interleaved;
    InterleavingsGoOnward(Cas(t, first).value, between);
  }

  /** Along any interleaving, of the writes that expect one revision of one memory at most one succeeds. */
  lemma AtMostOneSucceeds(t: Tables, writes: seq<WriteRequest>, i: nat, j: nat)
    requires i < j < |writes| && writes[i].Update? && writes[j].Update?
    requires writes[i].cmd.memory == writes[j].cmd.memory && writes[i].cmd.expected == writes[j].cmd.expected
    ensures Attempted(Interleaved(t, writes[..i]), writes[i]).Err?
      || Attempted(Interleaved(t, writes[..j]), writes[j]).Err?
  {
    var before := Interleaved(t, writes[..i]);
    if Attempted(before, writes[i]).Ok? && writes[j].cmd.changes != Changes(None, None, None, false) {
      OneWinner(before, writes[i].cmd, writes[i + 1..j], writes[j].cmd);
      InterleavedInTwo(t, writes[..j], i + 1);
      assert writes[..j][..i + 1] == writes[..i + 1] && writes[..i + 1][..i] == writes[..i];
      assert writes[..j][i + 1..] == writes[i + 1..j];
    }
  }

  lemma {:induction false} InterleavedInTwo(t: Tables, writes: seq<WriteRequest>, k: nat)
    requires k <= |writes|
    ensures Interleaved(t, writes) == Interleaved(Interleaved(t, writes[..k]), writes[k..])
    decreases |writes|
  {
    if k == |writes| {
      assert writes[..k] == writes && writes[k..] == [];
    } else {
      var n := |writes| - 1;
      InterleavedInTwo(t, writes[..n], k);
      assert writes[..n][..k] == writes[..k] && writes[..n][k..] == writes[k..][..n - k];
    }
  }

  /** The memory_unit and memory_revision tables. */
  class MemoryStore {
    var heads: map<int, Head>
    var revisions: seq<Revision>

    function State(): Tables
      reads this
    {
      Tables(heads, revisions)
    }

    constructor ()
      ensures State() == Tables(map[], [])
    {
      heads, revisions := map[], [];
    }

    /** Swap back to an earlier state, as a rolled back savepoint or transaction does. */
    method Restore(t: Tables)
      modifies this
      ensures State() == t
    {
      heads, revisions := t.heads, t.revisions;
    }

    /** The parent select: one pass over the revision rows. */
    method FindRows(memory: int, revision: nat) returns (rows: seq<int>)
      ensures rows == MatchingRows(revisions, memory, revision)
    {
      rows := [];
      for u := 0 to |revisions|
        invariant rows == MatchingRows(revisions[..u], memory, revision)
      {
        assert revisions[..u + 1][..u] == revisions[..u];
        if revisions[u].memory == memory && revisions[u].revision == revision {
          rows := rows + [u];
        }
      }
      assert revisions[..|revisions|] == revisions;
    }

    /** Head first, then the parent lookup and the appended row; a failed lookup takes the head back. */
    method CasUpdateMemoryUnit(cmd: CasUpdate) returns (r: Result<Head, WriteError>)
      modifies this
      ensures Cas(old(State()), cmd).Ok? ==> State() == Cas(old(State()), cmd).value && r == Ok(heads[cmd.memory])
      ensures Cas(old(State()), cmd).Err? ==> State() == old(State()) && r == Err(Cas(old(State()), cmd).error)
    {
      if cmd.changes == Changes(None, None, None, false) {
        return Err(NothingChanged);
      }
      if cmd.memory !in heads {
        return Err(MemoryNotFound);
      }
      var current := heads[cmd.memory];
      if current.revision != cmd.expected {
        return Err(CasConflict(current));
      }
      var updated := Applied(current, cmd.changes);
      if LabelTaken(heads, cmd.memory, updated) {
        return Err(ActiveLabelTaken);
      }
      var savepoint := State();
      heads := heads[cmd.memory := updated];
      var parents := FindRows(cmd.memory, cmd.expected);
      if |parents| != 1 {
        Restore(savepoint);
        return Err(LineageError);
      }
      revisions := revisions
        + [Revision(cmd.memory, updated.revision, Some(parents[0]), updated.title, updated.body, cmd.reason)];
      r := Ok(updated);
    }

    method InsertRoot(id: int, head: Head, parent: Option<int>, reason: string) returns (r: Result<Head, WriteError>)
      modifies this
      ensures Insert(old(State()), id, head, parent, reason).Ok? ==>
        State() == Insert(old(State()), id, head, parent, reason).value && r == Ok(heads[id])
      ensures Insert(old(State()), id, head, parent, reason).Err? ==>
        State() == old(State()) && r == Err(Insert(old(State()), id, head, parent, reason).error)
    {
      if id in heads {
        return Err(IdTaken);
      }
      var root := head.(revision := 1);
      if LabelTaken(heads, id, root) {
        return Err(ActiveLabelTaken);
      }
      heads := heads[id := root];
      revisions := revisions + [Revision(id, 1, parent, root.title, root.body, reason)];
      r := Ok(root);
    }
  }
}
