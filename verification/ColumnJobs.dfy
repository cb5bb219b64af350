/**
  The add column and drop column jobs: what one run of the owner does with the table, what a
  cancel asks for, and what a run that fails leaves behind.
 */
module ColumnJobs {
  import opened Columns
  import opened SchemaStates

  const COLUMN_COUNT_LIMIT := 512

  datatype JobState = Queued | Running | Cancelling | Rollback | RollbackDone | Finished | Stopped

  /** The arguments stored with the job: those it came with, or the bare name a rollback works with. */
  datatype Kind = AddColumn(col: Column, pos: Position, nameOnly: bool) | DropColumn(name: string)

  datatype Job = Job(kind: Kind, state: JobState, schemaState: SchemaState, offset: nat)

  datatype State = State(t: Table, job: Job)

  // ---------- one run ----------

  function Find(cols: seq<Column>, name: string): (i: int)
    ensures -1 <= i < |cols|
    ensures i >= 0 ==> cols[i].name == name
    ensures i == -1 ==> !HasName(cols, name)
    decreases |cols|
  {
    if cols == [] then -1
    else if cols[|cols| - 1].name == name then |cols| - 1
    else
      assert forall i :: 0 <= i < |cols| - 1 ==> cols[..|cols| - 1][i] == cols[i];
      Find(cols[..|cols| - 1], name)
  }

  predicate CoveredByIndex(t: Table, name: string) {
    exists i | 0 <= i < |t.indices| :: exists j | 0 <= j < |t.indices[i]| :: t.indices[i][j].name == name
  }

  function SetState(t: Table, i: nat, st: SchemaState): Table
    requires i < |t.cols|
  {
    t.(cols := t.cols[i := t.cols[i].(state := st)])
  }

  /** createColumnInfo: the place the column will have; -1 when the column to stand behind is missing. */
  function Place(cols: seq<Column>, pos: Position): int {
    match pos
    case Default => |cols|
    case First => 0
    case After(name) => var c := Find(cols, name); if c < 0 then -1 else cols[c].offset + 1
  }

  function Appended(t: Table, col: Column): Table {
    t.(cols := t.cols + [col.(offset := |t.cols|, state := StateNone)])
  }

  function Stop(s: State): State {
    s.(job := s.job.(state := Stopped))
  }

  function OnAddColumn(s: State): State
    requires s.job.kind.AddColumn?
  {
    var col := s.job.kind.col;
    var c := Find(s.t.cols, col.name);
    if c >= 0 && s.t.cols[c].state == Public then Stop(s)
    else if c < 0 then
      var offset := Place(s.t.cols, s.job.kind.pos);
      if offset < 0 || |s.t.cols| + 1 > COLUMN_COUNT_LIMIT then Stop(s)
      else State(SetState(Appended(s.t, col), |s.t.cols|, DeleteOnly), s.job.(schemaState := DeleteOnly, offset := offset))
    else if s.t.cols[c].state == StateNone then State(SetState(s.t, c, DeleteOnly), s.job.(schemaState := DeleteOnly))
    else if s.t.cols[c].state == DeleteOnly then State(SetState(s.t, c, WriteOnly), s.job.(schemaState := WriteOnly))
    else if s.t.cols[c].state == WriteOnly then State(SetState(s.t, c, WriteReorg), s.job.(schemaState := WriteReorg))
    else if s.t.cols[c].state == WriteReorg && s.job.offset < |s.t.cols| then
      State(Reorder(SetState(s.t, c, Public), |s.t.cols| - 1, s.job.offset), s.job.(state := Finished, schemaState := Public))
    else s
  }

  function OnDropColumn(s: State, name: string): State
  {
    var c := Find(s.t.cols, name);
    if c < 0 || |s.t.cols| == 1 || CoveredByIndex(s.t, name) then Stop(s)
    else if s.t.cols[c].state == Public then
      State(Reorder(SetState(s.t, c, WriteOnly), c, |s.t.cols| - 1), s.job.(schemaState := WriteOnly))
    else if s.t.cols[c].state == WriteOnly then State(SetState(s.t, c, DeleteOnly), s.job.(schemaState := DeleteOnly))
    else if s.t.cols[c].state == DeleteOnly then State(SetState(s.t, c, DeleteReorg), s.job.(schemaState := DeleteReorg))
    else if s.t.cols[c].state == DeleteReorg then
      State(s.t.(cols := s.t.cols[..|s.t.cols| - 1]),
            s.job.(state := if s.job.state == Rollback then RollbackDone else Finished, schemaState := StateNone))
    else s
  }

  /** A cancelled job is turned into a rollback; a drop that has begun goes on. */
  function Convert(s: State): State
  {
    match s.job.kind
    case AddColumn(col, pos, _) =>
      var c := Find(s.t.cols, col.name);
      if c < 0 || s.t.cols[c].state == Public then Stop(s)
      else State(SetState(s.t, c, DeleteOnly),
                 s.job.(state := Rollback, schemaState := DeleteOnly, kind := AddColumn(col, pos, true)))
    case DropColumn(name) =>
      var c := Find(s.t.cols, name);
      if c < 0 || |s.t.cols| == 1 || CoveredByIndex(s.t, name) then Stop(s)
      else if s.t.cols[c].state == Public then s.(job := s.job.(state := RollbackDone, schemaState := Public))
      else s.(job := s.job.(state := Running))
  }

  function RunJob(s: State): State
  {
    if s.job.state == Cancelling then Convert(s)
    else if s.job.state == Rollback && s.job.kind.AddColumn? then
      // The stored arguments of an unconverted job do not hold the bare name, so no column is found.
      if s.job.kind.nameOnly then OnDropColumn(s, s.job.kind.col.name) else Stop(s)
    else
      var s := s.(job := s.job.(state := Running));
      if s.job.kind.AddColumn? then OnAddColumn(s) else OnDropColumn(s, s.job.kind.name)
  }

  /**
    A run that meets an error: the table is not written, but the job is, with what the run had
    already changed in it. `late` tells whether it failed as it wrote the new table, and not as it
    read the old one. A job whose arguments were not decoded keeps those it had.
   */
  function FailJob(s: State, late: bool, overLimit: bool): State {
    var r := RunJob(s).job;
    var st := if late && InQueue(r) then r.schemaState else s.job.schemaState;
    if s.job.state == Cancelling then
      if s.job.kind.DropColumn? then s
      else if late && InQueue(r) then s.(job := r)
      else s.(job := s.job.(state := Rollback))
    else if s.job.state == Rollback then s.(job := s.job.(schemaState := st))
    else
      var job := s.job.(state := Running, schemaState := st);
      s.(job := if overLimit && Rollbackable(job) then job.(state := Cancelling) else job)
  }

  // ---------- runs ----------

  datatype Event =
    | Run
    | Fail(late: bool, overLimit: bool)
    | Refuse                              // the first new table of the job does not pass its check
    | Cancel

  predicate InQueue(job: Job) {
    job.state !in {RollbackDone, Finished, Stopped}
  }

  predicate Rollbackable(job: Job) {
    job.kind.AddColumn? || job.schemaState == StateNone
  }

  predicate Enabled(s: State, e: Event) {
    && InQueue(s.job)
    && (e.Cancel? ==> s.job.state != Rollback && Rollbackable(s.job))
    && (e.Refuse? ==> s.job.state in {Queued, Running} && FirstStep(s))
  }

  /** The job has not touched the table yet. */
  predicate FirstStep(s: State) {
    var c := Find(s.t.cols, if s.job.kind.AddColumn? then s.job.kind.col.name else s.job.kind.name);
    if s.job.kind.AddColumn? then c < 0 else c >= 0 && s.t.cols[c].state == Public
  }

  function Step(s: State, e: Event): State {
    match e
    case Run => RunJob(s)
    case Fail(late, overLimit) => FailJob(s, late, overLimit)
    case Refuse => Stop(s)
    case Cancel => s.(job := s.job.(state := Cancelling))
  }

  predicate Legal(s: State, es: seq<Event>)
    decreases |es|
  {
    es == [] || (Enabled(s, es[0]) && Legal(Step(s, es[0]), es[1..]))
  }

  function After(s: State, es: seq<Event>): State
    decreases |es|
  {
    if es == [] then s else After(Step(s, es[0]), es[1..])
  }

  /** A table on which no column job is in work. */
  ghost predicate Quiet(t: Table) {
    WellFormed(t) && |t.cols| > 0 && forall i :: 0 <= i < |t.cols| ==> t.cols[i].state == Public
  }

  // ---------- what the jobs are for ----------

  function Renumber(cols: seq<Column>): (r: seq<Column>)
    ensures |r| == |cols|
  {
    seq(|cols|, i requires 0 <= i < |cols| => cols[i].(offset := i))
  }

  function InsertAt(cols: seq<Column>, k: nat, c: Column): seq<Column>
    requires k <= |cols|
  {
    Renumber(cols[..k] + [c] + cols[k..])
  }

  function RemoveAt(cols: seq<Column>, k: nat): seq<Column>
    requires k < |cols|
  {
    Renumber(cols[..k] + cols[k + 1..])
  }

  /** The table with one more column at `k`. */
  function Inserted(t: Table, k: nat, c: Column): Table
    requires k <= |t.cols|
  {
    Table(InsertAt(t.cols, k, c), OffsetsFrom(t.indices, k, 1))
  }

  /** The table without its column at `k`. */
  function Removed(t: Table, k: nat): Table
    requires k < |t.cols|
  {
    Table(RemoveAt(t.cols, k), OffsetsFrom(t.indices, k, -1))
  }

  function OffsetFrom(ix: Index, k: int, d: int): Index {
    seq(|ix|, j requires 0 <= j < |ix| => ix[j].(offset := if ix[j].offset >= k then ix[j].offset + d else ix[j].offset))
  }

  function OffsetsFrom(indices: seq<Index>, k: int, d: int): seq<Index> {
    seq(|indices|, i requires 0 <= i < |indices| => OffsetFrom(indices[i], k, d))
  }

  lemma OffsetsBack(indices: seq<Index>, k: int)
    ensures OffsetsFrom(OffsetsFrom(indices, k, 1), k, -1) == indices
  {
    var r := OffsetsFrom(OffsetsFrom(indices, k, 1), k, -1);
    forall i | 0 <= i < |indices| ensures r[i] == indices[i] {
      assert r[i] == OffsetFrom(OffsetFrom(indices[i], k, 1), k, -1);
    }
  }

  /** Removing an inserted column gives back the table. */
  lemma InsertedThenRemoved(t: Table, k: nat, c: Column)
    requires Numbered(t.cols) && k <= |t.cols|
    ensures Removed(Inserted(t, k, c), k) == t
  {
    OffsetsBack(t.indices, k);
    var cols, r := t.cols, InsertAt(t.cols, k, c);
    assert |RemoveAt(r, k)| == |cols|;
    assert RemoveAt(r, k) == cols;
  }

  lemma InsertedNames(cols: seq<Column>, k: nat, c: Column)
    requires UniqueNames(cols) && k <= |cols| && !HasName(cols, c.name)
    ensures UniqueNames(InsertAt(cols, k, c)) && Numbered(InsertAt(cols, k, c))
  {
    var r := cols[..k] + [c] + cols[k..];
    assert forall i :: 0 <= i < |r| && i != k ==> r[i] == cols[if i < k then i else i - 1];
    assert forall i :: 0 <= i < |cols| ==> cols[i].name != c.name;
  }

  /** A new column with a new name keeps the table well formed. */
  lemma InsertedOk(t: Table, k: nat, c: Column)
    requires WellFormed(t) && k <= |t.cols| && !HasName(t.cols, c.name)
    ensures WellFormed(Inserted(t, k, c))
  {
    var cols, indices := InsertAt(t.cols, k, c), OffsetsFrom(t.indices, k, 1);
    InsertedNames(t.cols, k, c);
    forall i | 0 <= i < |indices| ensures IndexOk(cols, indices[i]) {
      assert IndexOk(t.cols, t.indices[i]);
      InsertedIndex(t.cols, k, c, t.indices[i]);
    }
  }

  lemma InsertedIndex(cols: seq<Column>, k: nat, c: Column, ix: Index)
    requires k <= |cols| && IndexOk(cols, ix)
    ensures IndexOk(InsertAt(cols, k, c), OffsetFrom(ix, k, 1))
    ensures OffsetFrom(ix, k, 1) == SkipOffsets(ix, |cols|, k)
  {
    var r, ix' := InsertAt(cols, k, c), OffsetFrom(ix, k, 1);
    forall j | 0 <= j < |ix| ensures PointsTo(r, ix'[j]) && ix'[j] == SkipOffsets(ix, |cols|, k)[j] {
      assert PointsTo(cols, ix[j]);
    }
  }

  /** Appending a column and moving it to its place inserts it there. */
  lemma AddedIsInserted(t: Table, k: nat, c: Column)
    requires WellFormed(t) && k <= |t.cols|
    ensures Reorder(t.(cols := t.cols + [c]), |t.cols|, k) == Inserted(t, k, c)
  {
    var n, cols := |t.cols|, t.cols + [c];
    var r, r' := ShiftColumns(cols, n, k), InsertAt(t.cols, k, c);
    forall i | 0 <= i <= n ensures r[i] == r'[i] {
    }
    assert r == r';
    forall i | 0 <= i < |t.indices| ensures SkipAll(t.indices, n, k)[i] == OffsetsFrom(t.indices, k, 1)[i] {
      assert IndexOk(t.cols, t.indices[i]);
      InsertedIndex(t.cols, k, c, t.indices[i]);
    }
    assert SkipAll(t.indices, n, k) == OffsetsFrom(t.indices, k, 1);
  }

  /** Moving a column to the end and cutting it off removes it, if no index covers it. */
  lemma HiddenIsRemoved(t: Table, k: nat, st: SchemaState)
    requires WellFormed(t) && k < |t.cols| && !CoveredByIndex(t, t.cols[k].name)
    ensures Cut(Hidden(t, k, st)) == Removed(t, k)
  {
    var n, r, t' := |t.cols|, Cut(Hidden(t, k, st)), Removed(t, k);
    assert r.cols == t'.cols;
    forall i | 0 <= i < |t.indices| ensures r.indices[i] == t'.indices[i] {
      assert IndexOk(t.cols, t.indices[i]);
      assert r.indices[i] == SkipOffsets(t.indices[i], k, n - 1) && t'.indices[i] == OffsetFrom(t.indices[i], k, -1);
      forall j | 0 <= j < |t.indices[i]| ensures r.indices[i][j] == t'.indices[i][j] {
        assert PointsTo(t.cols, t.indices[i][j]) && t.indices[i][j].name != t.cols[k].name;
      }
    }
    assert r.indices == t'.indices;
  }

  /** The table while its column at `k` is being dropped. */
  function Hidden(t: Table, k: nat, st: SchemaState): Table
    requires k < |t.cols|
  {
    Reorder(SetState(t, k, st), k, |t.cols| - 1)
  }

  function Cut(t: Table): Table
    requires |t.cols| > 0
  {
    t.(cols := t.cols[..|t.cols| - 1])
  }

  lemma RemovedOk(t: Table, k: nat)
    requires WellFormed(t) && k < |t.cols| && !CoveredByIndex(t, t.cols[k].name)
    ensures WellFormed(Removed(t, k))
  {
    var cols, indices := RemoveAt(t.cols, k), OffsetsFrom(t.indices, k, -1);
    assert forall i :: 0 <= i < |cols| ==> cols[i].name == t.cols[if i < k then i else i + 1].name;
    forall i | 0 <= i < |indices| ensures IndexOk(cols, indices[i]) {
      assert IndexOk(t.cols, t.indices[i]);
      forall j | 0 <= j < |indices[i]| ensures PointsTo(cols, indices[i][j]) {
        assert PointsTo(t.cols, t.indices[i][j]) && t.indices[i][j].name != t.cols[k].name;
        assert indices[i][j] == OffsetFrom(t.indices[i], k, -1)[j];
      }
    }
  }

  // ---------- every run of an add column job ----------

  /** The table while the new column is in work: everything as before, and one more column at the end. */
  function InWork(t: Table, col: Column, st: SchemaState): Table {
    t.(cols := t.cols + [col.(offset := |t.cols|, state := st)])
  }

  ghost predicate IsInWork(t0: Table, col: Column, t: Table, sts: set<SchemaState>) {
    exists st | st in sts :: t == InWork(t0, col, st)
  }

  ghost predicate AddInv(t0: Table, col: Column, pos: Position, s: State) {
    && s.job.kind.AddColumn? && s.job.kind.col == col && s.job.kind.pos == pos
    && (s.job.state in {Queued, Running, Cancelling} ==> !s.job.kind.nameOnly)
    && (s.job.state in {Running, Cancelling} ==>
          || s.t == t0
          || (!HasName(t0.cols, col.name) && s.job.offset == Place(t0.cols, pos) <= |t0.cols|
              && IsInWork(t0, col, s.t, {DeleteOnly, WriteOnly, WriteReorg})))
    && (s.job.state == Rollback ==>
          if s.job.kind.nameOnly then !HasName(t0.cols, col.name) && IsInWork(t0, col, s.t, {WriteOnly, DeleteOnly, DeleteReorg})
          else s.t == t0)
    && (s.job.state == Finished ==>
          && !HasName(t0.cols, col.name) && 0 <= Place(t0.cols, pos) <= |t0.cols|
          && s.t == Inserted(t0, Place(t0.cols, pos), col.(state := Public)))
    && (s.job.state in {Queued, RollbackDone, Stopped} ==> s.t == t0)
  }

  lemma FindInWork(t: Table, col: Column, st: SchemaState)
    requires !HasName(t.cols, col.name)
    ensures Find(InWork(t, col, st).cols, col.name) == |t.cols|
  {
  }

  lemma NotCovered(t: Table, col: Column, st: SchemaState)
    requires WellFormed(t) && !HasName(t.cols, col.name)
    ensures !CoveredByIndex(InWork(t, col, st), col.name)
  {
    forall i, j | 0 <= i < |t.indices| && 0 <= j < |t.indices[i]| ensures t.indices[i][j].name != col.name {
      assert IndexOk(t.cols, t.indices[i]) && PointsTo(t.cols, t.indices[i][j]);
    }
  }

  lemma SetInWork(t: Table, col: Column, st: SchemaState, st': SchemaState)
    ensures SetState(InWork(t, col, st), |t.cols|, st') == InWork(t, col, st')
    ensures Appended(t, col) == InWork(t, col, StateNone)
    ensures Cut(InWork(t, col, st)) == t
  {
    assert InWork(t, col, st).cols[|t.cols| := col.(offset := |t.cols|, state := st')] == InWork(t, col, st').cols;
    assert Cut(InWork(t, col, st)).cols == t.cols;
  }

  lemma AddOnQuiet(t0: Table, col: Column, pos: Position, s: State)
    requires Quiet(t0) && s.job.kind == AddColumn(col, pos, false)
    requires s.t == t0 && s.job.state == Running
    ensures AddInv(t0, col, pos, OnAddColumn(s))
  {
    SetInWork(t0, col, StateNone, DeleteOnly);
    assert DeleteOnly in {DeleteOnly, WriteOnly, WriteReorg};
    assert HasName(t0.cols, col.name) ==> Find(t0.cols, col.name) >= 0;
  }

  lemma AddOnWork(t0: Table, col: Column, pos: Position, s: State, st: SchemaState)
    requires Quiet(t0) && s.job.kind == AddColumn(col, pos, false)
    requires st in {DeleteOnly, WriteOnly, WriteReorg} && s.t == InWork(t0, col, st) && s.job.state == Running
    requires !HasName(t0.cols, col.name) && s.job.offset == Place(t0.cols, pos) <= |t0.cols|
    ensures AddInv(t0, col, pos, OnAddColumn(s))
  {
    FindInWork(t0, col, st);
    SetInWork(t0, col, st, WriteOnly);
    SetInWork(t0, col, st, WriteReorg);
    SetInWork(t0, col, st, Public);
    assert WriteOnly in {DeleteOnly, WriteOnly, WriteReorg} && WriteReorg in {DeleteOnly, WriteOnly, WriteReorg};
    AddedIsInserted(t0, s.job.offset, InWork(t0, col, Public).cols[|t0.cols|]);
    var k := s.job.offset;
    assert Inserted(t0, k, InWork(t0, col, Public).cols[|t0.cols|]).cols == Inserted(t0, k, col.(state := Public)).cols;
  }

  lemma DropOnWork(t0: Table, col: Column, pos: Position, s: State, st: SchemaState)
    requires Quiet(t0) && s.job.kind == AddColumn(col, pos, true)
    requires st in {WriteOnly, DeleteOnly, DeleteReorg} && s.t == InWork(t0, col, st) && s.job.state == Rollback
    requires !HasName(t0.cols, col.name)
    ensures AddInv(t0, col, pos, OnDropColumn(s, col.name))
  {
    FindInWork(t0, col, st);
    NotCovered(t0, col, st);
    SetInWork(t0, col, st, DeleteOnly);
    SetInWork(t0, col, st, DeleteReorg);
    assert DeleteOnly in {WriteOnly, DeleteOnly, DeleteReorg} && DeleteReorg in {WriteOnly, DeleteOnly, DeleteReorg};
  }

  lemma ConvertAdd(t0: Table, col: Column, pos: Position, s: State)
    requires Quiet(t0) && AddInv(t0, col, pos, s) && s.job.state == Cancelling
    ensures AddInv(t0, col, pos, Convert(s))
  {
    if s.t != t0 {
      var st :| st in {DeleteOnly, WriteOnly, WriteReorg} && s.t == InWork(t0, col, st);
      FindInWork(t0, col, st);
      SetInWork(t0, col, st, DeleteOnly);
      assert DeleteOnly in {WriteOnly, DeleteOnly, DeleteReorg};
    } else if HasName(t0.cols, col.name) {
      assert Find(t0.cols, col.name) >= 0;
    }
  }

  /**
    A run fails while the job turns into a rollback of a column in work. If it could not read the
    table, the stored arguments are not those of a rollback; if it could not write it, a column in
    reorganization stays in a state that no drop goes on from.
   */
  ghost predicate Loses(t0: Table, s: State, e: Event) {
    && e.Fail? && s.job.state == Cancelling && s.job.kind.AddColumn? && s.t != t0
    && (e.late ==> s.t.cols != [] && s.t.cols[|s.t.cols| - 1].state == WriteReorg)
  }

  lemma ConvertFailsOnWork(t0: Table, col: Column, pos: Position, s: State, e: Event, st: SchemaState)
    requires Quiet(t0) && AddInv(t0, col, pos, s) && s.job.state == Cancelling && e.Fail?
    requires !HasName(t0.cols, col.name) && st in {DeleteOnly, WriteOnly, WriteReorg} && s.t == InWork(t0, col, st)
    ensures var r := Step(s, e);
            r.t == s.t && r.job.state == Rollback && r.job.kind == AddColumn(col, pos, e.late)
  {
    FindInWork(t0, col, st);
  }

  /** A rollback of a column in work keeps the promise if it has the name and the column is in a state a drop goes on from. */
  lemma RollbackOnWork(t0: Table, col: Column, pos: Position, r: State, named: bool, st: SchemaState)
    requires Quiet(t0) && !HasName(t0.cols, col.name) && st in {DeleteOnly, WriteOnly, WriteReorg}
    requires r.t == InWork(t0, col, st) && r.job.state == Rollback && r.job.kind == AddColumn(col, pos, named)
    ensures AddInv(t0, col, pos, r) <==> named && st != WriteReorg
    ensures !(named && st != WriteReorg) ==> Lost(r)
  {
    FindInWork(t0, col, st);
    NotCovered(t0, col, st);
    assert r.t.cols[|t0.cols|].state == st && |r.t.cols| == |t0.cols| + 1;
    forall st' | st' in {WriteOnly, DeleteOnly, DeleteReorg} && r.t == InWork(t0, col, st') ensures st' == st {
      assert InWork(t0, col, st').cols[|t0.cols|].state == st';
    }
  }

  lemma ConvertFails(t0: Table, col: Column, pos: Position, s: State, e: Event)
    requires Quiet(t0) && AddInv(t0, col, pos, s) && s.job.state == Cancelling && e.Fail?
    ensures AddInv(t0, col, pos, Step(s, e)) <==> !Loses(t0, s, e)
    ensures Loses(t0, s, e) ==> Lost(Step(s, e))
  {
    if s.t != t0 {
      var st :| st in {DeleteOnly, WriteOnly, WriteReorg} && s.t == InWork(t0, col, st);
      ConvertFailsOnWork(t0, col, pos, s, e, st);
      RollbackOnWork(t0, col, pos, Step(s, e), e.late, st);
      assert s.t.cols[|t0.cols|].state == st && |s.t.cols| == |t0.cols| + 1;
    } else if HasName(t0.cols, col.name) {
      assert Find(t0.cols, col.name) >= 0;
    }
  }

  /** A job from which no event leads on: it gives up, or every run of it fails. */
  ghost predicate Lost(s: State) {
    && s.job.kind.AddColumn? && s.job.state in {Rollback, Stopped}
    && (s.job.state == Rollback && s.job.kind.nameOnly ==>
          var c := Find(s.t.cols, s.job.kind.col.name);
          c >= 0 && s.t.cols[c].state == WriteReorg && !CoveredByIndex(s.t, s.job.kind.col.name) && |s.t.cols| > 1)
  }

  lemma RefusedIsQuiet(t0: Table, col: Column, pos: Position, s: State)
    requires Quiet(t0) && AddInv(t0, col, pos, s) && s.job.state in {Queued, Running}
    ensures FirstStep(s) ==> s.t == t0
  {
    if s.t != t0 {
      var st :| st in {DeleteOnly, WriteOnly, WriteReorg} && s.t == InWork(t0, col, st);
      FindInWork(t0, col, st);
    }
  }

  /** A step keeps the promise of the job exactly when it does not lose the column that is in work. */
  lemma AddStep(t0: Table, col: Column, pos: Position, s: State, e: Event)
    requires Quiet(t0) && AddInv(t0, col, pos, s) && Enabled(s, e)
    ensures AddInv(t0, col, pos, Step(s, e)) <==> !Loses(t0, s, e)
  {
    if e.Fail? && s.job.state == Cancelling {
      ConvertFails(t0, col, pos, s, e);
    }
    if e.Refuse? {
      RefusedIsQuiet(t0, col, pos, s);
    }
    if e.Run? {
      if s.job.state == Cancelling {
        ConvertAdd(t0, col, pos, s);
      } else if s.job.state == Rollback {
        if s.job.kind.nameOnly {
          var st :| st in {WriteOnly, DeleteOnly, DeleteReorg} && s.t == InWork(t0, col, st);
          DropOnWork(t0, col, pos, s, st);
        }
      } else {
        var r := s.(job := s.job.(state := Running));
        if s.t == t0 {
          AddOnQuiet(t0, col, pos, r);
        } else {
          var st :| st in {DeleteOnly, WriteOnly, WriteReorg} && s.t == InWork(t0, col, st);
          AddOnWork(t0, col, pos, r, st);
        }
      }
    }
  }

  /** No step of the run loses the column in work. */
  ghost predicate Lossless(t0: Table, s: State, es: seq<Event>)
    decreases |es|
  {
    es == [] || (!Loses(t0, s, es[0]) && Lossless(t0, Step(s, es[0]), es[1..]))
  }

  /** A lost column stays. */
  lemma {:induction false} LostStays(s: State, es: seq<Event>)
    requires Legal(s, es) && Lost(s)
    ensures After(s, es).t == s.t && Lost(After(s, es)) && After(s, es).job.kind == s.job.kind
    decreases |es|
  {
    if es == [] {
    } else {
      LostStays(Step(s, es[0]), es[1..]);
    }
  }

  /** The promise of the job holds at the end of a run if and only if the run lost nothing. */
  lemma {:induction false} AddRun(t0: Table, col: Column, pos: Position, s: State, es: seq<Event>)
    requires Quiet(t0) && AddInv(t0, col, pos, s) && Legal(s, es)
    ensures AddInv(t0, col, pos, After(s, es)) <==> Lossless(t0, s, es)
    decreases |es|
  {
    if es == [] {
    } else {
      AddStep(t0, col, pos, s, es[0]);
      if Loses(t0, s, es[0]) {
        ConvertFails(t0, col, pos, s, es[0]);
        var r := Step(s, es[0]);
        LostStays(r, es[1..]);
        LostBreaks(t0, col, pos, r, After(r, es[1..]));
      } else {
        AddRun(t0, col, pos, Step(s, es[0]), es[1..]);
      }
    }
  }

  lemma LostBreaks(t0: Table, col: Column, pos: Position, r: State, s: State)
    requires Quiet(t0) && Lost(r) && Lost(s) && s.t == r.t && r.t != t0 && s.job.kind.col == col
    ensures !AddInv(t0, col, pos, s)
  {
    if s.job.state == Rollback && s.job.kind.nameOnly && !HasName(t0.cols, col.name) {
      forall st | st in {WriteOnly, DeleteOnly, DeleteReorg} ensures s.t != InWork(t0, col, st) {
        FindInWork(t0, col, st);
      }
    }
  }

  function NewAdd(t0: Table, col: Column, pos: Position): State {
    State(t0, Job(AddColumn(col, pos, false), Queued, StateNone, 0))
  }

  /** The columns of `t` are those of `t0`, except that the last one may be new and not yet public. */
  ghost predicate OnlyLastInWork(t0: Table, t: Table) {
    && t.indices == t0.indices && t0.cols <= t.cols && |t.cols| <= |t0.cols| + 1
    && forall i :: |t0.cols| <= i < |t.cols| ==> t.cols[i].state != Public && t.cols[i].offset == i
  }

  /**
    While the job is in the queue the new column is the last and the only one not public; a
    finished job has put the column in its place; a job that was rolled back or stopped has left no
    trace.
   */
  ghost predicate AddPromise(t0: Table, col: Column, pos: Position, s: State) {
    && (InQueue(s.job) ==> OnlyLastInWork(t0, s.t))
    && (s.job.state == Finished ==>
          && 0 <= Place(t0.cols, pos) <= |t0.cols| && WellFormed(s.t) && Placed(s.t.cols, col.name, pos)
          && s.t == Inserted(t0, Place(t0.cols, pos), col.(state := Public)))
    && (s.job.state in {RollbackDone, Stopped} ==> s.t == t0)
  }

  /** The column is where the statement wants it: at the end, at the front, or right behind another. */
  ghost predicate Placed(cols: seq<Column>, name: string, pos: Position) {
    match pos
    case Default => cols != [] && cols[|cols| - 1].name == name
    case First => cols != [] && cols[0].name == name
    case After(other) => exists i, j :: 0 <= i && j == i + 1 && j < |cols| && cols[i].name == other && cols[j].name == name
  }

  lemma InsertedIsPlaced(t0: Table, col: Column, pos: Position)
    requires WellFormed(t0) && 0 <= Place(t0.cols, pos) <= |t0.cols|
    ensures Placed(InsertAt(t0.cols, Place(t0.cols, pos), col), col.name, pos)
  {
    var k := Place(t0.cols, pos);
    var r := InsertAt(t0.cols, k, col);
    assert |r| == |t0.cols| + 1 && r[k].name == col.name;
    if pos.After? {
      assert r[k - 1].name == t0.cols[k - 1].name == pos.name;
    }
  }

  lemma AddInvMeans(t0: Table, col: Column, pos: Position, s: State)
    requires Quiet(t0) && AddInv(t0, col, pos, s)
    ensures AddPromise(t0, col, pos, s)
  {
    if s.job.state == Finished {
      InsertedOk(t0, Place(t0.cols, pos), col.(state := Public));
      InsertedIsPlaced(t0, col.(state := Public), pos);
    }
  }

  /** Every run of an add column job that loses nothing keeps the promise. */
  lemma AddColumnJob(t0: Table, col: Column, pos: Position, es: seq<Event>)
    requires Quiet(t0) && Legal(NewAdd(t0, col, pos), es) && Lossless(t0, NewAdd(t0, col, pos), es)
    ensures AddPromise(t0, col, pos, After(NewAdd(t0, col, pos), es))
  {
    AddRun(t0, col, pos, NewAdd(t0, col, pos), es);
    AddInvMeans(t0, col, pos, After(NewAdd(t0, col, pos), es));
  }

  /** A cancelled job whose next run cannot read the table stops, and the table keeps the column. */
  lemma AddColumnCanBeLost(t0: Table, col: Column, pos: Position)
    requires Quiet(t0) && !HasName(t0.cols, col.name) && Place(t0.cols, pos) >= 0 && |t0.cols| < COLUMN_COUNT_LIMIT
    ensures var es := [Run, Cancel, Fail(false, false), Run];
            && Legal(NewAdd(t0, col, pos), es)
            && After(NewAdd(t0, col, pos), es).job.state == Stopped
            && After(NewAdd(t0, col, pos), es).t == InWork(t0, col, DeleteOnly)
  {
    var s0 := NewAdd(t0, col, pos);
    SetInWork(t0, col, StateNone, DeleteOnly);
    FindInWork(t0, col, DeleteOnly);
    var s1 := Step(s0, Run);
    assert s1.t == InWork(t0, col, DeleteOnly) && s1.job.state == Running;
    var s2 := Step(s1, Cancel);
    var s3 := Step(s2, Fail(false, false));
    assert s3.job.state == Rollback && s3.t == s1.t;
    var s4 := Step(s3, Run);
    var e3, e2, e1 := [Run], [Fail(false, false), Run], [Cancel, Fail(false, false), Run];
    var es := [Run, Cancel, Fail(false, false), Run];
    assert e3[1..] == [] && e2[1..] == e3 && e1[1..] == e2 && es[1..] == e1;
    assert Legal(s3, e3) && After(s3, e3) == s4;
    assert Legal(s2, e2) && After(s2, e2) == s4;
    assert Legal(s1, e1) && After(s1, e1) == s4;
  }

  // ---------- every run of a drop column job ----------

  ghost predicate Droppable(t: Table, k: int) {
    0 <= k < |t.cols| && |t.cols| > 1 && !CoveredByIndex(t, t.cols[k].name)
  }

  ghost predicate IsHidden(t0: Table, k: nat, t: Table, sts: set<SchemaState>)
    requires k < |t0.cols|
  {
    exists st | st in sts :: t == Hidden(t0, k, st)
  }

  ghost predicate DropInv(t0: Table, name: string, s: State) {
    var k := Find(t0.cols, name);
    && s.job.kind == DropColumn(name) && s.job.state != Rollback
    && (s.job.state in {Queued, RollbackDone, Stopped} ==> s.t == t0)
    && (s.job.state in {Running, Cancelling} ==>
          s.t == t0 || (Droppable(t0, k) && IsHidden(t0, k, s.t, {WriteOnly, DeleteOnly, DeleteReorg})))
    && (s.job.state == Finished ==> Droppable(t0, k) && s.t == Removed(t0, k))
  }

  lemma FindUnique(cols: seq<Column>, name: string, i: nat)
    requires UniqueNames(cols) && i < |cols| && cols[i].name == name
    ensures Find(cols, name) == i
  {
    var k := Find(cols, name);
    assert k >= 0;
    assert k < i || i < k || k == i;
  }

  lemma HiddenIsLast(t: Table, k: nat, st: SchemaState)
    requires WellFormed(t) && k < |t.cols|
    ensures var h := Hidden(t, k, st);
            Find(h.cols, t.cols[k].name) == |t.cols| - 1 && h.cols[|t.cols| - 1].state == st
  {
    var n, r := |t.cols|, SetState(t, k, st);
    ShiftedNames(r, k, n - 1);
    assert ShiftColumns(r.cols, k, n - 1)[n - 1] == r.cols[k].(offset := n - 1);
    FindUnique(ShiftColumns(r.cols, k, n - 1), t.cols[k].name, n - 1);
  }

  lemma HiddenNotCovered(t: Table, k: nat, st: SchemaState, name: string)
    requires k < |t.cols| && CoveredByIndex(Hidden(t, k, st), name)
    ensures CoveredByIndex(t, name)
  {
    var h, n := Hidden(t, k, st), |t.cols|;
    var i, j :| 0 <= i < |h.indices| && 0 <= j < |h.indices[i]| && h.indices[i][j].name == name;
    assert h.indices[i] == SkipOffsets(t.indices[i], k, n - 1);
    assert t.indices[i][j].name == name;
  }

  lemma SetHidden(t: Table, k: nat, st: SchemaState, st': SchemaState)
    requires k < |t.cols|
    ensures SetState(Hidden(t, k, st), |t.cols| - 1, st') == Hidden(t, k, st')
  {
    var n := |t.cols|;
    var a, b := ShiftColumns(SetState(t, k, st).cols, k, n - 1), ShiftColumns(SetState(t, k, st').cols, k, n - 1);
    assert a[n - 1 := a[n - 1].(state := st')] == b;
  }

  lemma FindHidden(t: Table, k: nat, st: SchemaState)
    requires WellFormed(t) && k < |t.cols|
    ensures var h := Hidden(t, k, st);
            && Find(h.cols, t.cols[k].name) == |t.cols| - 1 && h.cols[|t.cols| - 1].state == st
            && (CoveredByIndex(h, t.cols[k].name) ==> CoveredByIndex(t, t.cols[k].name))
            && forall st' :: SetState(h, |t.cols| - 1, st') == Hidden(t, k, st')
  {
    HiddenIsLast(t, k, st);
    if CoveredByIndex(Hidden(t, k, st), t.cols[k].name) {
      HiddenNotCovered(t, k, st, t.cols[k].name);
    }
    forall st' ensures SetState(Hidden(t, k, st), |t.cols| - 1, st') == Hidden(t, k, st') {
      SetHidden(t, k, st, st');
    }
  }

  lemma DropOnHidden(t0: Table, name: string, s: State, st: SchemaState)
    requires Quiet(t0) && s.job.kind == DropColumn(name) && s.job.state == Running && Droppable(t0, Find(t0.cols, name))
    requires st in {WriteOnly, DeleteOnly, DeleteReorg} && s.t == Hidden(t0, Find(t0.cols, name), st)
    ensures DropInv(t0, name, OnDropColumn(s, name))
  {
    var k := Find(t0.cols, name);
    FindHidden(t0, k, st);
    HiddenIsRemoved(t0, k, st);
    assert DeleteOnly in {WriteOnly, DeleteOnly, DeleteReorg} && DeleteReorg in {WriteOnly, DeleteOnly, DeleteReorg};
  }

  lemma FirstHides(t0: Table, name: string, s: State)
    requires Quiet(t0) && s.t == t0 && s.job.kind == DropColumn(name) && s.job.state == Running
    ensures DropInv(t0, name, OnDropColumn(s, name))
  {
    var k := Find(t0.cols, name);
    if Droppable(t0, k) {
      assert WriteOnly in {WriteOnly, DeleteOnly, DeleteReorg};
      assert OnDropColumn(s, name).t == Hidden(t0, k, WriteOnly);
    }
  }

  lemma DropOnQuiet(t0: Table, name: string, s: State)
    requires Quiet(t0) && DropInv(t0, name, s) && InQueue(s.job) && s.t == t0
    ensures DropInv(t0, name, RunJob(s))
  {
    if s.job.state != Cancelling {
      FirstHides(t0, name, s.(job := s.job.(state := Running)));
    }
  }

  lemma ConvertOnHidden(t0: Table, name: string, s: State, st: SchemaState)
    requires Quiet(t0) && s.job.kind == DropColumn(name) && Droppable(t0, Find(t0.cols, name))
    requires st in {WriteOnly, DeleteOnly, DeleteReorg} && s.t == Hidden(t0, Find(t0.cols, name), st)
    ensures Convert(s) == s.(job := s.job.(state := Running))
  {
    FindHidden(t0, Find(t0.cols, name), st);
  }

  lemma RunOnHidden(t0: Table, name: string, s: State)
    requires Quiet(t0) && DropInv(t0, name, s) && s.job.state in {Running, Cancelling} && s.t != t0
    ensures DropInv(t0, name, RunJob(s))
  {
    var k := Find(t0.cols, name);
    var st :| st in {WriteOnly, DeleteOnly, DeleteReorg} && s.t == Hidden(t0, k, st);
    if s.job.state == Running {
      DropOnHidden(t0, name, s, st);
      assert RunJob(s) == OnDropColumn(s, name);
    } else {
      ConvertOnHidden(t0, name, s, st);
      assert RunJob(s) == s.(job := s.job.(state := Running));
    }
  }

  lemma DropStep(t0: Table, name: string, s: State, e: Event)
    requires Quiet(t0) && DropInv(t0, name, s) && Enabled(s, e)
    ensures DropInv(t0, name, Step(s, e))
  {
    if e.Run? {
      if s.t == t0 {
        DropOnQuiet(t0, name, s);
      } else {
        RunOnHidden(t0, name, s);
      }
    } else if e.Refuse? {
      var k := Find(t0.cols, name);
      if Droppable(t0, k) && IsHidden(t0, k, s.t, {WriteOnly, DeleteOnly, DeleteReorg}) {
        var st :| st in {WriteOnly, DeleteOnly, DeleteReorg} && s.t == Hidden(t0, k, st);
        HiddenIsLast(t0, k, st);
      }
      assert s.t == t0;
    } else {
      var r := Step(s, e);
      assert r.t == s.t && r.job.kind == s.job.kind && r.job.state in {Running, Cancelling};
    }
  }

  lemma {:induction false} DropRun(t0: Table, name: string, s: State, es: seq<Event>)
    requires Quiet(t0) && DropInv(t0, name, s) && Legal(s, es)
    ensures DropInv(t0, name, After(s, es))
    decreases |es|
  {
    if es == [] {
    } else {
      DropStep(t0, name, s, es[0]);
      DropRun(t0, name, Step(s, es[0]), es[1..]);
    }
  }

  function NewDrop(t0: Table, name: string): State {
    State(t0, Job(DropColumn(name), Queued, StateNone, 0))
  }

  /** The table with the column at `k` hidden: it is the last and the only one not public. */
  ghost predicate OnlyLastHidden(t0: Table, k: int, t: Table) {
    && Droppable(t0, k) && |t.cols| == |t0.cols| && WellFormed(t)
    && Cut(t) == Removed(t0, k) && t.cols[|t.cols| - 1].name == t0.cols[k].name
    && forall i :: 0 <= i < |t.cols| ==> (t.cols[i].state == Public <==> i < |t.cols| - 1)
  }

  lemma HiddenOk(t: Table, k: nat, st: SchemaState)
    requires Quiet(t) && Droppable(t, k) && st != Public
    ensures OnlyLastHidden(t, k, Hidden(t, k, st))
  {
    HiddenIsRemoved(t, k, st);
    HiddenWellFormed(t, k, st);
  }

  lemma HiddenWellFormed(t: Table, k: nat, st: SchemaState)
    requires WellFormed(t) && Droppable(t, k)
    ensures WellFormed(Hidden(t, k, st))
  {
    var t' := SetState(t, k, st);
    forall i, j | 0 <= i < |t.indices| && 0 <= j < |t.indices[i]|
      ensures PointsTo(t'.cols, t.indices[i][j]) && t.indices[i][j].offset != k
    {
      assert IndexOk(t.cols, t.indices[i]) && PointsTo(t.cols, t.indices[i][j]);
    }
    ReorderKeeps(t', k, |t.cols| - 1);
  }

  /**
    While the job is in the queue the column is public in its place, or the last and the only one
    not public; a finished job has removed it and nothing else; any other job has left no trace.
   */
  ghost predicate DropPromise(t0: Table, name: string, s: State) {
    var k := Find(t0.cols, name);
    && (InQueue(s.job) ==> s.t == t0 || OnlyLastHidden(t0, k, s.t))
    && (s.job.state == Finished ==> Droppable(t0, k) && s.t == Removed(t0, k) && WellFormed(s.t))
    && (s.job.state in {RollbackDone, Stopped} ==> s.t == t0)
  }

  lemma DropInvMeans(t0: Table, name: string, s: State)
    requires Quiet(t0) && DropInv(t0, name, s)
    ensures DropPromise(t0, name, s)
  {
    var k := Find(t0.cols, name);
    if s.job.state == Finished {
      RemovedOk(t0, k);
    } else if s.t != t0 {
      var st :| st in {WriteOnly, DeleteOnly, DeleteReorg} && s.t == Hidden(t0, k, st);
      HiddenOk(t0, k, st);
    }
  }

  /** Every run of a drop column job keeps the promise. */
  lemma DropColumnJob(t0: Table, name: string, es: seq<Event>)
    requires Quiet(t0) && Legal(NewDrop(t0, name), es)
    ensures DropPromise(t0, name, After(NewDrop(t0, name), es))
  {
    DropRun(t0, name, NewDrop(t0, name), es);
    DropInvMeans(t0, name, After(NewDrop(t0, name), es));
  }

  // ---------- the way through the schema states ----------

  const ADD_PATH := [StateNone, DeleteOnly, WriteOnly, WriteReorg, Public]
  const ROLLBACK_PATH := [WriteOnly, DeleteOnly, DeleteReorg, StateNone]
  const DROP_PATH := [Public, WriteOnly, DeleteOnly, DeleteReorg, StateNone]

  /** The state of the column with a name; none if it is not there. */
  function ColumnState(t: Table, name: string): SchemaState {
    var c := Find(t.cols, name); if c < 0 then StateNone else t.cols[c].state
  }

  /** One step along a path. */
  ghost predicate NextOn(path: seq<SchemaState>, a: SchemaState, b: SchemaState) {
    exists i, j :: 0 <= i && j == i + 1 && j < |path| && path[i] == a && path[j] == b
  }

  lemma OnPath(path: seq<SchemaState>, i: nat, j: nat)
    requires j == i + 1 && j < |path|
    ensures NextOn(path, path[i], path[j])
  {
  }

  lemma FindInserted(t: Table, k: nat, c: Column)
    requires WellFormed(t) && k <= |t.cols| && !HasName(t.cols, c.name)
    ensures ColumnState(Inserted(t, k, c), c.name) == c.state
  {
    InsertedNames(t.cols, k, c);
    var cols := InsertAt(t.cols, k, c);
    assert cols[k] == c.(offset := k);
    FindUnique(cols, c.name, k);
  }

  lemma AddWalksFirst(t0: Table, col: Column, r: State)
    requires r.t == t0 && r.job.kind.AddColumn? && r.job.kind.col == col && r.job.state == Running
    requires OnAddColumn(r).job.state != Stopped && forall i :: 0 <= i < |t0.cols| ==> t0.cols[i].state == Public
    ensures ColumnState(t0, col.name) == StateNone && ColumnState(OnAddColumn(r).t, col.name) == DeleteOnly
  {
    SetInWork(t0, col, StateNone, DeleteOnly);
    FindInWork(t0, col, DeleteOnly);
  }

  lemma AddWalksOn(t0: Table, col: Column, r: State, st: SchemaState)
    requires r.job.kind.AddColumn? && r.job.kind.col == col && r.t == InWork(t0, col, st) && st in {DeleteOnly, WriteOnly}
    requires !HasName(t0.cols, col.name)
    ensures var st' := if st == DeleteOnly then WriteOnly else WriteReorg;
            ColumnState(r.t, col.name) == st && ColumnState(OnAddColumn(r).t, col.name) == st'
  {
    var st' := if st == DeleteOnly then WriteOnly else WriteReorg;
    FindInWork(t0, col, st);
    SetInWork(t0, col, st, st');
    FindInWork(t0, col, st');
  }

  lemma AddWalksLast(t0: Table, col: Column, pos: Position, r: State)
    requires Quiet(t0) && r.job.kind == AddColumn(col, pos, false) && r.t == InWork(t0, col, WriteReorg) && r.job.state == Running
    requires !HasName(t0.cols, col.name) && r.job.offset == Place(t0.cols, pos) <= |t0.cols|
    ensures ColumnState(r.t, col.name) == WriteReorg && ColumnState(OnAddColumn(r).t, col.name) == Public
  {
    FindInWork(t0, col, WriteReorg);
    AddOnWork(t0, col, pos, r, WriteReorg);
    FindInserted(t0, r.job.offset, col.(state := Public));
  }

  /** A run of an add column job that does not stop it brings the column exactly one state further. */
  lemma AddWalks(t0: Table, col: Column, pos: Position, s: State)
    requires Quiet(t0) && AddInv(t0, col, pos, s) && s.job.state in {Queued, Running} && RunJob(s).job.state != Stopped
    ensures NextOn(ADD_PATH, ColumnState(s.t, col.name), ColumnState(RunJob(s).t, col.name))
  {
    var r := s.(job := s.job.(state := Running));
    assert RunJob(s) == OnAddColumn(r);
    if s.t == t0 {
      AddWalksFirst(t0, col, r);
      OnPath(ADD_PATH, 0, 1);
    } else {
      var st :| st in {DeleteOnly, WriteOnly, WriteReorg} && s.t == InWork(t0, col, st);
      if st == WriteReorg {
        AddWalksLast(t0, col, pos, r);
        OnPath(ADD_PATH, 3, 4);
      } else {
        AddWalksOn(t0, col, r, st);
        OnPath(ADD_PATH, 1, 2);
        OnPath(ADD_PATH, 2, 3);
      }
    }
  }

  /** So does a run of the rollback, on its own path. */
  lemma RollbackWalks(t0: Table, col: Column, pos: Position, s: State)
    requires Quiet(t0) && AddInv(t0, col, pos, s) && s.job.state == Rollback && s.job.kind.nameOnly
    ensures NextOn(ROLLBACK_PATH, ColumnState(s.t, col.name), ColumnState(RunJob(s).t, col.name))
  {
    var st :| st in {WriteOnly, DeleteOnly, DeleteReorg} && s.t == InWork(t0, col, st);
    FindInWork(t0, col, st);
    NotCovered(t0, col, st);
    if st == WriteOnly {
      SetInWork(t0, col, st, DeleteOnly);
      FindInWork(t0, col, DeleteOnly);
      OnPath(ROLLBACK_PATH, 0, 1);
    } else if st == DeleteOnly {
      SetInWork(t0, col, st, DeleteReorg);
      FindInWork(t0, col, DeleteReorg);
      OnPath(ROLLBACK_PATH, 1, 2);
    } else {
      SetInWork(t0, col, st, st);
      OnPath(ROLLBACK_PATH, 2, 3);
    }
  }

  lemma RemovedName(t: Table, k: nat)
    requires WellFormed(t) && k < |t.cols|
    ensures !HasName(RemoveAt(t.cols, k), t.cols[k].name)
  {
    var cols := RemoveAt(t.cols, k);
    forall i | 0 <= i < |cols| ensures cols[i].name != t.cols[k].name {
      assert cols[i].name == t.cols[if i < k then i else i + 1].name;
    }
  }

  lemma DropWalksFirst(t0: Table, name: string, s: State)
    requires Quiet(t0) && s.t == t0 && s.job.state == Running && OnDropColumn(s, name).job.state != Stopped
    ensures ColumnState(t0, name) == Public && ColumnState(OnDropColumn(s, name).t, name) == WriteOnly
  {
    var k := Find(t0.cols, name);
    assert OnDropColumn(s, name).t == Hidden(t0, k, WriteOnly);
    HiddenIsLast(t0, k, WriteOnly);
  }

  lemma DropWalksOn(t0: Table, name: string, s: State, st: SchemaState)
    requires Quiet(t0) && s.job.state == Running && Droppable(t0, Find(t0.cols, name))
    requires st in {WriteOnly, DeleteOnly} && s.t == Hidden(t0, Find(t0.cols, name), st)
    ensures var st' := if st == WriteOnly then DeleteOnly else DeleteReorg;
            ColumnState(s.t, name) == st && ColumnState(OnDropColumn(s, name).t, name) == st'
  {
    var k, st' := Find(t0.cols, name), if st == WriteOnly then DeleteOnly else DeleteReorg;
    FindHidden(t0, k, st);
    assert OnDropColumn(s, name).t == Hidden(t0, k, st');
    HiddenIsLast(t0, k, st');
  }

  lemma DropWalksLast(t0: Table, name: string, s: State)
    requires Quiet(t0) && s.job.state == Running && Droppable(t0, Find(t0.cols, name))
    requires s.t == Hidden(t0, Find(t0.cols, name), DeleteReorg)
    ensures ColumnState(s.t, name) == DeleteReorg && ColumnState(OnDropColumn(s, name).t, name) == StateNone
  {
    var k := Find(t0.cols, name);
    FindHidden(t0, k, DeleteReorg);
    assert OnDropColumn(s, name).t == Cut(s.t);
    HiddenIsRemoved(t0, k, DeleteReorg);
    RemovedName(t0, k);
    assert Find(Removed(t0, k).cols, name) == -1;
  }

  /** And a run of a drop column job that does not stop it. */
  lemma DropWalks(t0: Table, name: string, s: State)
    requires Quiet(t0) && DropInv(t0, name, s) && s.job.state in {Queued, Running} && RunJob(s).job.state != Stopped
    ensures NextOn(DROP_PATH, ColumnState(s.t, name), ColumnState(RunJob(s).t, name))
  {
    var k, r := Find(t0.cols, name), s.(job := s.job.(state := Running));
    assert RunJob(s) == OnDropColumn(r, name);
    if s.t == t0 {
      DropWalksFirst(t0, name, r);
      OnPath(DROP_PATH, 0, 1);
    } else {
      var st :| st in {WriteOnly, DeleteOnly, DeleteReorg} && s.t == Hidden(t0, k, st);
      if st == DeleteReorg {
        DropWalksLast(t0, name, r);
        OnPath(DROP_PATH, 3, 4);
      } else {
        DropWalksOn(t0, name, r, st);
        OnPath(DROP_PATH, 1, 2);
        OnPath(DROP_PATH, 2, 3);
      }
    }
  }
}
