/**
  The life of one index as a state machine: the owner walks it through the schema
  states, servers that hold the newest or the one-before-newest schema keep writing
  rows, backfill transactions of concurrent tasks commit in any order, and the backfill
  may fail, time out, crash and resume at any point.  Every step is one transaction.
 */
module OnlineIndex {
  import opened Backfill
  import opened SchemaStates

  /** Servers in such a state add index entries. */
  predicate Writable(st: SchemaState) {
    st != StateNone && st != DeleteOnly && st != DeleteReorg
  }

  /** Servers in such a state remove index entries. */
  predicate Deletable(st: SchemaState) {
    st != StateNone
  }

  datatype Job = Adding | RollingBack | Dropping | Idle | Gone

  datatype Status = Active | Done | Failed

  /** A worker's task and the next handle it would scan. */
  datatype TaskState = TaskState(task: Task, next: Handle, status: Status)

  /** The backfill goroutine: `done` is the progress it reports, `start` the start of the current round. */
  datatype Run = Stopped
               | Running(done: Handle, start: Handle, tasks: seq<TaskState>, last: bool)
               | Ended(done: Handle)
               | Finished(done: Handle)

  /** What is persisted of the backfill, and the goroutine that is not. */
  datatype Reorg = NotStarted | Reorg(end: Handle, resume: Handle, run: Run)

  datatype State = State(unique: bool, rows: Rows, index: Entries, job: Job, cur: SchemaState, prev: SchemaState,
                         servers: map<int, SchemaState>, reorg: Reorg)

  /** What one row write of a server does. */
  datatype RowWrite = Insert(h: Handle, vals: Vals) | Remove(h: Handle) | Update(h: Handle, vals: Vals)

  /**
    What the owner does to the schema state of the index. The job is stored also when the table
    cannot be written: a failed rollback or cancel changes the job and not the index.
   */
  datatype OwnerStep =
    | StepAdd | Publish | Rollback | FailedRollback
    | Drop | CancelDrop | FailedCancelDrop | StepDown

  /** What happens to the backfill; `grown` are the entries after a batch. */
  datatype FillStep =
    | InitReorg(start: Handle, end: Handle) | StartRun | NextRound(borders: seq<Bound>, n: nat)
    | Batch(i: nat, last: Handle, grown: Entries) | LastBatch(i: nat, grown: Entries) | FailTask(i: nat)
    | EndRound | AbortRound | Timeout | Crash

  datatype Event =
    | Row(srv: int, w: RowWrite)
    | Reload(srv: int) | Join(srv: int) | Leave(srv: int)
    | Own(step: OwnerStep)
    | Fill(fill: FillStep)
    | StrayBatch(hs: set<Handle>, grown: Entries)

  // ---------- row writes ----------

  function Without(index: Entries, st: SchemaState, k: Key): Entries {
    if Deletable(st) then index - {k} else index
  }

  function With(index: Entries, st: SchemaState, k: Key, h: Handle): Entries {
    if Writable(st) then index[k := h] else index
  }

  /** A distinct key that exists makes the statement fail. */
  predicate Free(index: Entries, st: SchemaState, k: Key) {
    Writable(st) && k.Distinct? ==> k !in index
  }

  predicate CanWrite(s: State, st: SchemaState, w: RowWrite) {
    match w
    case Insert(h, vals) => h !in s.rows && Free(s.index, st, GenIndexKey(s.unique, vals, h))
    case Remove(h) => h in s.rows
    case Update(h, vals) =>
      && h in s.rows && vals != s.rows[h]
      && Free(Without(s.index, st, KeyAt(s.unique, s.rows, h)), st, GenIndexKey(s.unique, vals, h))
  }

  function Write(s: State, st: SchemaState, w: RowWrite): State
    requires CanWrite(s, st, w)
  {
    match w
    case Insert(h, vals) =>
      s.(rows := s.rows[h := vals], index := With(s.index, st, GenIndexKey(s.unique, vals, h), h))
    case Remove(h) =>
      s.(rows := s.rows - {h}, index := Without(s.index, st, KeyAt(s.unique, s.rows, h)))
    case Update(h, vals) =>
      s.(rows := s.rows[h := vals],
         index := With(Without(s.index, st, KeyAt(s.unique, s.rows, h)), st, GenIndexKey(s.unique, vals, h), h))
  }

  // ---------- the owner ----------

  /** The owner moves on only when no live server is behind. */
  ghost predicate Synced(s: State) {
    forall i :: i in s.servers ==> s.servers[i] == s.cur
  }

  function Advance(s: State, st: SchemaState): State {
    s.(cur := st, prev := s.cur)
  }

  predicate CanOwner(s: State, o: OwnerStep) {
    match o
    case StepAdd => s.job == Adding && (s.cur == StateNone || s.cur == DeleteOnly || s.cur == WriteOnly)
    case Publish => s.job == Adding && s.cur == WriteReorg && s.reorg.Reorg? && s.reorg.run.Finished?
    case Rollback => s.job == Adding
    case FailedRollback => s.job == Adding && s.cur != StateNone
    case Drop => s.job == Idle && (s.cur == Public || s.cur == WriteOnly)
    case CancelDrop => (s.job == Dropping || s.job == Idle) && s.cur == WriteOnly
    case FailedCancelDrop => (s.job == Dropping || s.job == Idle) && s.cur == WriteOnly
    case StepDown =>
      (s.job == Dropping || s.job == RollingBack) && (s.cur == WriteOnly || s.cur == DeleteOnly || s.cur == DeleteReorg)
  }

  function Owner(s: State, o: OwnerStep): State {
    match o
    case StepAdd => Advance(s, if s.cur == StateNone then DeleteOnly else if s.cur == DeleteOnly then WriteOnly else WriteReorg)
    case Publish => Advance(s, Public).(job := Idle, reorg := NotStarted)
    case Rollback =>
      if s.cur == StateNone then s.(job := Gone)
      else if s.cur == DeleteOnly then s.(job := RollingBack)
      else Advance(s, DeleteOnly).(job := RollingBack, reorg := NotStarted)
    case FailedRollback => s.(job := RollingBack, reorg := NotStarted)
    case Drop => Advance(s, if s.cur == Public then WriteOnly else DeleteOnly).(job := Dropping)
    case CancelDrop => Advance(s, Public).(job := Idle)
    case FailedCancelDrop => s.(job := Idle)
    case StepDown =>
      if s.cur == WriteOnly then Advance(s, DeleteOnly)
      else if s.cur == DeleteOnly then Advance(s, DeleteReorg)
      else Advance(s, StateNone).(job := Gone)
  }

  // ---------- the backfill ----------

  ghost predicate IsTableRange(rows: Rows, start: Handle, end: Handle) {
    if rows == map[] then start == end == MIN_HANDLE
    else start in rows && end in rows && forall h :: h in rows ==> start <= h <= end
  }

  /** The ranges of a round; a resume point past the end leaves one range without handles. */
  ghost predicate CanSplit(bs: seq<Bound>, start: Handle, end: Handle) {
    if start <= end then ValidSplit(bs, start, end)
    else bs == [Bound(start, 0), Bound(end, 1)]
  }

  function Results(tasks: seq<TaskState>): seq<Result> {
    seq(|tasks|, i requires 0 <= i < |tasks| => Result(tasks[i].next, if tasks[i].status == Done then NoError else NotRunnable))
  }

  /** The handle that `waitTaskResults` reports for a round. */
  function RoundNext(start: Handle, tasks: seq<TaskState>): Handle {
    var k := Successes(Results(tasks));
    if k == 0 || k > |tasks| then start else tasks[k - 1].next
  }

  predicate Settled(tasks: seq<TaskState>) {
    tasks != [] && forall i :: 0 <= i < |tasks| ==> tasks[i].status != Active
  }

  predicate ActiveTask(run: Run, i: nat) {
    run.Running? && i < |run.tasks| && run.tasks[i].status == Active
  }

  /** The rows that a batch of the run scans, up to and without `hi`, get their entries. */
  ghost predicate Fills(s: State, t: TaskState, hi: int, grown: Entries) {
    Added(s.unique, s.rows, s.index, RowsIn(s.rows, t.next, hi), grown)
  }

  ghost predicate CanFill(s: State, run: Run, end: Handle, f: FillStep) {
    match f
    case InitReorg(_, _) => false
    case StartRun => run.Stopped?
    case NextRound(bs, n) => run.Running? && run.tasks == [] && 0 < n < |bs| && CanSplit(bs, run.start, end)
    case Batch(i, last, grown) =>
      ActiveTask(run, i) && run.tasks[i].next <= last < run.tasks[i].task.endHandle && Fills(s, run.tasks[i], last as int + 1, grown)
    case LastBatch(i, grown) => ActiveTask(run, i) && Fills(s, run.tasks[i], Upper(run.tasks[i].task), grown)
    case FailTask(i) => ActiveTask(run, i)
    case EndRound => run.Running? && Settled(run.tasks) && Successes(Results(run.tasks)) == |run.tasks|
    case AbortRound => run.Running? && Settled(run.tasks)
    case Timeout => !run.Stopped?
    case Crash => true
  }

  function SetTask(run: Run, i: nat, t: TaskState): Run
    requires run.Running? && i < |run.tasks|
  {
    run.(tasks := run.tasks[i := t])
  }

  function FreshTasks(bs: seq<Bound>, n: nat): seq<TaskState>
    requires n < |bs|
  {
    seq(n, i requires 0 <= i < n => TaskState(TaskOf(bs[i], bs[i + 1]), bs[i].h, Active))
  }

  /** The goroutine after a step. */
  ghost function NextRun(s: State, run: Run, end: Handle, resume: Handle, f: FillStep): Run
    requires CanFill(s, run, end, f)
  {
    match f
    case StartRun => Running(resume, resume, [], false)
    case NextRound(bs, n) => run.(tasks := FreshTasks(bs, n), last := n == |bs| - 1)
    case Batch(i, last, _) => SetTask(run, i, run.tasks[i].(next := GetNextHandle(run.tasks[i].task, last, false)))
    case LastBatch(i, _) =>
      SetTask(run, i, run.tasks[i].(next := GetNextHandle(run.tasks[i].task, run.tasks[i].next, true), status := Done))
    case FailTask(i) => SetTask(run, i, run.tasks[i].(status := Failed))
    case EndRound =>
      var next := RoundNext(run.start, run.tasks);
      if run.last then Finished(next) else Running(next, run.tasks[|run.tasks| - 1].task.endHandle, [], false)
    case AbortRound => Ended(run.done)
    case Timeout => run
    case Crash => Stopped
  }

  /** The persisted resume point after a step. */
  function NextResume(run: Run, resume: Handle, f: FillStep): Handle {
    if f.AbortRound? && run.Running? then RoundNext(run.start, run.tasks)
    else if f.Timeout? && !run.Stopped? then run.done
    else resume
  }

  ghost predicate CanFillStep(s: State, f: FillStep) {
    && s.job == Adding
    && (if f.InitReorg? then s.cur == WriteReorg && s.reorg.NotStarted? && IsTableRange(s.rows, f.start, f.end)
        else s.reorg.Reorg? && CanFill(s, s.reorg.run, s.reorg.end, f))
  }

  ghost function FillNext(s: State, f: FillStep): State
    requires CanFillStep(s, f)
  {
    if f.InitReorg? then s.(reorg := Reorg(f.end, f.start, Stopped))
    else
      var r := s.reorg;
      s.(index := if f.Batch? || f.LastBatch? then f.grown else s.index,
         reorg := Reorg(r.end, NextResume(r.run, r.resume, f), NextRun(s, r.run, r.end, r.resume, f)))
  }

  // ---------- runs ----------

  ghost predicate Enabled(s: State, e: Event) {
    match e
    case Row(i, w) => i in s.servers && CanWrite(s, s.servers[i], w)
    case Reload(i) => i in s.servers
    case Join(i) => i !in s.servers
    case Leave(i) => i in s.servers
    case Own(o) => Synced(s) && CanOwner(s, o)
    case Fill(f) => CanFillStep(s, f)
    case StrayBatch(hs, grown) =>
      && Deletable(s.cur) && Deletable(s.prev) && (s.job == Adding ==> s.cur == WriteReorg)
      && hs <= s.rows.Keys && Added(s.unique, s.rows, s.index, hs, grown)
  }

  ghost function Apply(s: State, e: Event): State
    requires Enabled(s, e)
  {
    match e
    case Row(i, w) => Write(s, s.servers[i], w)
    case Reload(i) => s.(servers := s.servers[i := s.cur])
    case Join(i) => s.(servers := s.servers[i := s.cur])
    case Leave(i) => s.(servers := s.servers - {i})
    case Own(o) => Owner(s, o)
    case Fill(f) => FillNext(s, f)
    case StrayBatch(_, grown) => s.(index := grown)
  }

  /** Before the job: a table with rows, no entries, no server knows the index. */
  ghost predicate Init(s: State) {
    && s.index == map[] && s.job == Adding && s.cur == StateNone && s.prev == StateNone
    && s.reorg.NotStarted? && forall i :: i in s.servers ==> s.servers[i] == StateNone
  }

  ghost predicate Legal(s: State, es: seq<Event>)
    decreases |es|
  {
    es == [] || (Enabled(s, es[0]) && Legal(Apply(s, es[0]), es[1..]))
  }

  ghost function After(s: State, es: seq<Event>): State
    requires Legal(s, es)
    decreases |es|
  {
    if es == [] then s else After(Apply(s, es[0]), es[1..])
  }

  // ---------- what holds in every state ----------

  ghost predicate NoDangling(s: State) {
    forall k :: k in s.index ==> s.index[k] in s.rows && KeyAt(s.unique, s.rows, s.index[k]) == k
  }

  ghost predicate Complete(s: State) {
    forall h :: h in s.rows ==> HasEntry(s.unique, s.rows, s.index, h)
  }

  /**
    As long as any server may look at the index, no entry leads to a missing or a changed
    row; and whenever a server reads through the index, every row has its own entry.
   */
  ghost predicate Safe(s: State) {
    && (s.job != Gone ==> NoDangling(s))
    && (forall i :: i in s.servers && s.servers[i] == Public ==> NoDangling(s) && Complete(s))
  }

  /** The handles whose rows must have an entry already. */
  ghost predicate Demanded(s: State, h: Handle) {
    || s.job == Idle
    || (s.job == Dropping && s.cur == WriteOnly)
    || (s.job == Adding && s.reorg.Reorg? && DemandedBy(s.reorg, h))
  }

  ghost predicate DemandedBy(r: Reorg, h: Handle)
    requires r.Reorg?
  {
    || h < r.resume || r.end < h
    || (!r.run.Stopped? && h < r.run.done)
    || r.run.Finished?
    || (r.run.Running? && exists i :: 0 <= i < |r.run.tasks| && Passed(r.run.tasks[i], h))
  }

  predicate Passed(t: TaskState, h: Handle) {
    t.task.startHandle <= h < Reached(t.task, t.next, t.status == Done)
  }

  /** The worker ranges of a round cover the handles from `start` on without a gap. */
  ghost predicate Chain(start: Handle, tasks: seq<TaskState>) {
    && (tasks != [] ==> tasks[0].task.startHandle == start)
    && (forall i, j :: 0 <= i < j < |tasks| && j == i + 1 ==> tasks[j].task.startHandle <= Upper(tasks[i].task))
    && (forall i :: 0 <= i < |tasks| ==> TaskOk(tasks[i]))
  }

  predicate TaskOk(t: TaskState) {
    t.task.startHandle <= t.next <= Upper(t.task) && (t.status == Done ==> t.task.endHandle <= t.next)
  }

  ghost predicate RunOk(r: Reorg) {
    r.Reorg? ==>
      && r.resume <= r.end + 1
      && (!r.run.Stopped? ==> r.run.done <= r.end + 1)
      && (r.run.Running? ==> r.run.start <= r.run.done && TasksOk(r.run.start, r.run.tasks, r.run.last, r.end))
  }

  ghost predicate TasksOk(start: Handle, tasks: seq<TaskState>, last: bool, end: Handle) {
    && Chain(start, tasks)
    && (forall i :: 0 <= i < |tasks| ==> tasks[i].task.endHandle <= end)
    && (last && tasks != [] ==> tasks[|tasks| - 1].task.endHandle == end && tasks[|tasks| - 1].task.endIncluded)
  }

  ghost predicate Shape(s: State) {
    match s.job
    case Adding =>
      || (s.cur == StateNone && s.prev == StateNone && s.index == map[])
      || (s.cur == DeleteOnly && s.prev == StateNone && s.index == map[])
      || (s.cur == WriteOnly && s.prev == DeleteOnly)
      || (s.cur == WriteReorg && s.prev == WriteOnly)
    case RollingBack =>
      || (s.cur == DeleteOnly && (s.prev == StateNone ==> s.index == map[]) && s.prev != Public)
      || (s.cur == DeleteReorg && s.prev == DeleteOnly)
      || (s.cur == WriteOnly && s.prev == DeleteOnly)
      || (s.cur == WriteReorg && s.prev == WriteOnly)
    case Dropping =>
      || (s.cur == WriteOnly && s.prev == Public)
      || (s.cur == DeleteOnly && s.prev == WriteOnly)
      || (s.cur == DeleteReorg && s.prev == DeleteOnly)
    case Idle => (s.cur == Public && Writable(s.prev)) || (s.cur == WriteOnly && s.prev == Public)
    case Gone => s.cur == StateNone && (s.prev == StateNone || s.prev == DeleteReorg)
  }

  /** Everything but the rows and their entries. */
  ghost predicate Control(s: State) {
    && (forall i :: i in s.servers ==> s.servers[i] == s.cur || s.servers[i] == s.prev)
    && Shape(s)
    && (s.reorg.Reorg? && s.job == Adding ==> s.cur == WriteReorg)
    && RunOk(s.reorg)
  }

  ghost predicate Demands(s: State) {
    forall h :: h in s.rows && Demanded(s, h) ==> HasEntry(s.unique, s.rows, s.index, h)
  }

  /** What no step breaks. */
  ghost predicate Clean(s: State) {
    Control(s) && (s.job != Gone ==> NoDangling(s))
  }

  ghost predicate Inv(s: State) {
    Clean(s) && Demands(s)
  }

  lemma InvIsSafe(s: State)
    requires Inv(s)
    ensures Safe(s)
  {
    if i :| i in s.servers && s.servers[i] == Public {
      assert forall h :: h in s.rows ==> Demanded(s, h);
    }
  }

  // ---------- row writes ----------

  /** The key whose entry a write removes. */
  ghost predicate Removes(s: State, st: SchemaState, w: RowWrite, k: Key) {
    !w.Insert? && w.h in s.rows && Deletable(st) && k == KeyAt(s.unique, s.rows, w.h)
  }

  /** A write removes the entry of another row, one that must have it. */
  ghost predicate Steals(s: State, st: SchemaState, w: RowWrite) {
    exists k :: Removes(s, st, w, k) && k in s.index && s.index[k] != w.h && Demanded(s, s.index[k])
  }

  /**
    What a write does to the entries, state by state: nothing before the index is known; only a removal where it
    is to be deleted from; and where it is written, the row has its entry afterwards.
   */
  lemma WriteByState(s: State, st: SchemaState, w: RowWrite)
    requires CanWrite(s, st, w)
    ensures st == StateNone ==> Write(s, st, w).index == s.index
    ensures st in {DeleteOnly, DeleteReorg} ==>
              Write(s, st, w).index == if w.Insert? then s.index else s.index - {KeyAt(s.unique, s.rows, w.h)}
    ensures st in {WriteOnly, WriteReorg, Public} && !w.Remove? ==>
              HasEntry(s.unique, Write(s, st, w).rows, Write(s, st, w).index, w.h)
    ensures st in {WriteOnly, WriteReorg, Public} && w.Remove? ==> KeyAt(s.unique, s.rows, w.h) !in Write(s, st, w).index
  {
  }

  /** A write can happen: its server is at one of the two newest schema states. */
  ghost predicate Writes(s: State, st: SchemaState, w: RowWrite) {
    Clean(s) && (st == s.cur || st == s.prev) && CanWrite(s, st, w)
  }

  lemma WriteKeepsControl(s: State, st: SchemaState, w: RowWrite)
    requires Writes(s, st, w)
    ensures Control(Write(s, st, w))
  {
    assert s.index == map[] && !Writable(st) ==> Write(s, st, w).index == map[];
  }

  lemma InsertKeepsKeys(s: State, st: SchemaState, w: RowWrite)
    requires Writes(s, st, w) && s.job != Gone && w.Insert?
    ensures NoDangling(Write(s, st, w))
  {
  }

  lemma ChangeKeepsKeys(s: State, st: SchemaState, w: RowWrite)
    requires Writes(s, st, w) && s.job != Gone && !w.Insert?
    ensures NoDangling(Write(s, st, w))
  {
    var s' := Write(s, st, w);
    assert !Deletable(st) ==> s.index == map[];
    forall k | k in s'.index ensures s'.index[k] in s'.rows && KeyAt(s.unique, s'.rows, s'.index[k]) == k {
    }
  }

  lemma WriteKeepsClean(s: State, st: SchemaState, w: RowWrite)
    requires Writes(s, st, w)
    ensures Clean(Write(s, st, w))
  {
    WriteKeepsControl(s, st, w);
    if s.job != Gone {
      if w.Insert? { InsertKeepsKeys(s, st, w); } else { ChangeKeepsKeys(s, st, w); }
    }
  }

  lemma SameDemands(s: State, s': State, h: Handle)
    requires s'.job == s.job && s'.cur == s.cur && s'.reorg == s.reorg
    ensures Demanded(s', h) <==> Demanded(s, h)
  {
  }

  lemma DemandedMeansWritable(s: State, h: Handle)
    requires Control(s) && Demanded(s, h)
    ensures Writable(s.cur) && Writable(s.prev)
  {
  }

  lemma WriteKeepsOther(s: State, st: SchemaState, w: RowWrite, h: Handle)
    requires CanWrite(s, st, w) && h != w.h && HasEntry(s.unique, s.rows, s.index, h)
    requires !Removes(s, st, w, KeyAt(s.unique, s.rows, h))
    ensures HasEntry(s.unique, Write(s, st, w).rows, Write(s, st, w).index, h)
  {
  }

  lemma WriteKeepsEntry(s: State, st: SchemaState, w: RowWrite, h: Handle)
    requires Writes(s, st, w) && Demands(s) && !Steals(s, st, w)
    requires h in Write(s, st, w).rows && Demanded(s, h)
    ensures HasEntry(s.unique, Write(s, st, w).rows, Write(s, st, w).index, h)
  {
    DemandedMeansWritable(s, h);
    if h != w.h {
      assert HasEntry(s.unique, s.rows, s.index, h);
      WriteKeepsOther(s, st, w, h);
    }
  }

  lemma StealingLosesEntry(s: State, st: SchemaState, w: RowWrite)
    requires Writes(s, st, w) && Steals(s, st, w)
    ensures !Demands(Write(s, st, w))
  {
    var s' := Write(s, st, w);
    var k :| Removes(s, st, w, k) && k in s.index && s.index[k] != w.h && Demanded(s, s.index[k]);
    var victim := s.index[k];
    SameDemands(s, s', victim);
    assert KeyAt(s.unique, s.rows, victim) == k && victim in s'.rows && KeyAt(s.unique, s'.rows, victim) == k;
    assert k !in s'.index;
  }

  /** A row write keeps the invariant exactly when it takes no entry from a row that needs it. */
  lemma WriteKeepsInv(s: State, st: SchemaState, w: RowWrite)
    requires Writes(s, st, w) && Demands(s)
    ensures Inv(Write(s, st, w)) <==> !Steals(s, st, w)
  {
    var s' := Write(s, st, w);
    if Steals(s, st, w) {
      StealingLosesEntry(s, st, w);
    } else {
      WriteKeepsClean(s, st, w);
      forall h | h in s'.rows && Demanded(s', h) ensures HasEntry(s.unique, s'.rows, s'.index, h) {
        SameDemands(s, s', h);
        WriteKeepsEntry(s, st, w, h);
      }
      assert Demands(s');
    }
  }

  // ---------- the owner ----------

  lemma OwnerKeepsClean(s: State, o: OwnerStep)
    requires Clean(s) && Synced(s) && CanOwner(s, o)
    ensures Clean(Owner(s, o))
  {
  }

  /** The owner demands no entry that was not demanded before. */
  lemma OwnerDemands(s: State, o: OwnerStep, h: Handle)
    requires Control(s) && CanOwner(s, o) && Demanded(Owner(s, o), h)
    ensures Demanded(s, h)
  {
  }

  /** Rows and entries stay, and nothing more is demanded of them. */
  lemma NoMoreDemands(s: State, s': State)
    requires Inv(s) && Clean(s')
    requires s'.rows == s.rows && s'.index == s.index && s'.unique == s.unique
    requires forall h :: Demanded(s', h) ==> Demanded(s, h)
    ensures Inv(s')
  {
    assert Demands(s');
  }

  lemma OwnerKeepsInv(s: State, o: OwnerStep)
    requires Inv(s) && Synced(s) && CanOwner(s, o)
    ensures Inv(Owner(s, o))
  {
    OwnerKeepsClean(s, o);
    forall h | Demanded(Owner(s, o), h) ensures Demanded(s, h) {
      OwnerDemands(s, o, h);
    }
    NoMoreDemands(s, Owner(s, o));
  }

  // ---------- the backfill ----------

  /** The finished tasks at the front of a round cover everything from its start. */
  lemma {:induction false} PrefixPasses(start: Handle, tasks: seq<TaskState>, k: nat, h: Handle)
    requires Chain(start, tasks) && 0 < k <= |tasks| && (forall i :: 0 <= i < k ==> tasks[i].status == Done)
    requires start <= h < Upper(tasks[k - 1].task)
    ensures exists i :: 0 <= i < k && Passed(tasks[i], h)
  {
    if h < tasks[k - 1].task.startHandle {
      assert tasks[k - 1].task.startHandle <= Upper(tasks[k - 2].task);
      PrefixPasses(start, tasks, k - 1, h);
    } else {
      assert Passed(tasks[k - 1], h);
    }
  }

  lemma LeadingDone(tasks: seq<TaskState>)
    ensures Successes(Results(tasks)) <= |tasks|
    ensures forall i :: 0 <= i < Successes(Results(tasks)) ==> tasks[i].status == Done
  {
    var results := Results(tasks);
    SuccessesArePrefix(results);
    forall i | 0 <= i < Successes(results) ensures tasks[i].status == Done {
      assert results[i].err == NoError;
    }
  }

  lemma RoundNextBound(start: Handle, tasks: seq<TaskState>, last: bool, end: Handle)
    requires TasksOk(start, tasks, last, end) && start <= end + 1
    ensures RoundNext(start, tasks) <= end + 1
    ensures tasks != [] && Successes(Results(tasks)) == |tasks| ==>
              tasks[|tasks| - 1].task.endHandle <= RoundNext(start, tasks)
  {
    LeadingDone(tasks);
    var k := Successes(Results(tasks));
    if 0 < k {
      assert tasks[k - 1].task.endHandle <= end;
    }
  }

  /** Everything below the handle that a round reports has its entry. */
  lemma RoundNextCovered(r: Reorg, h: Handle)
    requires r.Reorg? && RunOk(r) && r.run.Running? && h < RoundNext(r.run.start, r.run.tasks)
    ensures DemandedBy(r, h)
  {
    var run, k := r.run, Successes(Results(r.run.tasks));
    LeadingDone(run.tasks);
    if 0 < k && run.start <= h {
      PrefixPasses(run.start, run.tasks, k, h);
    }
  }

  lemma FreshTaskOk(bs: seq<Bound>, i: nat, start: Handle, end: Handle)
    requires CanSplit(bs, start, end) && i + 1 < |bs| && start <= end + 1
    ensures var t := TaskState(TaskOf(bs[i], bs[i + 1]), bs[i].h, Active);
            && TaskOk(t) && t.task.endHandle <= end && (forall h :: !Passed(t, h))
            && t.task.startHandle == bs[i].h && (i + 1 < |bs| - 1 ==> bs[i + 1].h <= Upper(t.task))
            && (i + 1 == |bs| - 1 ==> t.task.endHandle == end && t.task.endIncluded)
  {
    if start <= end {
      assert Before(bs[i], bs[i + 1]) && (i + 1 < |bs| - 1 ==> Before(bs[i + 1], bs[|bs| - 1]));
    }
  }

  lemma FreshTasksOk(bs: seq<Bound>, n: nat, start: Handle, end: Handle)
    requires CanSplit(bs, start, end) && 0 < n < |bs| && start <= end + 1
    ensures TasksOk(start, FreshTasks(bs, n), n == |bs| - 1, end)
    ensures forall i, h :: 0 <= i < n ==> !Passed(FreshTasks(bs, n)[i], h)
  {
    var tasks := FreshTasks(bs, n);
    forall i | 0 <= i < n
      ensures TaskOk(tasks[i]) && tasks[i].task.endHandle <= end && (forall h :: !Passed(tasks[i], h))
      ensures i == n - 1 == |bs| - 2 ==> tasks[i].task.endHandle == end && tasks[i].task.endIncluded
    {
      FreshTaskOk(bs, i, start, end);
    }
    FreshChain(bs, n, start, end);
  }

  lemma FreshChain(bs: seq<Bound>, n: nat, start: Handle, end: Handle)
    requires CanSplit(bs, start, end) && 0 < n < |bs| && start <= end + 1
    ensures var tasks := FreshTasks(bs, n);
            && tasks[0].task.startHandle == start
            && forall i, j :: 0 <= i < j < n && j == i + 1 ==> tasks[j].task.startHandle <= Upper(tasks[i].task)
  {
    var tasks := FreshTasks(bs, n);
    FreshTaskOk(bs, 0, start, end);
    forall i, j | 0 <= i < j < n && j == i + 1 ensures tasks[j].task.startHandle <= Upper(tasks[i].task) {
      FreshTaskOk(bs, i, start, end);
      FreshTaskOk(bs, j, start, end);
    }
  }

  lemma SetTaskOk(start: Handle, tasks: seq<TaskState>, last: bool, end: Handle, i: nat, t: TaskState)
    requires TasksOk(start, tasks, last, end) && i < |tasks|
    requires t.task == tasks[i].task && TaskOk(t)
    ensures TasksOk(start, tasks[i := t], last, end)
  {
    var tasks' := tasks[i := t];
    assert forall j :: 0 <= j < |tasks| ==> tasks'[j].task == tasks[j].task;
  }

  lemma TaskKeepsRun(s: State, f: FillStep)
    requires Control(s) && CanFillStep(s, f) && (f.Batch? || f.LastBatch? || f.FailTask?)
    ensures RunOk(FillNext(s, f).reorg)
  {
    var run, run' := s.reorg.run, FillNext(s, f).reorg.run;
    var t, t' := run.tasks[f.i], run'.tasks[f.i];
    assert TaskOk(t) && t'.task == t.task && TaskOk(t');
    SetTaskOk(run.start, run.tasks, run.last, s.reorg.end, f.i, t');
  }

  lemma RoundKeepsRun(s: State, f: FillStep)
    requires Control(s) && CanFillStep(s, f) && (f.EndRound? || f.AbortRound?)
    ensures RunOk(FillNext(s, f).reorg)
  {
    var r, r' := s.reorg, FillNext(s, f).reorg;
    RoundNextBound(r.run.start, r.run.tasks, r.run.last, r.end);
    if f.EndRound? && !r.run.last {
      assert TasksOk(r'.run.start, [], false, r.end);
    }
  }

  /** A backfill step keeps the bookkeeping of the run. */
  lemma FillKeepsRun(s: State, f: FillStep)
    requires Control(s) && CanFillStep(s, f)
    ensures RunOk(FillNext(s, f).reorg)
  {
    if f.Batch? || f.LastBatch? || f.FailTask? {
      TaskKeepsRun(s, f);
    } else if f.EndRound? || f.AbortRound? {
      RoundKeepsRun(s, f);
    } else if f.NextRound? {
      FreshTasksOk(f.borders, f.n, s.reorg.run.start, s.reorg.end);
    } else if f.StartRun? {
      assert TasksOk(s.reorg.resume, [], false, s.reorg.end);
    }
  }

  /** What a backfill step newly demands, it has just written. */
  lemma FillDemands(s: State, f: FillStep, h: Handle)
    requires Control(s) && CanFillStep(s, f) && h in s.rows && Demanded(FillNext(s, f), h)
    ensures Demanded(s, h) || HasEntry(s.unique, s.rows, FillNext(s, f).index, h)
  {
    var r := s.reorg;
    if f.NextRound? {
      FreshTasksOk(f.borders, f.n, r.run.start, r.end);
    } else if f.EndRound? {
      EndRoundDemands(s, h);
    } else if f.AbortRound? {
      if h < FillNext(s, f).reorg.resume { RoundNextCovered(r, h); }
    } else if f.Batch? || f.LastBatch? || f.FailTask? {
      TaskDemands(s, f, h);
    }
  }

  lemma EndRoundDemands(s: State, h: Handle)
    requires Control(s) && CanFillStep(s, EndRound) && Demanded(FillNext(s, EndRound), h)
    ensures Demanded(s, h)
  {
    var r, s' := s.reorg, FillNext(s, EndRound);
    if h < s'.reorg.run.done { RoundNextCovered(r, h); }
    if r.run.last && r.run.start <= h <= r.end {
      LeadingDone(r.run.tasks);
      PrefixPasses(r.run.start, r.run.tasks, |r.run.tasks|, h);
    }
  }

  /** What a batch passes is what it reads. */
  lemma NewlyPassed(s: State, f: FillStep, h: Handle)
    requires s.reorg.Reorg? && CanFill(s, s.reorg.run, s.reorg.end, f) && (f.Batch? || f.LastBatch? || f.FailTask?)
    requires TaskOk(s.reorg.run.tasks[f.i])
    ensures var t, t' := s.reorg.run.tasks[f.i], NextRun(s, s.reorg.run, s.reorg.end, s.reorg.resume, f).tasks[f.i];
            Passed(t', h) && !Passed(t, h) ==>
              !f.FailTask? && t.next <= h < if f.Batch? then f.last as int + 1 else Upper(t.task)
  {
  }

  lemma TaskDemands(s: State, f: FillStep, h: Handle)
    requires CanFillStep(s, f) && (f.Batch? || f.LastBatch? || f.FailTask?) && TaskOk(s.reorg.run.tasks[f.i])
    requires h in s.rows && Demanded(FillNext(s, f), h)
    ensures Demanded(s, h) || HasEntry(s.unique, s.rows, FillNext(s, f).index, h)
  {
    var tasks, tasks' := s.reorg.run.tasks, FillNext(s, f).reorg.run.tasks;
    if !(h < s.reorg.resume || s.reorg.end < h || h < s.reorg.run.done) {
      var j :| 0 <= j < |tasks'| && Passed(tasks'[j], h);
      if j != f.i || Passed(tasks[j], h) {
        assert Passed(tasks[j], h);
      } else {
        NewlyPassed(s, f, h);
        assert h in RowsIn(s.rows, tasks[j].next, if f.Batch? then f.last as int + 1 else Upper(tasks[j].task));
      }
    }
  }

  lemma AddedKeeps(s: State, hs: set<Handle>, grown: Entries)
    requires Added(s.unique, s.rows, s.index, hs, grown)
    ensures NoDangling(s) ==> NoDangling(s.(index := grown))
    ensures forall h :: HasEntry(s.unique, s.rows, s.index, h) ==> HasEntry(s.unique, s.rows, grown, h)
  {
  }

  /** The entries after a step, and what they come from. */
  lemma FillGrows(s: State, f: FillStep)
    requires CanFillStep(s, f)
    ensures NoDangling(s) ==> NoDangling(FillNext(s, f))
    ensures forall h :: HasEntry(s.unique, s.rows, s.index, h) ==> HasEntry(s.unique, s.rows, FillNext(s, f).index, h)
  {
    if f.Batch? || f.LastBatch? {
      var t := s.reorg.run.tasks[f.i];
      AddedKeeps(s, RowsIn(s.rows, t.next, if f.Batch? then f.last as int + 1 else Upper(t.task)), f.grown);
    }
  }

  lemma FillKeepsClean(s: State, f: FillStep)
    requires Clean(s) && CanFillStep(s, f)
    ensures Clean(FillNext(s, f))
  {
    FillKeepsRun(s, f);
    FillGrows(s, f);
  }

  lemma FillKeepsInv(s: State, f: FillStep)
    requires Inv(s) && CanFillStep(s, f)
    ensures Inv(FillNext(s, f))
  {
    var s' := FillNext(s, f);
    FillKeepsClean(s, f);
    FillGrows(s, f);
    forall h | h in s'.rows && Demanded(s', h) ensures HasEntry(s'.unique, s'.rows, s'.index, h) {
      FillDemands(s, f, h);
    }
    assert Demands(s');
  }

  // ---------- whole runs ----------

  lemma StepKeepsClean(s: State, e: Event)
    requires Clean(s) && Enabled(s, e)
    ensures Clean(Apply(s, e))
  {
    if e.Row? {
      WriteKeepsClean(s, s.servers[e.srv], e.w);
    } else if e.Own? {
      OwnerKeepsClean(s, e.step);
    } else if e.Fill? {
      FillKeepsClean(s, e.fill);
    } else if e.StrayBatch? {
      AddedKeeps(s, e.hs, e.grown);
    }
  }

  lemma {:induction false} RunKeepsClean(s: State, es: seq<Event>)
    requires Clean(s) && Legal(s, es)
    ensures Clean(After(s, es))
    decreases |es|
  {
    if es == [] {
    } else {
      StepKeepsClean(s, es[0]);
      RunKeepsClean(Apply(s, es[0]), es[1..]);
    }
  }

  /** Main result for every index: no entry ever leads to a missing or a changed row. */
  lemma NoDanglingAlways(s: State, es: seq<Event>)
    requires Init(s) && Legal(s, es)
    ensures After(s, es).job != Gone ==> NoDangling(After(s, es))
  {
    RunKeepsClean(s, es);
  }

  /** No step of the run is a write that steals an entry. */
  ghost predicate NoTheft(s: State, es: seq<Event>)
    requires Legal(s, es)
    decreases |es|
  {
    es == [] ||
    (&& (es[0].Row? ==> !Steals(s, s.servers[es[0].srv], es[0].w))
     && NoTheft(Apply(s, es[0]), es[1..]))
  }

  /** A step keeps the invariant exactly when it is no theft. */
  lemma StepKeepsInv(s: State, e: Event)
    requires Inv(s) && Enabled(s, e)
    ensures Inv(Apply(s, e)) <==> (e.Row? ==> !Steals(s, s.servers[e.srv], e.w))
  {
    var s' := Apply(s, e);
    if e.Row? {
      WriteKeepsInv(s, s.servers[e.srv], e.w);
    } else if e.Own? {
      OwnerKeepsInv(s, e.step);
    } else if e.Fill? {
      FillKeepsInv(s, e.fill);
    } else {
      StepKeepsClean(s, e);
      if e.StrayBatch? { AddedKeeps(s, e.hs, e.grown); }
      forall h | h in s'.rows && Demanded(s', h) ensures HasEntry(s'.unique, s'.rows, s'.index, h) {
        SameDemands(s, s', h);
        assert HasEntry(s.unique, s.rows, s.index, h);
      }
      assert Demands(s');
    }
  }

  ghost predicate Throughout(s: State, es: seq<Event>)
    requires Legal(s, es)
    decreases |es|
  {
    Inv(s) && (es != [] ==> Throughout(Apply(s, es[0]), es[1..]))
  }

  /** The invariant holds in every state of a run if and only if no write of the run is a theft. */
  lemma {:induction false} RunIsInvariant(s: State, es: seq<Event>)
    requires Inv(s) && Legal(s, es)
    ensures Throughout(s, es) <==> NoTheft(s, es)
    ensures Throughout(s, es) ==> Inv(After(s, es))
    decreases |es|
  {
    if es == [] {
    } else {
      StepKeepsInv(s, es[0]);
      if Inv(Apply(s, es[0])) { RunIsInvariant(Apply(s, es[0]), es[1..]); }
    }
  }

  /** Over entries that belong to their rows, only a row with the same distinct key can be robbed. */
  lemma TheftNeedsDuplicate(s: State, st: SchemaState, w: RowWrite)
    requires NoDangling(s) && Steals(s, st, w)
    ensures s.unique && exists g :: Duplicated(s.unique, s.rows, w.h, g)
  {
    var k :| Removes(s, st, w, k) && k in s.index && s.index[k] != w.h && Demanded(s, s.index[k]);
    SameKey(s.unique, s.rows, w.h, s.index[k]);
  }

  /** An index that is not unique knows no theft. */
  lemma {:induction false} PlainNoTheft(s: State, es: seq<Event>)
    requires Clean(s) && !s.unique && Legal(s, es)
    ensures NoTheft(s, es)
    decreases |es|
  {
    if es == [] {
    } else {
      if es[0].Row? && Steals(s, s.servers[es[0].srv], es[0].w) {
        TheftNeedsDuplicate(s, s.servers[es[0].srv], es[0].w);
      }
      StepKeepsClean(s, es[0]);
      PlainNoTheft(Apply(s, es[0]), es[1..]);
    }
  }

  /** Main result for a unique index: entries are never wrong, and none is missing in a run without theft. */
  lemma UniqueIndexSafe(s: State, es: seq<Event>)
    requires Init(s) && Legal(s, es)
    ensures After(s, es).job != Gone ==> NoDangling(After(s, es))
    ensures NoTheft(s, es) ==> Safe(After(s, es))
  {
    NoDanglingAlways(s, es);
    RunIsInvariant(s, es);
    if NoTheft(s, es) { InvIsSafe(After(s, es)); }
  }

  /** Main result: an index that is not unique is safe in every state of every run. */
  lemma PlainIndexSafe(s: State, es: seq<Event>)
    requires Init(s) && !s.unique && Legal(s, es)
    ensures Safe(After(s, es))
  {
    PlainNoTheft(s, es);
    UniqueIndexSafe(s, es);
  }

  /** In no state of the run do two rows want one key. */
  ghost predicate NeverDuplicated(s: State, es: seq<Event>)
    requires Legal(s, es)
    decreases |es|
  {
    && (forall g, h :: !Duplicated(s.unique, s.rows, g, h))
    && (es != [] ==> NeverDuplicated(Apply(s, es[0]), es[1..]))
  }

  /** So a run over a table that never holds duplicates is safe. */
  lemma {:induction false} NoDuplicatesNoTheft(s: State, es: seq<Event>)
    requires Clean(s) && Legal(s, es) && NeverDuplicated(s, es)
    ensures NoTheft(s, es)
    decreases |es|
  {
    if es == [] {
    } else {
      if es[0].Row? && s.job != Gone && Steals(s, s.servers[es[0].srv], es[0].w) {
        TheftNeedsDuplicate(s, s.servers[es[0].srv], es[0].w);
      }
      StepKeepsClean(s, es[0]);
      NoDuplicatesNoTheft(Apply(s, es[0]), es[1..]);
    }
  }

  /** A complete unique index leaves no two rows with one key. */
  lemma CompleteMeansUnique(s: State, g: Handle, h: Handle)
    requires Complete(s)
    ensures !Duplicated(s.unique, s.rows, g, h)
  {
    if g in s.rows && h in s.rows {
      assert HasEntry(s.unique, s.rows, s.index, g) && HasEntry(s.unique, s.rows, s.index, h);
      if g != h { SameKey(s.unique, s.rows, g, h); }
    }
  }

  /** Some other row holds these values, none of them NULL, and the index is unique. */
  ghost predicate Taken(s: State, vals: Vals, h: Handle) {
    s.unique && Null !in vals && exists g :: g in s.rows && g != h && s.rows[g] == vals
  }

  /** Over an index without missing or wrong entries a unique key is what it says: told by the values of the rows. */
  lemma UniqueIsEnforced(s: State, st: SchemaState, h: Handle, vals: Vals)
    requires NoDangling(s) && Complete(s) && Writable(st)
    ensures CanWrite(s, st, Insert(h, vals)) <==> h !in s.rows && !Taken(s, vals, h)
    ensures CanWrite(s, st, Update(h, vals)) <==> h in s.rows && vals != s.rows[h] && !Taken(s, vals, h)
  {
    var k := GenIndexKey(s.unique, vals, h);
    if k.Distinct? && k in s.index {
      assert s.rows[s.index[k]] == vals;
    }
    if Taken(s, vals, h) {
      var g :| g in s.rows && g != h && s.rows[g] == vals;
      assert HasEntry(s.unique, s.rows, s.index, g);
    }
  }

  /** Resume safety: below the persisted handle every row has its entry, whatever failed since. */
  lemma ResumeIsSafe(s: State, es: seq<Event>, h: Handle)
    requires Init(s) && Legal(s, es) && (s.unique ==> NoTheft(s, es))
    requires var s' := After(s, es); s'.job == Adding && s'.reorg.Reorg? && h in s'.rows && h < s'.reorg.resume
    ensures var s' := After(s, es); HasEntry(s'.unique, s'.rows, s'.index, h)
  {
    if !s.unique { PlainNoTheft(s, es); }
    RunIsInvariant(s, es);
    assert Demanded(After(s, es), h);
  }

  // ---------- the end of a job ----------

  lemma {:induction false} Compose(s: State, es: seq<Event>, fs: seq<Event>)
    requires Legal(s, es) && Legal(After(s, es), fs)
    ensures Legal(s, es + fs) && After(s, es + fs) == After(After(s, es), fs)
    decreases |es|
  {
    if es == [] {
      assert es + fs == fs;
    } else {
      Compose(Apply(s, es[0]), es[1..], fs);
      assert (es + fs)[1..] == es[1..] + fs;
    }
  }

  lemma Extend(s: State, es: seq<Event>, e: Event)
    requires Legal(s, es) && Enabled(After(s, es), e)
    ensures Legal(s, es + [e]) && After(s, es + [e]) == Apply(After(s, es), e)
  {
    assert [e][1..] == [];
    Compose(s, es, [e]);
  }

  /** The servers that are behind reload. */
  lemma {:induction false} CatchUp(s: State, behind: set<int>) returns (es: seq<Event>)
    requires forall i :: i in s.servers && i !in behind ==> s.servers[i] == s.cur
    ensures Legal(s, es) && Synced(After(s, es)) && After(s, es) == s.(servers := After(s, es).servers)
    decreases behind
  {
    if i :| i in behind {
      if i in s.servers {
        var fs := CatchUp(Apply(s, Reload(i)), behind - {i});
        es := [Reload(i)] + fs;
        assert es[1..] == fs;
      } else {
        es := CatchUp(s, behind - {i});
      }
    } else {
      es := [];
    }
  }

  /** What the owner can do, it can do after the servers have caught up. */
  lemma OwnerCan(s: State, o: OwnerStep) returns (es: seq<Event>)
    requires CanOwner(s, o)
    ensures Legal(s, es) && After(s, es) == Owner(s, o).(servers := After(s, es).servers)
  {
    es := CatchUp(s, s.servers.Keys);
    Extend(s, es, Own(o));
    es := es + [Own(o)];
  }

  /** Some continuation removes the index. */
  ghost predicate CanRemove(s: State) {
    exists es :: Legal(s, es) && After(s, es).job == Gone
  }

  lemma ThenRemove(s: State, es: seq<Event>)
    requires Legal(s, es) && CanRemove(After(s, es))
    ensures CanRemove(s)
  {
    var fs :| Legal(After(s, es), fs) && After(After(s, es), fs).job == Gone;
    Compose(s, es, fs);
  }

  function StepsLeft(st: SchemaState): nat {
    if st == WriteOnly then 3 else if st == DeleteOnly then 2 else if st == DeleteReorg then 1 else 0
  }

  lemma {:induction false} GoingDown(s: State)
    requires s.job == Gone || CanOwner(s, StepDown)
    ensures CanRemove(s)
    decreases s.job != Gone, StepsLeft(s.cur)
  {
    if s.job == Gone {
      assert Legal(s, []) && After(s, []) == s;
    } else {
      var es := OwnerCan(s, StepDown);
      GoingDown(After(s, es));
      ThenRemove(s, es);
    }
  }

  /** A rollback over an index in reorganization: no owner step takes it from there. */
  predicate Stuck(s: State) {
    s.job == RollingBack && s.cur == WriteReorg
  }

  lemma {:induction false} StuckStays(s: State, es: seq<Event>)
    requires Legal(s, es) && Stuck(s)
    ensures Stuck(After(s, es))
    decreases |es|
  {
    if es == [] {
    } else {
      StuckStays(Apply(s, es[0]), es[1..]);
    }
  }

  /** The index can still be removed exactly when its job is not stuck. */
  lemma RemovableUnlessStuck(s: State)
    requires Control(s)
    ensures CanRemove(s) <==> !Stuck(s)
  {
    if Stuck(s) {
      forall es | Legal(s, es) ensures After(s, es).job != Gone {
        StuckStays(s, es);
      }
    } else if s.job == Adding || s.job == Idle {
      var es := OwnerCan(s, if s.job == Adding then Rollback else Drop);
      GoingDown(After(s, es));
      ThenRemove(s, es);
    } else {
      GoingDown(s);
    }
  }

  /** The rollback of an index in reorganization is stored in the job and not in the table. */
  predicate LosesWrite(s: State, e: Event) {
    e.Own? && e.step.FailedRollback? && s.cur == WriteReorg
  }

  ghost predicate LostWrite(s: State, es: seq<Event>)
    requires Legal(s, es)
    decreases |es|
  {
    es != [] && (LosesWrite(s, es[0]) || LostWrite(Apply(s, es[0]), es[1..]))
  }

  lemma {:induction false} StuckExactly(s: State, es: seq<Event>)
    requires !Stuck(s) && Legal(s, es)
    ensures Stuck(After(s, es)) <==> LostWrite(s, es)
    decreases |es|
  {
    if es == [] {
    } else if LosesWrite(s, es[0]) {
      StuckStays(Apply(s, es[0]), es[1..]);
    } else {
      StuckExactly(Apply(s, es[0]), es[1..]);
    }
  }

  /** Main result: after any run the index can still be removed, if and only if no rollback in reorganization lost its write. */
  lemma RemovableExactly(s: State, es: seq<Event>)
    requires Init(s) && Legal(s, es)
    ensures CanRemove(After(s, es)) <==> !LostWrite(s, es)
  {
    RunKeepsClean(s, es);
    RemovableUnlessStuck(After(s, es));
    StuckExactly(s, es);
  }

  // ---------- an add job can be done ----------

  /** Rows without a conflict can get their entries. */
  lemma {:induction false} Grow(unique: bool, rows: Rows, index: Entries, hs: set<Handle>) returns (grown: Entries)
    requires hs <= rows.Keys && NoConflict(unique, rows, index, hs)
    ensures Added(unique, rows, index, hs, grown)
    decreases hs
  {
    if h :| h in hs {
      var rest := Grow(unique, rows, index, hs - {h});
      grown := rest[KeyAt(unique, rows, h) := h];
      forall g | g in hs && g != h ensures HasEntry(unique, rows, grown, g) {
        assert g in hs - {h} && HasEntry(unique, rows, rest, g);
      }
    } else {
      grown := index;
    }
  }

  lemma {:induction false} Ends(hs: set<Handle>) returns (lo: Handle, hi: Handle)
    requires hs != {}
    ensures lo in hs && hi in hs && forall h :: h in hs ==> lo <= h <= hi
    decreases hs
  {
    var g :| g in hs;
    lo, hi := g, g;
    if h :| h in hs && h != g {
      assert h in hs - {g};
      lo, hi := Ends(hs - {g});
      assert forall h :: h in hs ==> h == g || h in hs - {g};
      lo, hi := if g < lo then g else lo, if g > hi then g else hi;
    }
  }

  /** The run of events leaves the table and its entries alone. */
  ghost predicate Quietly(s: State, es: seq<Event>) {
    && Legal(s, es) && After(s, es).rows == s.rows && After(s, es).index == s.index && After(s, es).unique == s.unique
    && After(s, es).job == Adding
  }

  lemma {:induction false} ToReorganization(s: State) returns (es: seq<Event>)
    requires s.job == Adding && s.cur in {StateNone, DeleteOnly, WriteOnly, WriteReorg}
    ensures Quietly(s, es) && After(s, es).cur == WriteReorg && After(s, es).reorg == s.reorg
    decreases if s.cur == StateNone then 3 else if s.cur == DeleteOnly then 2 else if s.cur == WriteOnly then 1 else 0
  {
    es := [];
    if s.cur != WriteReorg {
      es := OwnerCan(s, StepAdd);
      var fs := ToReorganization(After(s, es));
      Compose(s, es, fs);
      es := es + fs;
    }
  }

  /** A backfill that starts, whatever happened to the one before it. */
  lemma ToStart(s: State) returns (es: seq<Event>)
    requires s.job == Adding && s.cur == WriteReorg
    ensures Quietly(s, es) && After(s, es).cur == WriteReorg && After(s, es).reorg.Reorg?
    ensures var r := After(s, es).reorg; r.run == Running(r.resume, r.resume, [], false)
  {
    es := [];
    if s.reorg.NotStarted? {
      var lo, hi := MIN_HANDLE, MIN_HANDLE;
      if s.rows != map[] {
        assert s.rows.Keys != {};
        lo, hi := Ends(s.rows.Keys);
      }
      Extend(s, es, Fill(InitReorg(lo, hi))); es := es + [Fill(InitReorg(lo, hi))];
    } else {
      Extend(s, es, Fill(Crash)); es := es + [Fill(Crash)];
    }
    Extend(s, es, Fill(StartRun)); es := es + [Fill(StartRun)];
  }

  /** One range and one worker for all that is left. */
  lemma ToLastRound(s: State) returns (es: seq<Event>)
    requires s.job == Adding && s.cur == WriteReorg && s.reorg.Reorg? && s.reorg.run == Running(s.reorg.resume, s.reorg.resume, [], false)
    ensures Quietly(s, es) && After(s, es).cur == WriteReorg && After(s, es).reorg.Reorg? && After(s, es).reorg.run.Running?
    ensures var run := After(s, es).reorg.run; run.last && |run.tasks| == 1 && run.tasks[0].status == Active
  {
    var r := s.reorg;
    var bs := [Bound(r.resume, 0), Bound(r.end, 1)];
    es := [];
    Extend(s, es, Fill(NextRound(bs, 1))); es := es + [Fill(NextRound(bs, 1))];
  }

  lemma ToFinished(s: State, grown: Entries) returns (es: seq<Event>)
    requires s.job == Adding && s.cur == WriteReorg && s.reorg.Reorg? && s.reorg.run.Running?
    requires var run := s.reorg.run; run.last && |run.tasks| == 1 && run.tasks[0].status == Active && Fills(s, run.tasks[0], Upper(run.tasks[0].task), grown)
    ensures Legal(s, es) && After(s, es).job == Adding && CanOwner(After(s, es), Publish)
  {
    es := [];
    Extend(s, es, Fill(LastBatch(0, grown))); es := es + [Fill(LastBatch(0, grown))];
    var tasks := After(s, es).reorg.run.tasks;
    assert |tasks| == 1 && tasks[0].status == Done;
    assert Results(tasks)[0].err == NoError;
    SuccessesAt(Results(tasks), 1);
    Extend(s, es, Fill(EndRound)); es := es + [Fill(EndRound)];
  }

  ghost predicate CanBePublic(s: State) {
    exists es :: Legal(s, es) && After(s, es).job == Idle && After(s, es).cur == Public
  }

  lemma ThenPublic(s: State, es: seq<Event>)
    requires Legal(s, es) && CanBePublic(After(s, es))
    ensures CanBePublic(s)
  {
    var fs :| Legal(After(s, es), fs) && After(After(s, es), fs).job == Idle && After(After(s, es), fs).cur == Public;
    Compose(s, es, fs);
  }

  lemma RoundPublishes(s: State)
    requires Clean(s) && s.job == Adding && s.cur == WriteReorg && s.reorg.Reorg? && s.reorg.run.Running?
    requires var run := s.reorg.run; run.last && |run.tasks| == 1 && run.tasks[0].status == Active
    requires forall g, h :: !Duplicated(s.unique, s.rows, g, h)
    ensures CanBePublic(s)
  {
    var t := s.reorg.run.tasks[0];
    var hs := RowsIn(s.rows, t.next, Upper(t.task));
    ConflictIsDuplicate(s.unique, s.rows, s.index, hs);
    var grown := Grow(s.unique, s.rows, s.index, hs);
    var es := ToFinished(s, grown);
    var fs := OwnerCan(After(s, es), Publish);
    ThenPublic(s, es);
  }

  /** Main result: from every state that an add job can be in, over a table without duplicates, the index can be published. */
  lemma CanPublish(s: State)
    requires Clean(s) && s.job == Adding && forall g, h :: !Duplicated(s.unique, s.rows, g, h)
    ensures CanBePublic(s)
  {
    var es := ToReorganization(s);
    RunKeepsClean(s, es);
    var s1 := After(s, es);
    var fs := ToStart(s1);
    RunKeepsClean(s1, fs);
    var s2 := After(s1, fs);
    var gs := ToLastRound(s2);
    RunKeepsClean(s2, gs);
    RoundPublishes(After(s2, gs));
    ThenPublic(s2, gs);
    ThenPublic(s1, fs);
    ThenPublic(s, es);
  }

  // ---------- the end of a drop that is cancelled ----------

  /** In every state of the run an index without a job is public. */
  ghost predicate PublicWhenIdle(s: State, es: seq<Event>)
    requires Legal(s, es)
    decreases |es|
  {
    && (s.job == Idle ==> s.cur == Public)
    && (es != [] ==> PublicWhenIdle(Apply(s, es[0]), es[1..]))
  }

  /** A drop that ends without removing the index leaves it public exactly when its cancel could write the table. */
  lemma {:induction false} PublicExactly(s: State, es: seq<Event>)
    requires (s.job == Idle ==> s.cur == Public) && Legal(s, es)
    ensures PublicWhenIdle(s, es) <==> Own(FailedCancelDrop) !in es
    decreases |es|
  {
    if es == [] {
    } else if es[0] != Own(FailedCancelDrop) {
      PublicExactly(Apply(s, es[0]), es[1..]);
      assert es == [es[0]] + es[1..];
    }
  }

  // ---------- runs that break a promise ----------

  const SHARED: Vals := [Value(7)]

  function Example(rows: Rows, index: Entries, cur: SchemaState, prev: SchemaState, reorg: Reorg): State {
    State(true, rows, index, Adding, cur, prev, map[0 := cur], reorg)
  }

  function OneTask(next: Handle, status: Status): Reorg {
    Reorg(2, 1, Running(1, 1, [TaskState(Task(1, 2, true), next, status)], true))
  }

  /** Handle 2 is there before the index. */
  lemma ToWriteOnly() returns (s: State, es: seq<Event>)
    ensures Init(s) && s.unique && Legal(s, es)
    ensures After(s, es) == Example(map[2 := SHARED], map[], WriteOnly, DeleteOnly, NotStarted)
  {
    s, es := Example(map[2 := SHARED], map[], StateNone, StateNone, NotStarted), [];
    Extend(s, es, Own(StepAdd)); es := es + [Own(StepAdd)];
    Extend(s, es, Reload(0)); es := es + [Reload(0)];
    Extend(s, es, Own(StepAdd)); es := es + [Own(StepAdd)];
    Extend(s, es, Reload(0)); es := es + [Reload(0)];
  }

  /** Handle 1 is written in the write-only state and gets the entry. */
  lemma ToReorg() returns (s: State, es: seq<Event>)
    ensures Init(s) && s.unique && Legal(s, es)
    ensures After(s, es) == Example(map[2 := SHARED, 1 := SHARED], map[Distinct(SHARED) := 1], WriteReorg, WriteOnly, NotStarted)
  {
    s, es := ToWriteOnly();
    Extend(s, es, Row(0, Insert(1, SHARED))); es := es + [Row(0, Insert(1, SHARED))];
    Extend(s, es, Own(StepAdd)); es := es + [Own(StepAdd)];
    Extend(s, es, Reload(0)); es := es + [Reload(0)];
  }

  lemma ToRound() returns (s: State, es: seq<Event>)
    ensures Init(s) && s.unique && Legal(s, es)
    ensures After(s, es) == Example(map[2 := SHARED, 1 := SHARED], map[Distinct(SHARED) := 1], WriteReorg, WriteOnly, OneTask(1, Active))
  {
    s, es := ToReorg();
    var bs := [Bound(1, 0), Bound(2, 1)];
    assert 2 in After(s, es).rows;
    Extend(s, es, Fill(InitReorg(1, 2))); es := es + [Fill(InitReorg(1, 2))];
    Extend(s, es, Fill(StartRun)); es := es + [Fill(StartRun)];
    Extend(s, es, Fill(NextRound(bs, 1))); es := es + [Fill(NextRound(bs, 1))];
    assert After(s, es).reorg.run.tasks == [TaskState(Task(1, 2, true), 1, Active)];
  }

  /** The backfill passes handle 1, whose entry is there. */
  lemma ToBatch() returns (s: State, es: seq<Event>)
    ensures Init(s) && s.unique && Legal(s, es)
    ensures After(s, es) == Example(map[2 := SHARED, 1 := SHARED], map[Distinct(SHARED) := 1], WriteReorg, WriteOnly, OneTask(2, Active))
  {
    s, es := ToRound();
    var index := After(s, es).index;
    assert 2 in After(s, es).rows;
    Extend(s, es, Fill(Batch(0, 1, index))); es := es + [Fill(Batch(0, 1, index))];
    assert After(s, es).reorg.run.tasks == [TaskState(Task(1, 2, true), 2, Active)];
  }

  /** Handle 2 is deleted, and the entry with it. */
  lemma ToTheft() returns (s: State, es: seq<Event>)
    ensures Init(s) && s.unique && Legal(s, es)
    ensures After(s, es) == Example(map[1 := SHARED], map[], WriteReorg, WriteOnly, OneTask(2, Active))
  {
    s, es := ToBatch();
    Extend(s, es, Row(0, Remove(2))); es := es + [Row(0, Remove(2))];
  }

  /** The backfill ends. */
  lemma ToLastBatch() returns (s: State, es: seq<Event>)
    ensures Init(s) && s.unique && Legal(s, es)
    ensures After(s, es) == Example(map[1 := SHARED], map[], WriteReorg, WriteOnly, OneTask(3, Done))
  {
    s, es := ToTheft();
    Extend(s, es, Fill(LastBatch(0, map[]))); es := es + [Fill(LastBatch(0, map[]))];
    assert After(s, es).reorg.run.tasks == [TaskState(Task(1, 2, true), 3, Done)];
  }

  lemma ToFilled() returns (s: State, es: seq<Event>)
    ensures Init(s) && s.unique && Legal(s, es)
    ensures After(s, es) == Example(map[1 := SHARED], map[], WriteReorg, WriteOnly, Reorg(2, 1, Finished(3)))
  {
    s, es := ToLastBatch();
    Extend(s, es, Fill(EndRound)); es := es + [Fill(EndRound)];
  }

  /** The index becomes public. */
  lemma ToPublic() returns (s: State, es: seq<Event>)
    ensures Init(s) && s.unique && Legal(s, es)
    ensures After(s, es) == Example(map[1 := SHARED], map[], Public, WriteReorg, NotStarted).(job := Idle)
  {
    s, es := ToFilled();
    Extend(s, es, Own(Publish)); es := es + [Own(Publish)];
    Extend(s, es, Reload(0)); es := es + [Reload(0)];
  }

  /**
    The promise fails for a unique index: deleting a row that shares its key with a row the
    backfill has passed removes that row's entry, and the index is published without it.
   */
  lemma UniqueIndexCanLoseEntry()
    ensures exists s, es :: Init(s) && s.unique && Legal(s, es) && !NoTheft(s, es) && !Safe(After(s, es))
  {
    var s, es := ToPublic();
    var t := After(s, es);
    assert t.servers[0] == Public && 1 in t.rows && !HasEntry(true, t.rows, t.index, 1);
    UniqueIndexSafe(s, es);
  }

  /** A rollback that cannot write the table leaves an index that no continuation removes. */
  lemma RollbackCanStick()
    ensures exists s, es :: Init(s) && Legal(s, es) && !CanRemove(After(s, es))
  {
    var s, es := ToReorg();
    Extend(s, es, Own(FailedRollback)); es := es + [Own(FailedRollback)];
    RunKeepsClean(s, es);
    RemovableUnlessStuck(After(s, es));
  }

  /** A cancelled drop that cannot write the table leaves an index that nobody reads, without a job. */
  lemma CancelCanHide()
    ensures exists s, es :: Init(s) && Legal(s, es) && After(s, es).job == Idle && After(s, es).cur == WriteOnly
  {
    var s, es := ToPublic();
    Extend(s, es, Own(Drop)); es := es + [Own(Drop)];
    Extend(s, es, Reload(0)); es := es + [Reload(0)];
    Extend(s, es, Own(FailedCancelDrop)); es := es + [Own(FailedCancelDrop)];
  }
}
