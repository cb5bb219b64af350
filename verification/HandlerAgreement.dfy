/**
  The handlers as functions of facts agree with the column and lock jobs as functions of tables, and with the
  owner steps of an index: given the facts that a table holds, both leave the job in the same state.
 */
module HandlerAgreement {
  import opened JobHandlers
  import opened Options
  import opened SchemaStates
  import Columns
  import ColumnJobs
  import JobLifecycle
  import OnlineIndex
  import TableLocks

  /** Everything is readable and can be written, and nothing is asked. */
  const CALM := Facts(true, Found, true, Absent, true, true, true, true, false, true, false, NotNeeded, true, true, true, TimedOut,
                      false, false, Found, ToPreLock, false, true, true)

  // ---------- column jobs ----------

  function ColumnJobState(st: ColumnJobs.JobState): JobState {
    match st
    case Queued => Queued
    case Running => Running
    case Cancelling => Cancelling
    case Rollback => Rollingback
    case RollbackDone => RollbackDone
    case Finished => Done
    case Stopped => Cancelled
  }

  function ColumnJob(s: ColumnJobs.State): Job {
    Job(if s.job.kind.AddColumn? then AddColumn else DropColumn, ColumnJobState(s.job.state), s.job.schemaState, false)
  }

  /** The name that the handler finds in the arguments; those of a rollback that was not written hold none. */
  function NameIn(s: ColumnJobs.State): Option<string> {
    if s.job.kind.DropColumn? then Some(s.job.kind.name)
    else if s.job.state == ColumnJobs.Rollback && !s.job.kind.nameOnly then None
    else Some(s.job.kind.col.name)
  }

  function ColumnItem(s: ColumnJobs.State): Item {
    if NameIn(s).None? then Absent
    else
      var c := ColumnJobs.Find(s.t.cols, NameIn(s).value);
      if c < 0 then Absent else Item(s.t.cols[c].state)
  }

  function ColumnFacts(s: ColumnJobs.State): Facts {
    CALM.(item := ColumnItem(s),
          buildable := s.job.kind.AddColumn? ==> ColumnJobs.Place(s.t.cols, s.job.kind.pos) >= 0,
          fits := |s.t.cols| + 1 <= ColumnJobs.COLUMN_COUNT_LIMIT,
          droppable := NameIn(s).Some? ==> |s.t.cols| != 1 && !ColumnJobs.CoveredByIndex(s.t, NameIn(s).value))
  }

  ghost predicate Agree(s: ColumnJobs.State, r: Ran) {
    r.Ran? && r.job.state == ColumnJobState(s.job.state) && r.job.schemaState == s.job.schemaState
  }

  /** The job has its place in the table, and only an add job turns back. */
  predicate Sensible(s: ColumnJobs.State) {
    ColumnJobs.InQueue(s.job) && s.job.offset < |s.t.cols| && (s.job.state == ColumnJobs.Rollback ==> s.job.kind.AddColumn?)
  }

  lemma DropRunAgrees(s: ColumnJobs.State, name: string, job: Job, f: Facts)
    requires f == CALM.(item := f.item, buildable := f.buildable, fits := f.fits, droppable := f.droppable)
    requires var c := ColumnJobs.Find(s.t.cols, name); f.item == if c < 0 then Absent else Item(s.t.cols[c].state)
    requires f.droppable == (|s.t.cols| != 1 && !ColumnJobs.CoveredByIndex(s.t, name))
    requires job.state == ColumnJobState(s.job.state) && job.schemaState == s.job.schemaState
    requires s.job.state in {ColumnJobs.Running, ColumnJobs.Rollback}
    ensures Agree(ColumnJobs.OnDropColumn(s, name), OnDropColumn(job, f))
  {
  }

  lemma ConvertAgrees(s: ColumnJobs.State)
    requires Sensible(s) && s.job.state == ColumnJobs.Cancelling
    ensures Agree(ColumnJobs.RunJob(s), RunJob(ColumnJob(s), ColumnFacts(s)))
  {
  }

  lemma AddRunAgrees(s: ColumnJobs.State)
    requires Sensible(s) && s.job.state != ColumnJobs.Cancelling && s.job.kind.AddColumn?
    ensures Agree(ColumnJobs.RunJob(s), RunJob(ColumnJob(s), ColumnFacts(s)))
  {
    if s.job.state == ColumnJobs.Rollback && s.job.kind.nameOnly {
      DropRunAgrees(s, s.job.kind.col.name, ColumnJob(s), ColumnFacts(s));
    }
  }

  lemma ColumnRunAgrees(s: ColumnJobs.State)
    requires Sensible(s)
    ensures Agree(ColumnJobs.RunJob(s), RunJob(ColumnJob(s), ColumnFacts(s)))
  {
    if s.job.state == ColumnJobs.Cancelling {
      ConvertAgrees(s);
    } else if s.job.kind.AddColumn? {
      AddRunAgrees(s);
    } else {
      var r := s.(job := s.job.(state := ColumnJobs.Running));
      DropRunAgrees(r, s.job.kind.name, ColumnJob(s).(state := Running), ColumnFacts(s));
    }
  }

  /** A run that fails: the table cannot be read, or the new one cannot be written. */
  function FailFacts(s: ColumnJobs.State, late: bool): Facts {
    if late then ColumnFacts(s).(written := false) else ColumnFacts(s).(table := Unreadable)
  }

  /** The run comes to write a new table: it does not stop before, and is not a drop that goes on unchanged. */
  predicate Writes(s: ColumnJobs.State) {
    ColumnJobs.RunJob(s).job.state != ColumnJobs.Stopped && !(s.job.kind.DropColumn? && s.job.state == ColumnJobs.Cancelling)
  }

  lemma UnreadableAgrees(s: ColumnJobs.State)
    requires Sensible(s)
    ensures Agree(ColumnJobs.FailJob(s, false, false), RunJob(ColumnJob(s), FailFacts(s, false)))
  {
  }

  lemma AddUnwrittenAgrees(s: ColumnJobs.State)
    requires Sensible(s) && Writes(s) && s.job.kind.AddColumn?
    ensures Agree(ColumnJobs.FailJob(s, true, false), RunJob(ColumnJob(s), FailFacts(s, true)))
  {
  }

  lemma DropUnwrittenAgrees(s: ColumnJobs.State)
    requires Sensible(s) && Writes(s) && s.job.kind.DropColumn?
    ensures Agree(ColumnJobs.FailJob(s, true, false), RunJob(ColumnJob(s), FailFacts(s, true)))
  {
  }

  lemma ColumnFailAgrees(s: ColumnJobs.State, late: bool)
    requires Sensible(s) && (late ==> Writes(s))
    ensures Agree(ColumnJobs.FailJob(s, late, false), RunJob(ColumnJob(s), FailFacts(s, late)))
  {
    if !late {
      UnreadableAgrees(s);
    } else if s.job.kind.AddColumn? {
      AddUnwrittenAgrees(s);
    } else {
      DropUnwrittenAgrees(s);
    }
  }

  /** The job in the queue, with as many errors as it may have. */
  function AtLimit(s: ColumnJobs.State): JobLifecycle.Entry {
    JobLifecycle.Entry(ColumnJob(s), true, JobLifecycle.ERROR_COUNT_LIMIT)
  }

  lemma AtLimitRuns(job: Job, f: Facts)
    requires RunJob(job, f).Ran? && RunJob(job, f).failed
    ensures var r, x := RunJob(job, f).job, JobLifecycle.Entry(job, true, JobLifecycle.ERROR_COUNT_LIMIT);
            JobLifecycle.RunDDLJob(JobLifecycle.Handlers(), x, f).job.state ==
              if job.state != Cancelling && r.state == Running && Rollbackable(r) then Cancelling else r.state
  {
    assert JobLifecycle.Handlers()(job, f) == RunJob(job, f);
  }

  lemma RollbackableAgrees(s: ColumnJobs.State)
    ensures Rollbackable(ColumnJob(s)) <==> ColumnJobs.Rollbackable(s.job)
  {
  }

  /** One error more than allowed: the machine cancels the job exactly if the worker does. */
  lemma ColumnLimitAgrees(s: ColumnJobs.State, late: bool)
    requires Sensible(s) && (late ==> Writes(s)) && RunJob(ColumnJob(s), FailFacts(s, late)).Ran? && RunJob(ColumnJob(s), FailFacts(s, late)).failed
    ensures var f := FailFacts(s, late);
            var y := JobLifecycle.RunDDLJob(JobLifecycle.Handlers(), AtLimit(s), f);
            y.job.state == ColumnJobState(ColumnJobs.FailJob(s, late, true).job.state)
  {
    ColumnFailAgrees(s, late);
    AtLimitRuns(ColumnJob(s), FailFacts(s, late));
    OverLimit(s, late);
    RunDisciplined(ColumnJob(s), FailFacts(s, late));
    RollbackableAgrees(ColumnJobs.FailJob(s, late, false));
  }

  lemma OverLimit(s: ColumnJobs.State, late: bool)
    requires Sensible(s)
    ensures var r := ColumnJobs.FailJob(s, late, false);
            ColumnJobs.FailJob(s, late, true).job.state ==
              if r.job.state == ColumnJobs.Running && ColumnJobs.Rollbackable(r.job) && s.job.state != ColumnJobs.Cancelling
              then ColumnJobs.Cancelling else r.job.state
    ensures ColumnJobs.FailJob(s, late, false).job.kind.AddColumn? == s.job.kind.AddColumn?
  {
  }

  /** A cancel reaches the job in the machine exactly if it does in the queue. */
  lemma ColumnCancelAgrees(s: ColumnJobs.State)
    requires Sensible(s)
    ensures var y := JobLifecycle.CancelJob(AtLimit(s));
            y.job.state == ColumnJobState(if ColumnJobs.Enabled(s, ColumnJobs.Cancel) then ColumnJobs.Step(s, ColumnJobs.Cancel).job.state else s.job.state)
  {
    RollbackableAgrees(s);
  }

  /** A new table that does not pass its check ends the job in its first step, and plays no part later. */
  lemma ColumnRefuseAgrees(s: ColumnJobs.State)
    requires Sensible(s) && s.job.state in {ColumnJobs.Queued, ColumnJobs.Running}
    ensures var r := RunJob(ColumnJob(s), ColumnFacts(s).(valid := false));
            if ColumnJobs.Enabled(s, ColumnJobs.Refuse) then r.Ran? && r.job.state == ColumnJobState(ColumnJobs.Step(s, ColumnJobs.Refuse).job.state)
            else ColumnItem(s) != Item(StateNone) ==> r == RunJob(ColumnJob(s), ColumnFacts(s))
  {
  }

  /** Both begin with the same job. */
  lemma NewJobsAgree(t: Columns.Table, col: Columns.Column, pos: Columns.Position, name: string)
    ensures ColumnJob(ColumnJobs.NewAdd(t, col, pos)) == JobLifecycle.NewJob(AddColumn).entry.job
    ensures ColumnJob(ColumnJobs.NewDrop(t, name)) == JobLifecycle.NewJob(DropColumn).entry.job
  {
  }

  // ---------- index jobs ----------

  /** The table is read and the arguments are decoded; the index is in the table from its first state on. */
  predicate Reads(s: OnlineIndex.State, f: Facts) {
    f.table == Found && f.decoded && f.item == if s.cur == StateNone then Absent else Item(s.cur)
  }

  predicate IsAdd(job: Job) {
    job.kind == AddIndex || job.kind == AddPrimaryKey
  }

  predicate IsDrop(job: Job) {
    job.kind == DropIndex || job.kind == DropPrimaryKey
  }

  /** The checks of an add job pass, a primary key is not over nulls, and the backfill has come to a good end. */
  predicate Passes(s: OnlineIndex.State, job: Job, f: Facts) {
    var key := job.kind == AddPrimaryKey;
    match s.cur
    case StateNone => f.buildable && (key ==> f.fits) && f.valid
    case DeleteOnly => key ==> f.nulls != CheckFails && f.nulls != HasNull
    case WriteOnly => key ==> f.nulls != CheckFails && f.nulls != HasNull
    case WriteReorg => f.reorgInfo && job.snapshot && f.backfill == Finished && (key ==> f.nullColumns)
    case _ => false
  }

  /** Rows that cannot be in the index, or a cancel that the backfill has noticed. */
  predicate TurnsBack(s: OnlineIndex.State, job: Job, f: Facts) {
    if s.cur == WriteReorg then f.reorgInfo && job.snapshot && f.backfill == GivenUp
    else (s.cur == DeleteOnly || s.cur == WriteOnly) && job.kind == AddPrimaryKey && f.nulls == HasNull
  }

  predicate Waits(s: OnlineIndex.State, job: Job, f: Facts) {
    s.cur == WriteReorg && f.reorgInfo && (!job.snapshot || f.backfill == TimedOut)
  }

  /** The job turns back: the next state is that of a rollback, unless the columns of the key are not found. */
  predicate HasTurned(s: OnlineIndex.State, job: Job, f: Facts, r: Ran) {
    && r.Ran? && r.failed && r.job.state == Rollingback
    && (job.kind == AddIndex || f.nullColumns ==> r.job.schemaState == OnlineIndex.Owner(s, OnlineIndex.Rollback).cur)
  }

  /** A run of an add index job takes the step of the owner, turns back, gives up or tries again. */
  predicate AddOutcome(s: OnlineIndex.State, job: Job, f: Facts, r: Ran) {
    var next := OnlineIndex.Owner(s, if s.cur == WriteReorg then OnlineIndex.Publish else OnlineIndex.StepAdd);
    && r.Ran?
    && (Passes(s, job, f) && f.written ==>
          !r.failed && r.job.schemaState == next.cur && r.job.state == if next.job == OnlineIndex.Idle then Done else job.state)
    && (TurnsBack(s, job, f) ==> HasTurned(s, job, f, r))
    && (s.cur == StateNone && !Passes(s, job, f) ==> r.failed && r.job.state == Cancelled)
    && (s.cur != StateNone && !Passes(s, job, f) && !TurnsBack(s, job, f) ==>
          r.job.state == job.state && r.failed == !Waits(s, job, f))
    && (Passes(s, job, f) && !f.written ==> r.failed && r.job.state == job.state)
  }

  /** The snapshot of the backfill is taken in the first run in reorganization, and kept from then on. */
  predicate SnapshotOutcome(s: OnlineIndex.State, job: Job, f: Facts, r: Ran) {
    && r.Ran? && (s.cur == WriteOnly && Passes(s, job, f) ==> !r.job.snapshot)
    && (s.cur == WriteReorg ==> (r.job.snapshot <==> job.snapshot || f.reorgInfo))
  }

  lemma CreateIndexAgrees(s: OnlineIndex.State, job: Job, f: Facts)
    requires OnlineIndex.Shape(s) && s.job == OnlineIndex.Adding && IsAdd(job) && job.state in {Running, Cancelling} && Reads(s, f)
    ensures AddOutcome(s, job, f, OnCreateIndex(job, f)) && SnapshotOutcome(s, job, f, OnCreateIndex(job, f))
  {
    if s.cur == WriteReorg { ReorganizeAgrees(s, job, f); } else { FirstStatesAgree(s, job, f); }
  }

  lemma FirstStatesAgree(s: OnlineIndex.State, job: Job, f: Facts)
    requires s.job == OnlineIndex.Adding && s.cur in {StateNone, DeleteOnly, WriteOnly} && IsAdd(job) && job.state in {Running, Cancelling} && Reads(s, f)
    ensures AddOutcome(s, job, f, OnCreateIndex(job, f)) && SnapshotOutcome(s, job, f, OnCreateIndex(job, f))
  {
  }

  lemma ReorganizeAgrees(s: OnlineIndex.State, job: Job, f: Facts)
    requires s.cur == WriteReorg && IsAdd(job) && job.state in {Running, Cancelling} && Reads(s, f)
    ensures AddOutcome(s, job, f, OnCreateIndex(job, f)) && SnapshotOutcome(s, job, f, OnCreateIndex(job, f))
  {
  }

  /** A drop takes the step of the owner, down to the end; only a rollback in reorganization gets no further. */
  predicate DropOutcome(s: OnlineIndex.State, job: Job, f: Facts, r: Ran) {
    var next := OnlineIndex.Owner(s, if s.job == OnlineIndex.Idle then OnlineIndex.Drop else OnlineIndex.StepDown);
    && r.Ran?
    && (if !f.droppable then r.failed && r.job.state == Cancelled
        else if OnlineIndex.Stuck(s) || !f.written then r.failed && r.job.state == job.state
        else && !r.failed && r.job.schemaState == next.cur
             && r.job.state == if next.job != OnlineIndex.Gone then job.state else if job.state == Rollingback then RollbackDone else Done)
  }

  /** A drop job, or an add job that rolls back. */
  predicate GoesDown(s: OnlineIndex.State, job: Job) {
    if job.state == Rollingback then IsAdd(job) && s.job == OnlineIndex.RollingBack
    else job.state == Running && IsDrop(job) && (s.job == OnlineIndex.Idle || s.job == OnlineIndex.Dropping)
  }

  lemma DropIndexAgrees(s: OnlineIndex.State, job: Job, f: Facts)
    requires OnlineIndex.Shape(s) && GoesDown(s, job) && Reads(s, f)
    ensures DropOutcome(s, job, f, OnDropIndex(job, f))
  {
    DropAgrees(s, job, f);
  }

  lemma DropAgrees(s: OnlineIndex.State, job: Job, f: Facts)
    requires s.job != OnlineIndex.Gone && s.cur != StateNone && (s.job == OnlineIndex.Idle ==> s.cur == Public || s.cur == WriteOnly)
    requires s.cur == Public ==> s.job == OnlineIndex.Idle
    requires s.cur == WriteReorg ==> s.job == OnlineIndex.RollingBack
    requires job.state in {Running, Rollingback} && Reads(s, f)
    ensures DropOutcome(s, job, f, OnDropIndex(job, f))
  {
  }

  /** A cancelled add job whose backfill has begun goes on until that ends; any other turns back, or is over if it has done nothing. */
  predicate CancelAddOutcome(s: OnlineIndex.State, job: Job, f: Facts, r: Ran) {
    if s.cur == WriteReorg && job.schemaState == WriteReorg && job.snapshot then AddOutcome(s, job, f, r)
    else if s.cur == StateNone then r.Ran? && r.failed && r.job.state == Cancelled
    else HasTurned(s, job, f, r)
  }

  lemma CancelAddAgrees(s: OnlineIndex.State, job: Job, f: Facts)
    requires OnlineIndex.Shape(s) && s.job == OnlineIndex.Adding && IsAdd(job) && job.state == Cancelling && Reads(s, f)
    requires job.schemaState == WriteReorg && job.snapshot ==> s.cur == WriteReorg
    ensures CancelAddOutcome(s, job, f, RollingbackAddIndex(job, f))
  {
    CreateIndexAgrees(s, job, f);
  }

  /** A cancelled drop is over, with the index public again, if it has only stopped reading; otherwise it goes on. */
  predicate CancelDropOutcome(s: OnlineIndex.State, job: Job, f: Facts, r: Ran) {
    && r.Ran?
    && (if !f.droppable then r.failed && r.job.state == Cancelled
        else if s.cur == Public || OnlineIndex.CanOwner(s, OnlineIndex.CancelDrop) then
          && r.failed && r.job.state == RollbackDone
          && (s.cur == WriteOnly ==> r.job.schemaState == OnlineIndex.Owner(s, OnlineIndex.CancelDrop).cur)
        else !r.failed && r.job == job.(state := Running))
  }

  lemma CancelDropAgrees(s: OnlineIndex.State, job: Job, f: Facts)
    requires OnlineIndex.Shape(s) && s.job in {OnlineIndex.Idle, OnlineIndex.Dropping}
    requires IsDrop(job) && job.state == Cancelling && Reads(s, f)
    ensures CancelDropOutcome(s, job, f, RollingbackDropIndex(job, f))
  {
  }

  /** The job is that of the index: what it does agrees with what the owner does to the index. */
  predicate JobOf(s: OnlineIndex.State, job: Job) {
    match s.job
    case Adding => IsAdd(job) && job.state in {Queued, Running, Cancelling} && (job.schemaState == WriteReorg && job.snapshot ==> s.cur == WriteReorg)
    case RollingBack => IsAdd(job) && job.state == Rollingback
    case Dropping => IsDrop(job) && job.state in {Running, Cancelling}
    case Idle => IsDrop(job) && job.state in {Queued, Running, Cancelling}
    case Gone => false
  }

  /** Main result: every run of every index job, whatever it finds, does what the owner of the index does. */
  lemma IndexRunAgrees(s: OnlineIndex.State, job: Job, f: Facts)
    requires OnlineIndex.Shape(s) && JobOf(s, job) && Reads(s, f)
    ensures var r, running := RunJob(job, f), job.(state := Running);
            match s.job
            case Adding => if job.state == Cancelling then CancelAddOutcome(s, job, f, r) else AddOutcome(s, running, f, r) && SnapshotOutcome(s, running, f, r)
            case RollingBack => DropOutcome(s, job, f, r)
            case _ => if job.state == Cancelling then CancelDropOutcome(s, job, f, r) else DropOutcome(s, running, f, r)
  {
    var running := job.(state := Running);
    if s.job == OnlineIndex.Adding {
      if job.state == Cancelling { CancelAddAgrees(s, job, f); } else { CreateIndexAgrees(s, running, f); }
    } else if s.job == OnlineIndex.RollingBack {
      DropIndexAgrees(s, job, f);
    } else if job.state == Cancelling {
      CancelDropAgrees(s, job, f);
    } else {
      DropIndexAgrees(s, running, f);
    }
  }

  // ---------- lock jobs ----------

  function LockJobState(st: TableLocks.JobState): JobState {
    match st
    case Running => Running
    case Done => Done
    case Cancelled => Cancelled
  }

  function LockJob(s: TableLocks.State): Job {
    Job(if s.job.kind.LockTables? then LockTables else UnlockTables, LockJobState(s.job.state), StateNone, false)
  }

  function TableFact(s: TableLocks.State, x: TableLocks.TableID): Lookup {
    if x in s.tables then Found else Missing
  }

  function LockFact(l: Option<TableLocks.Lock>): LockStep {
    if l.None? then LockRefused
    else if l.value.Unlocked? then BadLockState
    else if l.value.state.NoState? then ToPreLock else ToPublic
  }

  function LockFacts(s: TableLocks.State): Facts {
    var iu, il := s.job.indexOfUnlock, s.job.indexOfLock;
    if iu < |s.job.unlock| then CALM.(unlocking := true, table := TableFact(s, s.job.unlock[iu]), last := iu + 1 == |s.job.unlock|)
    else
      var f := CALM.(firstCheck := if s.job.kind.LockTables? && il == 0 && !TableLocks.FirstCheck(s) then NotPublic else Found);
      if il < |s.job.lock| then
        var r := s.job.lock[il];
        f.(toLock := true, table := TableFact(s, r.table), last := il + 1 == |s.job.lock|,
           lock := if r.table in s.tables then LockFact(TableLocks.LockTable(s.tables[r.table], r.tp, s.job.session)) else ToPublic)
      else f
  }

  lemma LockRunAgrees(s: TableLocks.State)
    requires TableLocks.Tidy(s.job) && s.job.state.Running?
    ensures var r := RunJob(LockJob(s), LockFacts(s)); r.Ran? && r.job.state == LockJobState(TableLocks.RunJob(s).job.state)
  {
  }
}
