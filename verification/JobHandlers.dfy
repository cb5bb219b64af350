/**
  What the handlers of column, index and lock jobs do with the job itself: the state they leave it
  in, and whether they return an error. What a handler finds in the store is a record of facts;
  every combination of facts is allowed.
 */
module JobHandlers {
  import opened Options
  import opened SchemaStates

  datatype Kind = AddColumn | DropColumn | ModifyColumn | SetDefaultValue
                | AddIndex | AddPrimaryKey | DropIndex | DropPrimaryKey | RenameIndex
                | LockTables | UnlockTables

  datatype JobState = Queued | Running | Cancelling | Rollingback | RollbackDone | Done | Cancelled | Synced

  /** `snapshot` tells whether the backfill of an index has its snapshot version. */
  datatype Job = Job(kind: Kind, state: JobState, schemaState: SchemaState, snapshot: bool)

  /** What a run of a handler does: the job it leaves, and whether it returns an error; or it panics. */
  datatype Ran = Ran(job: Job, failed: bool) | Panicked

  // ---------- facts ----------

  /** The table of the job: it may be missing, not public, or not be read. */
  datatype Lookup = Found | Missing | NotPublic | Unreadable

  /** The column or index of the job. */
  datatype Item = Absent | Item(state: SchemaState)

  /** The check that the columns of a primary key, or a modified column, hold no null. */
  datatype NullCheck = NotNeeded | CheckFails | HasNull | NoNull(prevented: bool)

  datatype Backfill = TimedOut | GivenUp | BackfillFails | Finished

  datatype LockStep = LockRefused | BadLockState | ToPreLock | ToPublic

  datatype Facts = Facts(
    database: bool,        // the database is read
    table: Lookup,
    decoded: bool,         // the arguments can be decoded
    item: Item,
    buildable: bool,       // the column has a place, or the columns of the index are there
    fits: bool,            // the number of columns, or the columns of the primary key, are allowed
    droppable: bool,       // no index covers the column, or no auto-increment column needs the index
    nameFree: bool,        // the new name is not taken
    sameName: bool,        // an index is renamed to the name it has
    placed: bool,          // the column to stand behind is another one, and public
    resetFlags: bool,      // a rollback of modify column has to reset flags
    nulls: NullCheck,
    nullColumns: bool,     // the columns of the key are found
    defaultValue: bool,    // the original default value can be computed
    reorgInfo: bool,       // table and progress of the backfill are read
    backfill: Backfill,
    unlocking: bool,       // there are tables left to unlock
    toLock: bool,          // there are tables left to lock
    firstCheck: Lookup,    // the check before the first table: locked by others reads as not public
    lock: LockStep,
    last: bool,            // it is the last table of the list
    valid: bool,           // the check of the new table info
    written: bool)         // the new version and table info are written

  // ---------- common endings ----------

  function Err(job: Job): Ran { Ran(job, true) }

  function Ok(job: Job): Ran { Ran(job, false) }

  function Cancel(job: Job): Ran { Ran(job.(state := Cancelled), true) }

  function Finish(job: Job, state: JobState, schema: SchemaState): Ran {
    Ok(job.(state := state, schemaState := schema))
  }

  function Write(job: Job, f: Facts): Ran {
    if f.written then Ok(job) else Err(job)
  }

  /** The new table info is checked before it is written. */
  function WriteChecked(job: Job, f: Facts): Ran {
    if !f.valid then Cancel(job) else Write(job, f)
  }

  /** The table and the arguments; `None` to go on. */
  function Start(job: Job, f: Facts): Option<Ran> {
    if f.table == Missing || f.table == NotPublic then Some(Cancel(job))
    else if f.table == Unreadable then Some(Err(job))
    else if !f.decoded then Some(Cancel(job))
    else None
  }

  // ---------- columns ----------

  function CheckDropColumn(job: Job, f: Facts): Option<Ran> {
    var start := Start(job, f);
    if start.Some? then start
    else if f.item.Absent? || !f.droppable then Some(Cancel(job))
    else None
  }

  function OnDropColumn(job: Job, f: Facts): Ran {
    var check := CheckDropColumn(job, f);
    if check.Some? then check.value
    else if f.item == Item(Public) then
      var job := job.(schemaState := WriteOnly);
      if !f.defaultValue then Err(job) else WriteChecked(job, f)
    else if f.item == Item(WriteOnly) then Write(job.(schemaState := DeleteOnly), f)
    else if f.item == Item(DeleteOnly) then Write(job.(schemaState := DeleteReorg), f)
    else if f.item == Item(DeleteReorg) then
      if !f.written then Err(job)
      else Finish(job, if job.state == Rollingback then RollbackDone else Done, StateNone)
    else Err(job)
  }

  function CheckAddColumn(job: Job, f: Facts): Option<Ran> {
    var start := Start(job, f);
    if start.Some? then start
    else if f.item == Item(Public) then Some(Cancel(job))
    else None
  }

  function OnAddColumn(job: Job, f: Facts): Ran {
    if job.state == Rollingback then OnDropColumn(job, f)
    else
      var check := CheckAddColumn(job, f);
      if check.Some? then check.value
      else if f.item.Absent? && (!f.buildable || !f.fits) then Cancel(job)
      else if f.item.Absent? || f.item.state == StateNone then WriteChecked(job.(schemaState := DeleteOnly), f)
      else if f.item.state == DeleteOnly then Write(job.(schemaState := WriteOnly), f)
      else if f.item.state == WriteOnly then Write(job.(schemaState := WriteReorg), f)
      else if f.item.state == WriteReorg then
        if !f.written then Err(job) else Finish(job, Done, Public)
      else Err(job)
  }

  function RollbackModifyColumn(job: Job, f: Facts): Ran {
    if f.resetFlags && f.item.Absent? then Panicked
    else if f.resetFlags && !f.written then Err(job)
    else Finish(job, RollbackDone, StateNone)
  }

  function OnModifyColumn(job: Job, f: Facts): Ran {
    if !f.decoded then Cancel(job)
    else if !f.database || f.table == Unreadable then Err(job)
    else if f.table != Found then Cancel(job)
    else if job.state == Rollingback then RollbackModifyColumn(job, f)
    else if f.item != Item(Public) || !f.nameFree then Cancel(job)
    else if f.nulls == CheckFails then Err(job)
    else if f.nulls == HasNull then Err(job.(state := Rollingback))
    else if f.nulls == NoNull(false) then WriteChecked(job, f)
    else if !f.placed || !f.valid || !f.written then Err(job.(state := Rollingback))
    else Finish(job, Done, Public)
  }

  function OnSetDefaultValue(job: Job, f: Facts): Ran {
    if !f.decoded then Cancel(job)
    else if f.table == Unreadable then Err(job)
    else if f.table != Found || f.item != Item(Public) || !f.written then Cancel(job)
    else Finish(job, Done, Public)
  }

  // ---------- indexes ----------

  function CheckDropIndex(job: Job, f: Facts): Option<Ran> {
    var start := Start(job, f);
    if start.Some? then start
    else if f.item.Absent? || !f.droppable then Some(Cancel(job))
    else None
  }

  function OnDropIndex(job: Job, f: Facts): Ran {
    var check := CheckDropIndex(job, f);
    if check.Some? then check.value
    else if f.item == Item(Public) then Write(job.(schemaState := WriteOnly), f)
    else if f.item == Item(WriteOnly) then Write(job.(schemaState := DeleteOnly), f)
    else if f.item == Item(DeleteOnly) then Write(job.(schemaState := DeleteReorg), f)
    else if f.item == Item(DeleteReorg) then
      if !f.written then Err(job)
      else Finish(job, if job.state == Rollingback then RollbackDone else Done, StateNone)
    else Err(job)
  }

  /** An add index job turns back; it always returns an error, the one that made it do so or that of the write. */
  function ConvertAddIndex(job: Job, f: Facts): Ran {
    var job := job.(state := Rollingback);
    if job.kind == AddPrimaryKey && !f.nullColumns then Err(job) else Err(job.(schemaState := DeleteOnly))
  }

  /** The columns of a primary key are checked for nulls before the next state is written. */
  function WriteUnlessNull(job: Job, f: Facts): Ran {
    if job.kind == AddPrimaryKey && f.nulls == CheckFails then Err(job)
    else if job.kind == AddPrimaryKey && f.nulls == HasNull then ConvertAddIndex(job, f)
    else Write(if job.schemaState == WriteReorg then job.(snapshot := false) else job, f)
  }

  function OnCreateIndex(job: Job, f: Facts): Ran {
    if job.state == Rollingback then OnDropIndex(job, f)
    else
      var start := Start(job, f);
      if start.Some? then start.value
      else if f.item == Item(Public) then Cancel(job)
      else if f.item.Absent? && (!f.buildable || (job.kind == AddPrimaryKey && !f.fits)) then Cancel(job)
      else if f.item.Absent? || f.item.state == StateNone then WriteChecked(job.(schemaState := DeleteOnly), f)
      else if f.item.state == DeleteOnly then WriteUnlessNull(job.(schemaState := WriteOnly), f)
      else if f.item.state == WriteOnly then WriteUnlessNull(job.(schemaState := WriteReorg), f)
      else if f.item.state == WriteReorg then Reorganize(job, f)
      else Err(job)
  }

  function Reorganize(job: Job, f: Facts): Ran {
    if !f.reorgInfo then Err(job)
    else if !job.snapshot then Ok(job.(snapshot := true))
    else match f.backfill
      case TimedOut => Ok(job)
      case GivenUp => ConvertAddIndex(job, f)
      case BackfillFails => Err(job)
      case Finished =>
        if (job.kind == AddPrimaryKey && !f.nullColumns) || !f.written then Err(job) else Finish(job, Done, Public)
  }

  /** The check of a rename; an index renamed to its own name leaves the handler without a table. */
  function CheckRenameIndex(job: Job, f: Facts): Option<Ran> {
    var start := Start(job, f);
    if start.Some? then start
    else if f.sameName then Some(Panicked)
    else if f.item.Absent? || !f.nameFree then Some(Cancel(job))
    else None
  }

  function OnRenameIndex(job: Job, f: Facts): Ran {
    var check := CheckRenameIndex(job, f);
    if check.Some? then check.value
    else if !f.written then Cancel(job)
    else Finish(job, Done, Public)
  }

  // ---------- locks ----------

  /** One table is unlocked; one that is gone is passed over. */
  function UnlockOne(job: Job, f: Facts): Ran {
    if f.table == Missing then Ok(job)
    else if f.table == Unreadable then Err(job)
    else Write(job, f)
  }

  function OnLockTables(job: Job, f: Facts): Ran {
    if !f.decoded then Cancel(job)
    else if f.unlocking then UnlockOne(job, f)
    else if f.firstCheck == Unreadable then Err(job)
    else if f.firstCheck != Found then Cancel(job)
    else if !f.toLock then Ok(job)
    else if f.table == Unreadable then Err(job)
    else if f.table != Found || f.lock == LockRefused || f.lock == BadLockState then Cancel(job)
    else if f.lock == ToPreLock then Write(job, f)
    else if !f.written then Err(job)
    else if f.last then Finish(job, Done, Public)
    else Ok(job)
  }

  function OnUnlockTables(job: Job, f: Facts): Ran {
    if !f.decoded then Cancel(job)
    else
      var r := if f.unlocking then UnlockOne(job, f) else Ok(job);
      if r.Ran? && !r.failed && (!f.unlocking || f.last) then Finish(job, Done, StateNone) else r
  }

  // ---------- cancelled jobs ----------

  function RollingbackAddColumn(job: Job, f: Facts): Ran {
    var job := job.(state := Rollingback);
    var check := CheckAddColumn(job, f);
    if check.Some? then check.value
    else if f.item.Absent? then Cancel(job)
    else Err(job.(schemaState := DeleteOnly))
  }

  function RollingbackDropColumn(job: Job, f: Facts): Ran {
    var check := CheckDropColumn(job, f);
    if check.Some? then check.value
    else if f.item == Item(Public) then Ran(job.(state := RollbackDone, schemaState := Public), true)
    else Ok(job.(state := Running))
  }

  function RollingbackDropIndex(job: Job, f: Facts): Ran {
    var check := CheckDropIndex(job, f);
    if check.Some? then check.value
    else if f.item == Item(DeleteOnly) || f.item == Item(DeleteReorg) || f.item == Item(StateNone) then
      Ok(job.(state := Running))
    else if f.item == Item(Public) || f.item == Item(WriteOnly) then
      Err(job.(state := RollbackDone, schemaState := Public))
    else Err(job)
  }

  function RollingbackAddIndex(job: Job, f: Facts): Ran {
    if job.schemaState == WriteReorg && job.snapshot then OnCreateIndex(job, f)
    else
      var start := Start(job, f);
      if start.Some? then start.value
      else if f.item.Absent? then Cancel(job)
      else ConvertAddIndex(job, f)
  }

  function RollingbackRenameIndex(job: Job, f: Facts): Ran {
    var check := CheckRenameIndex(job, f);
    if check.Some? then check.value
    else if f.item == Item(Public) then Cancel(job)
    else Ok(job.(state := Running))
  }

  function CancelOnlyNotHandledJob(job: Job): Ran {
    if job.schemaState == StateNone then Cancel(job) else Ok(job.(state := Running))
  }

  function ConvertJob2RollbackJob(job: Job, f: Facts): Ran {
    match job.kind
    case AddColumn => RollingbackAddColumn(job, f)
    case AddIndex => RollingbackAddIndex(job, f)
    case AddPrimaryKey => RollingbackAddIndex(job, f)
    case DropColumn => RollingbackDropColumn(job, f)
    case DropIndex => RollingbackDropIndex(job, f)
    case DropPrimaryKey => RollingbackDropIndex(job, f)
    case RenameIndex => RollingbackRenameIndex(job, f)
    case ModifyColumn => CancelOnlyNotHandledJob(job)
    case SetDefaultValue => Cancel(job)
    case LockTables => Cancel(job)
    case UnlockTables => Cancel(job)
  }

  // ---------- one run ----------

  function RunHandler(job: Job, f: Facts): Ran {
    match job.kind
    case AddColumn => OnAddColumn(job, f)
    case DropColumn => OnDropColumn(job, f)
    case ModifyColumn => OnModifyColumn(job, f)
    case SetDefaultValue => OnSetDefaultValue(job, f)
    case AddIndex => OnCreateIndex(job, f)
    case AddPrimaryKey => OnCreateIndex(job, f)
    case DropIndex => OnDropIndex(job, f)
    case DropPrimaryKey => OnDropIndex(job, f)
    case RenameIndex => OnRenameIndex(job, f)
    case LockTables => OnLockTables(job, f)
    case UnlockTables => OnUnlockTables(job, f)
  }

  function RunJob(job: Job, f: Facts): Ran {
    if job.state == Cancelling then ConvertJob2RollbackJob(job, f)
    else RunHandler(if job.state == Rollingback then job else job.(state := Running), f)
  }

  predicate Rollbackable(job: Job) {
    match job.kind
    case DropIndex => job.schemaState != DeleteOnly && job.schemaState != DeleteReorg
    case DropPrimaryKey => job.schemaState != DeleteOnly && job.schemaState != DeleteReorg
    case DropColumn => job.schemaState == StateNone
    case ModifyColumn => job.schemaState == StateNone
    case _ => true
  }

  // ---------- what the handlers never do ----------

  predicate Active(job: Job) {
    job.state in {Queued, Running, Cancelling, Rollingback}
  }

  /**
    No handler gives a job up, or turns it back, without an error; only a job that is on its way back
    already goes on so. No handler finishes a job with an error, and none changes its kind.
   */
  ghost predicate Disciplined(job: Job, r: Ran) {
    r.Ran? ==>
      && r.job.kind == job.kind && r.job.state !in {Synced, Queued}
      && (r.failed ==> r.job.state != Done)
      && (!r.failed ==> r.job.state != Cancelled)
      && (!r.failed && r.job.state in {Rollingback, RollbackDone} ==> job.state == Rollingback)
  }

  lemma DropColumnDisciplined(job: Job, f: Facts)
    requires job.state in {Running, Rollingback}
    ensures Disciplined(job, OnDropColumn(job, f))
  {
  }

  lemma AddColumnDisciplined(job: Job, f: Facts)
    requires job.state in {Running, Rollingback}
    ensures Disciplined(job, OnAddColumn(job, f))
  {
    if job.state == Rollingback { DropColumnDisciplined(job, f); }
  }

  lemma ModifyColumnDisciplined(job: Job, f: Facts)
    requires job.state in {Running, Rollingback}
    ensures Disciplined(job, OnModifyColumn(job, f))
  {
  }

  lemma SetDefaultDisciplined(job: Job, f: Facts)
    requires job.state in {Running, Rollingback}
    ensures Disciplined(job, OnSetDefaultValue(job, f))
  {
  }

  lemma DropIndexDisciplined(job: Job, f: Facts)
    requires job.state in {Running, Rollingback}
    ensures Disciplined(job, OnDropIndex(job, f))
  {
  }

  lemma ReorganizeDisciplined(job: Job, f: Facts)
    requires job.state in {Running, Cancelling}
    ensures Disciplined(job, Reorganize(job, f))
  {
  }

  lemma NullCheckDisciplined(job: Job, f: Facts)
    requires job.state in {Running, Cancelling}
    ensures Disciplined(job, WriteUnlessNull(job, f))
  {
  }

  lemma CreateIndexDisciplined(job: Job, f: Facts)
    requires job.state in {Running, Rollingback, Cancelling}
    ensures Disciplined(job, OnCreateIndex(job, f))
  {
    if job.state == Rollingback {
      DropIndexDisciplined(job, f);
    } else {
      ReorganizeDisciplined(job, f);
      NullCheckDisciplined(job.(schemaState := WriteOnly), f);
      NullCheckDisciplined(job.(schemaState := WriteReorg), f);
    }
  }

  lemma RenameIndexDisciplined(job: Job, f: Facts)
    requires job.state in {Running, Rollingback}
    ensures Disciplined(job, OnRenameIndex(job, f))
  {
  }

  lemma LockTablesDisciplined(job: Job, f: Facts)
    requires job.state in {Running, Rollingback}
    ensures Disciplined(job, OnLockTables(job, f))
  {
  }

  lemma UnlockTablesDisciplined(job: Job, f: Facts)
    requires job.state in {Running, Rollingback}
    ensures Disciplined(job, OnUnlockTables(job, f))
  {
  }

  lemma CancelAddColumnDisciplined(job: Job, f: Facts)
    requires job.state == Cancelling
    ensures Disciplined(job, RollingbackAddColumn(job, f))
  {
  }

  lemma CancelDropColumnDisciplined(job: Job, f: Facts)
    requires job.state == Cancelling
    ensures Disciplined(job, RollingbackDropColumn(job, f))
  {
  }

  lemma CancelDropIndexDisciplined(job: Job, f: Facts)
    requires job.state == Cancelling
    ensures Disciplined(job, RollingbackDropIndex(job, f))
  {
  }

  lemma CancelAddIndexDisciplined(job: Job, f: Facts)
    requires job.state == Cancelling
    ensures Disciplined(job, RollingbackAddIndex(job, f))
  {
    CreateIndexDisciplined(job, f);
  }

  lemma CancelRenameIndexDisciplined(job: Job, f: Facts)
    requires job.state == Cancelling
    ensures Disciplined(job, RollingbackRenameIndex(job, f))
  {
  }

  lemma HandlersDisciplined(job: Job, f: Facts)
    requires job.state in {Running, Rollingback}
    ensures Disciplined(job, RunHandler(job, f))
  {
    match job.kind
    case AddColumn => AddColumnDisciplined(job, f);
    case DropColumn => DropColumnDisciplined(job, f);
    case ModifyColumn => ModifyColumnDisciplined(job, f);
    case SetDefaultValue => SetDefaultDisciplined(job, f);
    case AddIndex => CreateIndexDisciplined(job, f);
    case AddPrimaryKey => CreateIndexDisciplined(job, f);
    case DropIndex => DropIndexDisciplined(job, f);
    case DropPrimaryKey => DropIndexDisciplined(job, f);
    case RenameIndex => RenameIndexDisciplined(job, f);
    case LockTables => LockTablesDisciplined(job, f);
    case UnlockTables => UnlockTablesDisciplined(job, f);
  }

  lemma CancelsDisciplined(job: Job, f: Facts)
    requires job.state == Cancelling
    ensures Disciplined(job, ConvertJob2RollbackJob(job, f))
  {
    match job.kind
    case AddColumn => CancelAddColumnDisciplined(job, f);
    case DropColumn => CancelDropColumnDisciplined(job, f);
    case AddIndex => CancelAddIndexDisciplined(job, f);
    case AddPrimaryKey => CancelAddIndexDisciplined(job, f);
    case DropIndex => CancelDropIndexDisciplined(job, f);
    case DropPrimaryKey => CancelDropIndexDisciplined(job, f);
    case RenameIndex => CancelRenameIndexDisciplined(job, f);
    case ModifyColumn =>
    case SetDefaultValue =>
    case LockTables =>
    case UnlockTables =>
  }

  /** Every run of every job keeps the rule, whatever it finds in the store. */
  lemma RunDisciplined(job: Job, f: Facts)
    requires Active(job)
    ensures Disciplined(job, RunJob(job, f))
  {
    if job.state == Cancelling {
      CancelsDisciplined(job, f);
    } else {
      HandlersDisciplined(if job.state == Rollingback then job else job.(state := Running), f);
    }
  }

  // ---------- what the facts come to ----------

  /** The job as the handler gets it. */
  function Begun(job: Job): Job {
    if job.state == Queued then job.(state := Running) else job
  }

  /** The cancel of such a job looks at its table. */
  predicate Looks(job: Job) {
    job.kind in {AddColumn, DropColumn, AddIndex, AddPrimaryKey, DropIndex, DropPrimaryKey, RenameIndex}
  }

  /** What can be read only later is tried again; a cancelled add column job is on its way back by then. */
  lemma UnreadableRun(job: Job, f: Facts)
    requires Active(job) && job.kind !in {LockTables, UnlockTables} && f.decoded && f.table == Unreadable
    requires job.state == Cancelling ==> Looks(job)
    ensures RunJob(job, f) == Err(if job.kind == AddColumn && job.state == Cancelling then job.(state := Rollingback) else Begun(job))
  {
  }

  /** A table that is gone ends a job on it, and so do arguments that cannot be decoded. */
  lemma HopelessRun(job: Job, f: Facts)
    requires Active(job) && f.database && (job.state == Cancelling ==> Looks(job))
    requires !f.decoded || (job.kind !in {LockTables, UnlockTables} && f.table in {Missing, NotPublic})
    requires f.table != Unreadable
    ensures RunJob(job, f) == Cancel(Begun(job))
  {
  }

  /** Everything a handler looks at before it comes to the column or index itself is in order. */
  predicate Readable(f: Facts) {
    f.decoded && f.database && f.table == Found
  }

  /** A modified column is public, its new name is free, and it holds no null that it must not hold. */
  predicate Modifiable(f: Facts) {
    f.item == Item(Public) && f.nameFree && (f.nulls == NotNeeded || f.nulls == NoNull(true))
  }

  /**
    A modify column job is done exactly if the column can be modified and the new table is placed, valid and
    written; it turns back if that fails or a null is found, and waits one run for nulls to be prevented.
   */
  lemma ModifyOutcome(job: Job, f: Facts)
    requires job.kind == ModifyColumn && job.state == Running && Readable(f)
    ensures var r := RunJob(job, f);
            && r.Ran? && (r.job.state == Done <==> Modifiable(f) && f.placed && f.valid && f.written)
            && (r.job.state == Rollingback <==>
                  f.item == Item(Public) && f.nameFree && (f.nulls == HasNull || (Modifiable(f) && !(f.placed && f.valid && f.written))))
            && (r.job.state == Cancelled <==>
                  f.item != Item(Public) || !f.nameFree || (f.nulls == NoNull(false) && !f.valid))
            && (r.job.state == Done ==> r.job.schemaState == Public)
            && (!r.failed <==> r.job.state == Done || (r.job.state == Running && f.nulls == NoNull(false) && f.written))
  {
  }

  /** Rolled back, a modify column job is done with it once the flags that it has set are reset. */
  lemma ModifyRollbackOutcome(job: Job, f: Facts)
    requires job.kind == ModifyColumn && job.state == Rollingback && Readable(f)
    ensures var r := RunJob(job, f);
            && (r.Panicked? <==> f.resetFlags && f.item.Absent?)
            && (r.Ran? ==> r.failed == (f.resetFlags && !f.written) && r.job.state == if r.failed then Rollingback else RollbackDone)
            && (r.Ran? && !r.failed ==> r.job.schemaState == StateNone)
  {
  }

  /** These two are over in one run: done, or given up. */
  lemma OneRunOutcome(job: Job, f: Facts)
    requires job.kind in {SetDefaultValue, RenameIndex} && job.state == Running && Readable(f)
    ensures var r := RunJob(job, f);
            var good := if job.kind == SetDefaultValue then f.item == Item(Public) else f.item.Item? && f.nameFree;
            if job.kind == RenameIndex && f.sameName then r == Panicked
            else r == if good && f.written then Finish(job, Done, Public) else Cancel(job)
  {
  }

  /** Nothing but the table of the run stands in the way of a lock. */
  predicate Lockable(f: Facts) {
    !f.unlocking && f.firstCheck == Found && f.toLock && f.table == Found && f.lock in {ToPreLock, ToPublic}
  }

  /** A table to unlock, or to lock, is there but cannot be read or written now. */
  predicate Trouble(f: Facts) {
    if f.unlocking then f.table == Unreadable || (f.table != Missing && !f.written)
    else f.firstCheck == Unreadable || (f.firstCheck == Found && f.toLock && f.table == Unreadable) || (Lockable(f) && !f.written)
  }

  /** A lock job is done when the last table is made public, given up when one is refused, and tries again in trouble. */
  lemma LockOutcome(job: Job, f: Facts)
    requires job.kind == LockTables && job.state == Running && f.decoded
    ensures var r := RunJob(job, f);
            && r.Ran? && (r.job.state == Done <==> Lockable(f) && f.lock == ToPublic && f.last && f.written)
            && (r.job.state == Done ==> r.job.schemaState == Public)
            && (r.job.state == Cancelled <==>
                  !f.unlocking && !Trouble(f) && (f.firstCheck != Found || (f.toLock && !Lockable(f))))
            && (r.failed <==> r.job.state == Cancelled || Trouble(f))
            && (r.job.state in {Running, Done, Cancelled})
  {
  }

  /** An unlock job is done with its last table, or if there is none left. */
  lemma UnlockOutcome(job: Job, f: Facts)
    requires job.kind == UnlockTables && job.state == Running && f.decoded
    ensures var r := RunJob(job, f);
            && r.Ran? && (r.job.state == Done <==> !f.unlocking || (f.last && !Trouble(f)))
            && (r.job.state == Done ==> r.job.schemaState == StateNone)
            && (r.failed <==> f.unlocking && Trouble(f)) && r.job.state in {Running, Done}
  {
  }

  /** A cancel before the first run ends these; a rename also as long as the old name is there. */
  lemma CancelOutcome(job: Job, f: Facts)
    requires job.state == Cancelling && Readable(f)
    ensures job.kind in {SetDefaultValue, LockTables, UnlockTables} ==> RunJob(job, f) == Cancel(job)
    ensures job.kind == ModifyColumn ==>
              RunJob(job, f) == if job.schemaState == StateNone then Cancel(job) else Ok(job.(state := Running))
    ensures job.kind == RenameIndex && !f.sameName ==>
              RunJob(job, f) == if f.nameFree && f.item.Item? && f.item != Item(Public) then Ok(job.(state := Running)) else Cancel(job)
  {
  }

  /** An index that is in the table but in no state yet: an add job begins with it, and a drop job that is cancelled goes on. */
  lemma NoStateOutcome(job: Job, f: Facts)
    requires Readable(f) && f.item == Item(StateNone) && f.droppable
    ensures job.kind in {AddIndex, AddPrimaryKey} && job.state == Running ==>
              RunJob(job, f) == if f.valid then Write(job.(schemaState := DeleteOnly), f) else Cancel(job.(schemaState := DeleteOnly))
    ensures job.kind in {DropIndex, DropPrimaryKey} && job.state == Cancelling ==> RunJob(job, f) == Ok(job.(state := Running))
  {
  }

  /** A drop column job computes the default value of the column before it hides it, and fails without one. */
  lemma DropColumnNeedsDefault(job: Job, f: Facts)
    requires job.kind == DropColumn && job.state == Running && Readable(f) && f.item == Item(Public) && f.droppable
    ensures var r := RunJob(job, f);
            && r.Ran? && r.job.schemaState == WriteOnly && (!r.failed <==> f.defaultValue && f.valid && f.written)
            && r.job.state == if f.defaultValue && !f.valid then Cancelled else Running
  {
  }
}
