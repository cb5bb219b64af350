/**
  The life of one job from the queue to the history: runs of the owner, errors, panics, cancels.
  The client that waits for the job reads only the history, and stops with a panic when it finds
  a job there that is neither synced nor carries an error.
 */
module JobLifecycle {
  import opened JobHandlers
  import opened SchemaStates

  /** What runs a job once, given what it finds in the store. */
  type Handler = (Job, Facts) -> Ran

  datatype Entry = Entry(job: Job, error: bool, errorCount: nat)

  datatype Place = InQueue(entry: Entry) | InHistory(entry: Entry)

  datatype Event =
    | Run(facts: Facts, tooLarge: bool)   // one transaction of the owner; the job may have grown too large to be stored
    | Panic                               // the same, but the handler panics
    | Abort                               // the transaction does not commit
    | Cancel

  const ERROR_COUNT_LIMIT: nat := 512

  // ---------- one transaction ----------

  function WithState(x: Entry, st: JobState): Entry {
    x.(job := x.job.(state := st))
  }

  /** Errors are stored with the job; too many of them cancel a job that can be rolled back. */
  function RunDDLJob(H: Handler, x: Entry, f: Facts): Entry {
    var r := H(x.job, f);
    if r.Panicked? then WithState(x, Cancelling)
    else
      var y := Entry(r.job, x.error || r.failed, x.errorCount + if r.failed then 1 else 0);
      if x.job.state != Cancelling && r.failed && y.errorCount > ERROR_COUNT_LIMIT && y.job.state == Running && Rollbackable(y.job)
      then WithState(y, Cancelling)
      else y
  }

  function HandleDDLJob(H: Handler, x: Entry, e: Event): Place
    requires e.Run? || e.Panic?
  {
    if x.job.state == Done then InHistory(WithState(x, Synced))
    else if x.job.state == RollbackDone then InHistory(x)
    else
      var y := if e.Panic? then WithState(x, Cancelling) else RunDDLJob(H, x, e.facts);
      if y.job.state == Cancelled then InHistory(y)
      else if e.Run? && e.tooLarge then InHistory(WithState(y, Cancelled).(error := true))
      else InQueue(y)
  }

  function CancelJob(x: Entry): Entry {
    if x.job.state in {Queued, Running, Cancelling} && Rollbackable(x.job) then WithState(x, Cancelling) else x
  }

  function Step(H: Handler, p: Place, e: Event): Place {
    if p.InHistory? then p
    else match e
      case Run(_, _) => HandleDDLJob(H, p.entry, e)
      case Panic => HandleDDLJob(H, p.entry, e)
      case Abort => p
      case Cancel => InQueue(CancelJob(p.entry))
  }

  function After(H: Handler, p: Place, es: seq<Event>): Place
    decreases |es|
  {
    if es == [] then p else After(H, Step(H, p, es[0]), es[1..])
  }

  function NewJob(kind: Kind): Place {
    InQueue(Entry(Job(kind, Queued, StateNone, false), false, 0))
  }

  /** doDDLJob on a job it finds in the history: success, the stored error, or a panic. */
  datatype Answer = Success | Failure | ClientPanics

  function DoDDLJob(x: Entry): Answer {
    if x.job.state == Synced then Success else if x.error then Failure else ClientPanics
  }

  // ---------- every handler ----------

  /** The run gives a job up that has no error, and returns none. */
  ghost predicate Silent(H: Handler, p: Place, f: Facts) {
    && p.InQueue? && p.entry.job.state !in {Done, RollbackDone} && !p.entry.error
    && H(p.entry.job, f).Ran? && !H(p.entry.job, f).failed && H(p.entry.job, f).job.state in {Cancelled, RollbackDone}
  }

  ghost predicate Panics(H: Handler, p: Place, es: seq<Event>) {
    After(H, p, es).InHistory? && DoDDLJob(After(H, p, es).entry).ClientPanics?
  }

  ghost predicate SilentAfter(H: Handler, p: Place, es: seq<Event>, f: Facts) {
    Silent(H, After(H, p, es), f)
  }

  lemma AfterFirst(H: Handler, p: Place, e: Event, es: seq<Event>)
    ensures After(H, p, [e] + es) == After(H, Step(H, p, e), es)
  {
    assert ([e] + es)[1..] == es;
  }

  lemma {:induction false} AfterLast(H: Handler, p: Place, es: seq<Event>, e: Event)
    ensures After(H, p, es + [e]) == Step(H, After(H, p, es), e)
    decreases |es|
  {
    if es == [] {
      assert es + [e] == [e] && [e][1..] == [];
    } else {
      AfterLast(H, Step(H, p, es[0]), es[1..], e);
      assert (es + [e])[1..] == es[1..] + [e];
    }
  }

  /** A queue entry that would reach the history unexplained. */
  predicate Unexplained(p: Place) {
    !p.entry.error && (p.entry.job.state == RollbackDone || (p.InHistory? && p.entry.job.state != Synced))
  }

  lemma UnexplainedStep(H: Handler, p: Place, e: Event)
    requires !Unexplained(p) && Unexplained(Step(H, p, e))
    ensures e.Run? && Silent(H, p, e.facts)
  {
  }

  lemma {:induction false} PanicNeedsSilence(H: Handler, p: Place, es: seq<Event>) returns (before: seq<Event>, f: Facts)
    requires !Unexplained(p) && Panics(H, p, es)
    ensures SilentAfter(H, p, before, f)
    decreases |es|
  {
    var q := Step(H, p, es[0]);
    if Unexplained(q) {
      UnexplainedStep(H, p, es[0]);
      before, f := [], es[0].facts;
    } else {
      before, f := PanicNeedsSilence(H, q, es[1..]);
      AfterFirst(H, p, es[0], before);
      before := [es[0]] + before;
    }
  }

  lemma SilencePanics(H: Handler, p: Place, before: seq<Event>, f: Facts) returns (es: seq<Event>)
    requires SilentAfter(H, p, before, f)
    ensures Panics(H, p, es)
  {
    es := before + [Run(f, false)];
    AfterLast(H, p, before, Run(f, false));
    if After(H, p, es).InQueue? {
      AfterLast(H, p, es, Run(f, false));
      es := es + [Run(f, false)];
    }
  }

  /**
    For every way to run jobs: some run of the job makes its client panic if and only if some run of it
    gives the job up silently.
   */
  lemma PanicMeansSilence(H: Handler, kind: Kind)
    ensures (exists es :: Panics(H, NewJob(kind), es)) <==> (exists es, f :: SilentAfter(H, NewJob(kind), es, f))
  {
    if es :| Panics(H, NewJob(kind), es) {
      var before, f := PanicNeedsSilence(H, NewJob(kind), es);
    }
    if before, f :| SilentAfter(H, NewJob(kind), before, f) {
      var es := SilencePanics(H, NewJob(kind), before, f);
    }
  }

  // ---------- the handlers of column, index and lock jobs ----------

  function Handlers(): Handler {
    (job: Job, f: Facts) => RunJob(job, f)
  }

  /** A job on its way back, or given up, carries its error. */
  predicate Inv(p: Place) {
    && (p.entry.job.state in {Rollingback, RollbackDone, Cancelled} ==> p.entry.error)
    && (p.InQueue? ==> p.entry.job.state !in {Cancelled, Synced})
    && (p.InHistory? ==> p.entry.job.state in {Synced, RollbackDone, Cancelled})
  }

  lemma StepKeepsInv(p: Place, e: Event)
    requires Inv(p)
    ensures Inv(Step(Handlers(), p, e))
  {
    if p.InQueue? && e.Run? && Active(p.entry.job) {
      RunDisciplined(p.entry.job, e.facts);
      var r := RunJob(p.entry.job, e.facts);
      assert Handlers()(p.entry.job, e.facts) == r;
    }
  }

  lemma {:induction false} RunKeepsInv(p: Place, es: seq<Event>)
    requires Inv(p)
    ensures Inv(After(Handlers(), p, es))
    decreases |es|
  {
    if es == [] {
    } else {
      StepKeepsInv(p, es[0]);
      RunKeepsInv(Step(Handlers(), p, es[0]), es[1..]);
    }
  }

  /** No run of any of these jobs brings a job into the history that makes its client panic. */
  lemma HistoryIsExplained(kind: Kind, es: seq<Event>)
    ensures !Panics(Handlers(), NewJob(kind), es)
    ensures var p := After(Handlers(), NewJob(kind), es);
            p.InHistory? ==> p.entry.job.state == Synced || (p.entry.error && p.entry.job.state in {RollbackDone, Cancelled})
  {
    RunKeepsInv(NewJob(kind), es);
  }

  /** The handler finishes the job in this event, without an error. */
  predicate Finishes(p: Place, e: Event) {
    && p.InQueue? && e.Run? && Active(p.entry.job)
    && var r := RunJob(p.entry.job, e.facts); r.Ran? && !r.failed && r.job.state == Done
  }

  /** Success is told only after a run that finished the job without an error. */
  lemma {:induction false} SuccessWasEarned(p: Place, es: seq<Event>) returns (before: seq<Event>, e: Event)
    requires Inv(p) && p.entry.job.state !in {Done, Synced} && After(Handlers(), p, es).entry.job.state == Synced
    ensures before + [e] <= es && Finishes(After(Handlers(), p, before), e)
    decreases |es|
  {
    var q := Step(Handlers(), p, es[0]);
    if q.entry.job.state == Done {
      before, e := [], es[0];
      RunDisciplined(p.entry.job, e.facts);
    } else {
      StepKeepsInv(p, es[0]);
      before, e := SuccessWasEarned(q, es[1..]);
      AfterFirst(Handlers(), p, es[0], before);
      before := [es[0]] + before;
    }
  }

  // ---------- jobs that nothing stands in the way of ----------

  /** What the table holds for a job: a column or index to add is in the state that the job has brought it to, one to drop starts public. */
  function Smooth(job: Job): Facts {
    var adds := job.kind in {AddColumn, AddIndex, AddPrimaryKey};
    Facts(true, Found, true,
          if job.schemaState == StateNone then if adds then Absent else Item(Public) else Item(job.schemaState),
          true, true, true, true, false, true, false, NotNeeded, true, true, true, Finished, false, true, Found, ToPublic, true, true, true)
  }

  function SmoothRuns(p: Place, n: nat): Place
    decreases n
  {
    if n == 0 then p else SmoothRuns(Step(Handlers(), p, Run(Smooth(p.entry.job), false)), n - 1)
  }

  ghost predicate Succeeds(job: Job, n: nat) {
    var p := SmoothRuns(InQueue(Entry(job, false, 0)), n); p.InHistory? && DoDDLJob(p.entry) == Success && !p.entry.error
  }

  /** The states that a job passes through if all goes well, and the runs that are left. */
  function RunsLeft(job: Job): nat {
    if job.state !in {Queued, Running} then 0
    else
      var st := job.schemaState;
      match job.kind
      case AddColumn => if st == StateNone then 4 else if st == DeleteOnly then 3 else if st == WriteOnly then 2 else if st == WriteReorg then 1 else 0
      case AddIndex => IndexRunsLeft(job)
      case AddPrimaryKey => IndexRunsLeft(job)
      case DropColumn => DropRunsLeft(st)
      case DropIndex => DropRunsLeft(st)
      case DropPrimaryKey => DropRunsLeft(st)
      case _ => if st == StateNone then 1 else 0
  }

  function IndexRunsLeft(job: Job): nat {
    var st := job.schemaState;
    if st == StateNone then 5 else if st == DeleteOnly then 4 else if st == WriteOnly then 3
    else if st == WriteReorg then if job.snapshot then 1 else 2 else 0
  }

  function DropRunsLeft(st: SchemaState): nat {
    if st == StateNone then 4 else if st == WriteOnly then 3 else if st == DeleteOnly then 2 else if st == DeleteReorg then 1 else 0
  }

  ghost predicate Moves(job: Job, r: Ran) {
    r.Ran? && !r.failed && if RunsLeft(job) == 1 then r.job.state == Done else r.job.state == Running && RunsLeft(r.job) == RunsLeft(job) - 1
  }

  lemma SmoothAddColumn(job: Job)
    requires job.kind == AddColumn && RunsLeft(job) > 0
    ensures Moves(job, RunJob(job, Smooth(job)))
  {
  }

  lemma SmoothAddIndex(job: Job)
    requires job.kind in {AddIndex, AddPrimaryKey} && RunsLeft(job) > 0
    ensures Moves(job, RunJob(job, Smooth(job)))
  {
  }

  lemma SmoothDrop(job: Job)
    requires job.kind in {DropColumn, DropIndex, DropPrimaryKey} && RunsLeft(job) > 0
    ensures Moves(job, RunJob(job, Smooth(job)))
  {
  }

  lemma SmoothOther(job: Job)
    requires job.kind in {ModifyColumn, SetDefaultValue, RenameIndex, LockTables, UnlockTables} && RunsLeft(job) > 0
    ensures Moves(job, RunJob(job, Smooth(job)))
  {
  }

  lemma SmoothMove(job: Job)
    requires RunsLeft(job) > 0
    ensures Moves(job, RunJob(job, Smooth(job)))
  {
    if job.kind == AddColumn {
      SmoothAddColumn(job);
    } else if job.kind in {AddIndex, AddPrimaryKey} {
      SmoothAddIndex(job);
    } else if job.kind in {DropColumn, DropIndex, DropPrimaryKey} {
      SmoothDrop(job);
    } else {
      SmoothOther(job);
    }
  }

  lemma {:induction false} SmoothlyOn(job: Job)
    requires RunsLeft(job) > 0 || job.state == Done
    ensures Succeeds(job, RunsLeft(job) + 1)
    decreases RunsLeft(job)
  {
    var p := InQueue(Entry(job, false, 0));
    if job.state == Done {
      assert SmoothRuns(p, 1) == Step(Handlers(), p, Run(Smooth(job), false));
    } else {
      SmoothMove(job);
      var r := RunJob(job, Smooth(job));
      assert Handlers()(job, Smooth(job)) == r;
      SmoothlyOn(r.job);
      assert Step(Handlers(), p, Run(Smooth(job), false)) == InQueue(Entry(r.job, false, 0));
    }
  }

  /** Every job that meets no trouble ends in success, without an error, and as fast as its states allow. */
  lemma SmoothJobSucceeds(kind: Kind)
    ensures var p := NewJob(kind); p == InQueue(Entry(p.entry.job, false, 0)) && Succeeds(p.entry.job, RunsLeft(p.entry.job) + 1)
  {
    SmoothlyOn(NewJob(kind).entry.job);
  }

  // ---------- jobs that are cancelled ----------

  lemma CancelledRun(kind: Kind)
    ensures var job := Job(kind, Cancelling, StateNone, false);
            var r := RunJob(job, Smooth(job)); r.Ran? && r.failed && r.job.state in {Cancelled, RollbackDone}
  {
  }

  lemma TwoSmoothRuns(p: Place)
    ensures var q := Step(Handlers(), p, Run(Smooth(p.entry.job), false));
            SmoothRuns(p, 2) == Step(Handlers(), q, Run(Smooth(q.entry.job), false))
  {
    var q := Step(Handlers(), p, Run(Smooth(p.entry.job), false));
    assert SmoothRuns(p, 2) == SmoothRuns(q, 1);
  }

  /** Cancelled before its first run, every job ends, with an error and without success, in two runs at most. */
  lemma CancelledBeforeRun(kind: Kind)
    ensures var p := NewJob(kind);
            var q := SmoothRuns(Step(Handlers(), p, Cancel), 2);
            q.InHistory? && DoDDLJob(q.entry) == Failure
  {
    var p := Step(Handlers(), NewJob(kind), Cancel);
    var job := Job(kind, Cancelling, StateNone, false);
    assert p == InQueue(Entry(job, false, 0));
    CancelledRun(kind);
    assert Handlers()(job, Smooth(job)) == RunJob(job, Smooth(job));
    TwoSmoothRuns(p);
  }

  /** A job can be rolled back exactly if its cancel does not just let it go on. */
  lemma CancelTakesBack(job: Job)
    requires job.state == Running && RunsLeft(job) > 0
    ensures var r := RunJob(job.(state := Cancelling), Smooth(job)); r.Ran? && (Rollbackable(job) <==> r.job.state != Running)
  {
  }

  /** For every handler: a run that panics turns a job over to be cancelled. */
  lemma PanicCancels(H: Handler, p: Place, f: Facts)
    requires p.InQueue? && p.entry.job.state !in {Done, RollbackDone}
    ensures Step(H, p, Panic) == InQueue(WithState(p.entry, Cancelling))
    ensures H(p.entry.job, f).Panicked? ==> Step(H, p, Run(f, false)) == InQueue(WithState(p.entry, Cancelling))
  {
  }

  /** For every handler: errors cancel a job only if it is still on its way forth, can be rolled back, and there are too many. */
  lemma ErrorsCancelOnly(H: Handler, p: Place, f: Facts)
    requires p.InQueue? && p.entry.job.state in {Queued, Running, Rollingback}
    requires H(p.entry.job, f).Ran? && H(p.entry.job, f).job.state != Cancelling
    ensures var r, q := H(p.entry.job, f), Step(H, p, Run(f, false));
            q.entry.job.state == Cancelling <==>
              r.failed && r.job.state == Running && Rollbackable(r.job) && p.entry.errorCount >= ERROR_COUNT_LIMIT
  {
  }

  /** A cancel reaches a job in the queue exactly if it is not on its way back, not done, and can be rolled back. */
  lemma CancelReaches(p: Place)
    requires p.InQueue? && p.entry.job.state != Cancelling
    ensures var q := Step(Handlers(), p, Cancel);
            if p.entry.job.state in {Queued, Running} && Rollbackable(p.entry.job) then q == InQueue(WithState(p.entry, Cancelling)) else q == p
  {
  }

  // ---------- jobs that always fail ----------

  /** Every run on the facts of `fs` returns an error and goes on with the job. */
  ghost predicate Fails(H: Handler, p: Place, fs: seq<Facts>)
    decreases |fs|
  {
    fs == [] || (FailedRun(H(p.entry.job, fs[0])) && Fails(H, Step(H, p, Run(fs[0], false)), fs[1..]))
  }

  predicate FailedRun(r: Ran) {
    r.Ran? && r.failed && r.job.state == Running
  }

  function Runs(fs: seq<Facts>): seq<Event> {
    if fs == [] then [] else [Run(fs[0], false)] + Runs(fs[1..])
  }

  /**
    For every handler and whatever makes its runs fail: the job goes on up to the limit of errors; with
    the next one it is cancelled, if it can be rolled back then.
   */
  lemma {:induction false} FailuresCancel(H: Handler, p: Place, fs: seq<Facts>)
    requires p.InQueue? && p.entry.job.state in {Queued, Running} && fs != [] && Fails(H, p, fs)
    requires p.entry.errorCount + |fs| <= ERROR_COUNT_LIMIT + 1
    ensures var q := After(H, p, Runs(fs));
            && q.InQueue? && q.entry.error && q.entry.errorCount == p.entry.errorCount + |fs|
            && q.entry.job.state == if q.entry.errorCount > ERROR_COUNT_LIMIT && Rollbackable(q.entry.job) then Cancelling else Running
    decreases |fs|
  {
    var e := Run(fs[0], false);
    AfterFirst(H, p, e, Runs(fs[1..]));
    if |fs| == 1 {
      assert Runs(fs[1..]) == [];
    } else {
      FailuresCancel(H, Step(H, p, e), fs[1..]);
    }
  }

  /** The store cannot be read, so that every handler returns an error before it does anything. */
  function Unreadable(): Facts {
    Facts(false, Lookup.Unreadable, true, Absent, true, true, true, true, false, true, false, NotNeeded, true, true, true, TimedOut,
          true, true, Found, ToPreLock, false, true, true)
  }

  /** A store that cannot be read makes every run of these jobs fail. */
  lemma UnreadableFails(job: Job)
    requires job.state in {Queued, Running}
    ensures RunJob(job, Unreadable()) == Ran(job.(state := Running), true)
  {
  }

  function Times(n: nat): seq<Facts> {
    if n == 0 then [] else [Unreadable()] + Times(n - 1)
  }

  /** So there are runs of any length that fail. */
  lemma {:induction false} UnreadableFailsOn(p: Place, n: nat)
    requires p.InQueue? && p.entry.job.state in {Queued, Running} && p.entry.errorCount + n <= ERROR_COUNT_LIMIT + 1
    ensures Fails(Handlers(), p, Times(n))
    decreases n
  {
    if n == 0 {
    } else {
      UnreadableFails(p.entry.job);
      assert Handlers()(p.entry.job, Unreadable()) == RunJob(p.entry.job, Unreadable());
      assert Times(n)[1..] == Times(n - 1);
      if n > 1 {
        UnreadableFailsOn(Step(Handlers(), p, Run(Unreadable(), false)), n - 1);
      }
    }
  }
}
