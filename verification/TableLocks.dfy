/**
  LOCK TABLES and UNLOCK TABLES. A lock job first gives up the locks of its session, then takes the
  tables one by one, each in two runs of the owner: pre-lock, so that all servers see it, and public.
 */
module TableLocks {
  import opened Options
  import opened Sequences

  type Session = nat

  type TableID = nat

  datatype LockType = Read | ReadLocal | Write | WriteLocal

  datatype LockState = NoState | PreLock | Public

  datatype Lock = Unlocked | Locked(tp: LockType, sessions: seq<Session>, state: LockState)

  /** The tables that exist, each with its lock. */
  type Tables = map<TableID, Lock>

  datatype Request = Request(table: TableID, tp: LockType)

  /** An unlock job that cleans up takes the locks of all sessions. */
  datatype Kind = LockTables | UnlockTables(cleanup: bool)

  datatype Job = Job(kind: Kind, session: Session, unlock: seq<TableID>, lock: seq<Request>,
                     indexOfUnlock: nat, indexOfLock: nat, state: JobState)

  datatype JobState = Running | Done | Cancelled

  datatype State = State(tables: Tables, job: Job)

  // ---------- the functions on one lock ----------

  predicate IsLocked(l: Lock) {
    l.Locked? && l.sessions != []
  }

  predicate CheckTableLocked(l: Lock, tp: LockType, session: Session) {
    || !IsLocked(l)
    || l.state == PreLock
    || (l.tp == Read && tp == Read)
    || (session in l.sessions && (l.tp == tp || |l.sessions| == 1))
  }

  function LockTable(l: Lock, tp: LockType, session: Session): Option<Lock> {
    if !IsLocked(l) then Some(Locked(tp, [session], NoState))
    else if l.state == PreLock then Some(l)
    else if l.tp == Read && tp == Read then
      Some(if session in l.sessions then l else l.(sessions := l.sessions + [session]))
    else None
  }

  function Without(sessions: seq<Session>, session: Session): (r: seq<Session>)
    ensures forall s :: s in r <==> s in sessions && s != session
    ensures |r| <= |sessions| && (session in sessions ==> |r| < |sessions|)
  {
    if sessions == [] then []
    else
      assert forall s :: s in sessions <==> s == sessions[0] || s in sessions[1..];
      if sessions[0] == session then Without(sessions[1..], session) else [sessions[0]] + Without(sessions[1..], session)
  }

  function UnlockTable(l: Lock, session: Session, cleanup: bool): Lock {
    if !IsLocked(l) then l
    else if cleanup then Unlocked
    else if session !in l.sessions then l
    else if Without(l.sessions, session) == [] then Unlocked
    else l.(sessions := Without(l.sessions, session))
  }

  // ---------- one run ----------

  function Stop(s: State): State {
    s.(job := s.job.(state := Cancelled))
  }

  predicate FirstCheck(s: State) {
    forall i | 0 <= i < |s.job.lock| ::
      s.job.lock[i].table in s.tables && CheckTableLocked(s.tables[s.job.lock[i].table], s.job.lock[i].tp, s.job.session)
  }

  function RunUnlock(s: State): State
    requires s.job.indexOfUnlock < |s.job.unlock|
  {
    var x := s.job.unlock[s.job.indexOfUnlock];
    State(if x in s.tables then s.tables[x := UnlockTable(s.tables[x], s.job.session, s.job.kind == UnlockTables(true))] else s.tables,
          s.job.(indexOfUnlock := s.job.indexOfUnlock + 1))
  }

  function RunLock(s: State): State
    requires s.job.indexOfLock < |s.job.lock|
  {
    var r := s.job.lock[s.job.indexOfLock];
    if r.table !in s.tables then Stop(s)
    else
      var l := LockTable(s.tables[r.table], r.tp, s.job.session);
      if l.None? || l.value.Unlocked? then Stop(s)
      else if l.value.state == NoState then s.(tables := s.tables[r.table := l.value.(state := PreLock)])
      else
        var next := s.job.indexOfLock + 1;
        State(s.tables[r.table := l.value.(state := Public)],
              s.job.(indexOfLock := next, state := if next == |s.job.lock| then Done else Running))
  }

  function OnLockTables(s: State): State {
    if s.job.indexOfUnlock < |s.job.unlock| then RunUnlock(s)
    else if s.job.indexOfLock == 0 && !FirstCheck(s) then Stop(s)
    else if s.job.indexOfLock < |s.job.lock| then RunLock(s)
    else s
  }

  function OnUnlockTables(s: State): State {
    var r := if s.job.indexOfUnlock < |s.job.unlock| then RunUnlock(s) else s;
    if r.job.indexOfUnlock == |r.job.unlock| then r.(job := r.job.(state := Done)) else r
  }

  function RunJob(s: State): State {
    if s.job.kind.LockTables? then OnLockTables(s) else OnUnlockTables(s)
  }

  // ---------- what must hold ----------

  /** A lock that no job is working on: several sessions share it only for reading. */
  ghost predicate Settled(l: Lock) {
    l.Locked? ==> l.state == Public && l.sessions != [] && Distinct(l.sessions) && (|l.sessions| > 1 ==> l.tp == Read)
  }

  /** The table is pre-locked by the job that is about to make it public. */
  ghost predicate Own(job: Job, x: TableID, l: Lock) {
    && job.state == Running && job.indexOfUnlock == |job.unlock|
    && job.indexOfLock < |job.lock| && job.lock[job.indexOfLock].table == x
    && l == Locked(job.lock[job.indexOfLock].tp, [job.session], PreLock)
  }

  ghost predicate Sound(s: State) {
    forall x :: x in s.tables ==> Settled(s.tables[x]) || Own(s.job, x, s.tables[x])
  }

  ghost predicate Holds(tables: Tables, session: Session, r: Request) {
    r.table in tables && IsLocked(tables[r.table]) && tables[r.table].state == Public && tables[r.table].tp == r.tp
    && session in tables[r.table].sessions
  }

  ghost predicate Tidy(job: Job) {
    && (if job.kind.LockTables? then job.lock != [] else job.lock == [])
    && (forall i, j :: 0 <= i < j < |job.lock| ==> job.lock[i].table != job.lock[j].table)
    && job.indexOfUnlock <= |job.unlock| && job.indexOfLock <= |job.lock|
    && (job.indexOfLock > 0 ==> job.indexOfUnlock == |job.unlock|)
    && (job.state == Running && job.kind.LockTables? ==> job.indexOfLock < |job.lock|)
    && (job.state == Done ==> job.indexOfLock == |job.lock|)
  }

  /** Every table the job has taken so far is held by its session, as asked. */
  ghost predicate Taken(s: State) {
    forall i :: 0 <= i < s.job.indexOfLock <= |s.job.lock| ==> Holds(s.tables, s.job.session, s.job.lock[i])
  }

  /** The check that the job makes before it takes its first table is made in both runs for it. */
  ghost predicate Checked(s: State) {
    s.job.state == Running && s.job.indexOfLock == 0 && Pending(s) ==> FirstCheck(s)
  }

  predicate IsPreLocked(tables: Tables, x: TableID) {
    x in tables && tables[x].Locked? && tables[x].state == PreLock
  }

  /** The job has pre-locked a table and not yet made the lock public. */
  ghost predicate Pending(s: State) {
    exists x :: IsPreLocked(s.tables, x)
  }

  ghost predicate Inv(s: State) {
    Tidy(s.job) && Sound(s) && Checked(s) && (s.job.state != Cancelled ==> Taken(s))
  }

  lemma {:induction false} WithoutDistinct(sessions: seq<Session>, session: Session)
    requires Distinct(sessions)
    ensures Distinct(Without(sessions, session))
    ensures session in sessions ==> |Without(sessions, session)| == |sessions| - 1
    ensures session !in sessions ==> Without(sessions, session) == sessions
  {
    if sessions == [] {
    } else {
      var rest := sessions[1..];
      assert Distinct(rest) && sessions[0] !in rest;
      WithoutDistinct(rest, session);
      assert sessions == [sessions[0]] + rest;
    }
  }

  ghost predicate HeldBy(l: Lock, t: Session) {
    l.Locked? && t in l.sessions
  }

  /** A session has given up its lock, the others keep theirs; a cleanup takes the locks of all. */
  ghost predicate GivenUp(l: Lock, r: Lock, session: Session, cleanup: bool) {
    && Settled(r) && (cleanup ==> r.Unlocked?)
    && (!cleanup ==> forall t :: HeldBy(r, t) <==> HeldBy(l, t) && t != session)
    && (r.Locked? ==> l.Locked? && r.tp == l.tp)
  }

  lemma UnlockSettled(l: Lock, session: Session, cleanup: bool)
    requires Settled(l)
    ensures GivenUp(l, UnlockTable(l, session, cleanup), session, cleanup)
  {
    if l.Locked? {
      WithoutDistinct(l.sessions, session);
    }
  }

  /** The check before the first table finds out whether the table could be had after giving up the own lock on it. */
  lemma CheckIsRelock(l: Lock, tp: LockType, session: Session)
    requires Settled(l)
    ensures CheckTableLocked(l, tp, session) <==> LockTable(UnlockTable(l, session, false), tp, session).Some?
  {
    if l.Locked? {
      WithoutDistinct(l.sessions, session);
    }
  }

  lemma UnlockKeeps(s: State)
    requires Inv(s) && s.job.state == Running && s.job.indexOfUnlock < |s.job.unlock|
    ensures Inv(RunUnlock(s))
  {
    var x := s.job.unlock[s.job.indexOfUnlock];
    if x in s.tables {
      UnlockSettled(s.tables[x], s.job.session, s.job.kind == UnlockTables(true));
    }
  }

  lemma CheckStays(s: State)
    requires Tidy(s.job) && s.job.indexOfLock == 0 < |s.job.lock| && FirstCheck(s) && RunLock(s).job.indexOfLock == 0
    ensures FirstCheck(RunLock(s))
  {
    var s' := RunLock(s);
    forall i | 0 <= i < |s.job.lock|
      ensures s'.job.lock[i].table in s'.tables
      ensures CheckTableLocked(s'.tables[s'.job.lock[i].table], s'.job.lock[i].tp, s'.job.session)
    {
      assert i > 0 ==> s.job.lock[0].table != s.job.lock[i].table;
    }
  }

  lemma LockKeeps(s: State)
    requires Inv(s) && s.job.state == Running && s.job.indexOfUnlock == |s.job.unlock| && s.job.indexOfLock < |s.job.lock|
    requires s.job.indexOfLock == 0 ==> FirstCheck(s)
    ensures Inv(RunLock(s))
  {
    var i, r := s.job.indexOfLock, s.job.lock[s.job.indexOfLock];
    var s' := RunLock(s);
    forall j | 0 <= j < i ensures s.job.lock[j].table != r.table {
    }
    if r.table in s.tables && s'.job.state != Cancelled {
      if i == 0 && s'.job.indexOfLock == 0 { CheckStays(s); }
      var l := s.tables[r.table];
      if s'.job.indexOfLock == i {
        assert Own(s'.job, r.table, s'.tables[r.table]);
      } else {
        assert Settled(s'.tables[r.table]) && Holds(s'.tables, s.job.session, r);
      }
    }
  }

  /** A run keeps the locks sound, and what the job has taken. */
  lemma RunKeeps(s: State)
    requires Inv(s) && s.job.state == Running
    ensures Inv(RunJob(s))
  {
    if s.job.indexOfUnlock < |s.job.unlock| {
      UnlockKeeps(s);
    } else if s.job.kind.LockTables? {
      if s.job.indexOfLock == 0 && !FirstCheck(s) {
        CancelKeeps(s);
      } else {
        LockKeeps(s);
      }
    }
  }

  /** A lock becomes public only after all servers have seen it pre-locked. */
  lemma PublicAfterPreLock(s: State, x: TableID)
    requires Inv(s) && s.job.state == Running && x in s.tables && x in RunJob(s).tables
    requires RunJob(s).tables[x].Locked? && RunJob(s).tables[x].state == Public
    ensures s.tables[x].Locked? && (s.tables[x].state == Public || Own(s.job, x, s.tables[x]))
  {
    assert Settled(s.tables[x]) || Own(s.job, x, s.tables[x]);
  }

  // ---------- runs of many jobs ----------

  datatype Event = Submit(job: Job) | Run | Cancel

  /** A job as its session submits it: all counters zero. */
  ghost predicate IsNew(job: Job) {
    Tidy(job) && job.state == Running && job.indexOfUnlock == 0 && job.indexOfLock == 0
  }

  /** Lock and unlock jobs run one after the other. */
  ghost predicate Enabled(s: State, e: Event) {
    match e
    case Submit(job) => s.job.state != Running && IsNew(job)
    case Run => s.job.state == Running
    case Cancel => s.job.state == Running
  }

  function Step(s: State, e: Event): State {
    match e
    case Submit(job) => s.(job := job)
    case Run => RunJob(s)
    case Cancel => Stop(s)
  }

  ghost predicate Legal(s: State, es: seq<Event>)
    decreases |es|
  {
    es == [] || (Enabled(s, es[0]) && !(es[0].Cancel? && Pending(s)) && Legal(Step(s, es[0]), es[1..]))
  }

  function After(s: State, es: seq<Event>): State
    decreases |es|
  {
    if es == [] then s else After(Step(s, es[0]), es[1..])
  }

  /** A cancel keeps the locks sound if and only if no table is pre-locked. */
  lemma CancelKeeps(s: State)
    requires Inv(s) && s.job.state == Running
    ensures Inv(Stop(s)) <==> !Pending(s)
  {
    if Pending(s) {
      var x :| IsPreLocked(s.tables, x);
      assert !Settled(s.tables[x]) && !Own(Stop(s).job, x, s.tables[x]);
    } else {
      forall x | x in s.tables ensures Settled(s.tables[x]) {
        assert !IsPreLocked(s.tables, x);
      }
    }
  }

  lemma StepKeeps(s: State, e: Event)
    requires Inv(s) && Enabled(s, e)
    ensures Inv(Step(s, e)) <==> !(e.Cancel? && Pending(s))
  {
    match e
    case Submit(job) =>
      forall x | x in s.tables ensures Settled(s.tables[x]) {
      }
    case Run => RunKeeps(s);
    case Cancel => CancelKeeps(s);
  }

  lemma {:induction false} RunsKeepInv(s: State, es: seq<Event>)
    requires Inv(s) && Legal(s, es)
    ensures Inv(After(s, es))
    decreases |es|
  {
    if es == [] {
    } else {
      StepKeeps(s, es[0]);
      RunsKeepInv(Step(s, es[0]), es[1..]);
    }
  }

  /**
    In every run in which no job is cancelled over a pre-locked table: a finished lock job has all its
    tables, as asked, and a lock that is public belongs to one session unless it is a read lock.
   */
  lemma LocksAreSafe(s: State, es: seq<Event>)
    requires Inv(s) && Legal(s, es)
    ensures var r := After(s, es);
            && (r.job.state == Done && r.job.kind.LockTables? ==>
                  forall i :: 0 <= i < |r.job.lock| ==> Holds(r.tables, r.job.session, r.job.lock[i]))
            && (forall x, p, q :: x in r.tables && r.tables[x].Locked? && p in r.tables[x].sessions && q in r.tables[x].sessions && p != q ==>
                  r.tables[x].tp == Read)
  {
    RunsKeepInv(s, es);
  }

  /** As Legal, but a job may be cancelled at any time. */
  ghost predicate Possible(s: State, es: seq<Event>)
    decreases |es|
  {
    es == [] || (Enabled(s, es[0]) && Possible(Step(s, es[0]), es[1..]))
  }

  lemma Chain(s: State, e: Event, es: seq<Event>)
    requires Enabled(s, e) && Possible(Step(s, e), es)
    ensures Possible(s, [e] + es) && After(s, [e] + es) == After(Step(s, e), es)
  {
    assert ([e] + es)[1..] == es;
  }

  function LockOneTable(session: Session, r: Request): Job {
    Job(LockTables, session, [], [r], 0, 0, Running)
  }

  function CancelledOver(first: Session, r: Request, second: Session, r': Request): seq<Event> {
    [Submit(LockOneTable(first, r)), Run, Cancel, Submit(LockOneTable(second, r')), Run]
  }

  /** The first run over a free table pre-locks it; the first run over any pre-lock makes that public. */
  lemma FirstRun(s: State, x: TableID, session: Session, tp: LockType)
    requires s.job == LockOneTable(session, Request(x, tp)) && x in s.tables
    requires s.tables[x] == Unlocked || (IsPreLocked(s.tables, x) && s.tables[x].sessions != [])
    ensures s.tables[x] == Unlocked ==> RunJob(s) == s.(tables := s.tables[x := Locked(tp, [session], PreLock)])
    ensures s.tables[x].Locked? ==>
              RunJob(s).tables == s.tables[x := s.tables[x].(state := Public)] && RunJob(s).job.state == Done
  {
    assert FirstCheck(s);
  }

  /**
    From every sound state in which no job runs: a session asks for a free table, its job is cancelled
    over the pre-lock, and the next session takes that pre-lock for its own.  Its job finishes and
    the lock is public, but it still belongs to the first session.
   */
  lemma LeftoverIsTakenForOwn(s: State, x: TableID, first: Session, second: Session, tp: LockType, tp': LockType)
    requires Inv(s) && s.job.state != Running && first != second && x in s.tables && s.tables[x] == Unlocked
    ensures var es := CancelledOver(first, Request(x, tp), second, Request(x, tp'));
            && Possible(s, es) && After(s, es).job.state == Done
            && x in After(s, es).tables && After(s, es).tables[x] == Locked(tp, [first], Public)
            && !Holds(After(s, es).tables, second, Request(x, tp'))
  {
    var es := CancelledOver(first, Request(x, tp), second, Request(x, tp'));
    var s1 := Step(s, es[0]);
    FirstRun(s1, x, first, tp);
    var s2 := Step(s1, es[1]);
    var s3 := Step(s2, es[2]);
    var s4 := Step(s3, es[3]);
    FirstRun(s4, x, second, tp');
    Chain(s4, es[4], []);
    Chain(s3, es[3], [es[4]]);
    Chain(s2, es[2], [es[3], es[4]]);
    Chain(s1, es[1], es[2..]);
    Chain(s, es[0], es[1..]);
  }

  // ---------- all or nothing ----------

  /** The tables not yet taken can be: each is free, or shared for reading, or the one pre-locked by this job. */
  ghost predicate CanTake(s: State, i: nat)
    requires i < |s.job.lock|
  {
    var r := s.job.lock[i];
    && r.table in s.tables
    && (s.tables[r.table] == Unlocked || (s.tables[r.table].tp == Read && r.tp == Read) || Own(s.job, r.table, s.tables[r.table]))
  }

  ghost predicate Ready(s: State) {
    && Inv(s) && s.job.kind.LockTables? && s.job.state == Running && s.job.indexOfUnlock == |s.job.unlock|
    && forall i :: s.job.indexOfLock <= i < |s.job.lock| ==> CanTake(s, i)
  }

  /** A session that has given up its own locks passes the first check exactly when it can take every table. */
  lemma CheckMeansReady(s: State)
    requires Inv(s) && s.job.kind.LockTables? && s.job.state == Running && s.job.indexOfUnlock == |s.job.unlock| && s.job.indexOfLock == 0
    requires forall x :: x in s.tables && Settled(s.tables[x]) && s.tables[x].Locked? ==> s.job.session !in s.tables[x].sessions
    ensures FirstCheck(s) <==> Ready(s)
  {
    forall i | 0 <= i < |s.job.lock|
      ensures CanTake(s, i) <==>
                s.job.lock[i].table in s.tables && CheckTableLocked(s.tables[s.job.lock[i].table], s.job.lock[i].tp, s.job.session)
    {
      var x := s.job.lock[i].table;
      assert x in s.tables ==> Settled(s.tables[x]) || Own(s.job, x, s.tables[x]);
    }
  }

  /** From then on every run succeeds. */
  lemma ReadyRuns(s: State)
    requires Ready(s)
    ensures var r := RunJob(s); r.job.state == Done || Ready(r)
  {
    var i := s.job.indexOfLock;
    var r := s.job.lock[i];
    RunKeeps(s);
    assert CanTake(s, i);
    if i == 0 {
      forall j | 0 <= j < |s.job.lock|
        ensures s.job.lock[j].table in s.tables && CheckTableLocked(s.tables[s.job.lock[j].table], s.job.lock[j].tp, s.job.session)
      {
        assert CanTake(s, j);
      }
    }
    assert RunJob(s) == RunLock(s);
    var s' := RunLock(s);
    if s'.job.state != Done {
      forall j | s'.job.indexOfLock <= j < |s'.job.lock| ensures CanTake(s', j) {
        assert CanTake(s, j);
        assert i < j ==> s.job.lock[i].table != s.job.lock[j].table;
      }
    }
  }

  /** If one table cannot be taken, the job is cancelled, at once or when it comes to that table. */
  lemma NotReadyRuns(s: State)
    requires Inv(s) && s.job.kind.LockTables? && s.job.state == Running && s.job.indexOfUnlock == |s.job.unlock| && !Ready(s)
    ensures var r := RunJob(s); r.job.state == Cancelled || (r.job.state == Running && !Ready(r))
  {
    var i := s.job.indexOfLock;
    var j :| i <= j < |s.job.lock| && !CanTake(s, j);
    if i == 0 && !FirstCheck(s) {
    } else {
      var r := RunLock(s);
      var x := s.job.lock[j].table;
      assert x in s.tables ==> Settled(s.tables[x]);
      if i < j {
        assert s.job.lock[i].table != x;
        assert r.job.state == Running ==> !CanTake(r, j);
      }
    }
  }

  // ---------- every job ends ----------

  /** The runs that are left, at most. */
  function RunsLeft(s: State): nat
    requires Tidy(s.job)
  {
    var toUnlock := |s.job.unlock| - s.job.indexOfUnlock;
    if s.job.indexOfLock < |s.job.lock| then
      var x := s.job.lock[s.job.indexOfLock].table;
      toUnlock + 2 * (|s.job.lock| - s.job.indexOfLock) - if IsPreLocked(s.tables, x) then 1 else 0
    else toUnlock + 1
  }

  lemma RunShortens(s: State)
    requires Inv(s) && s.job.state == Running
    ensures Tidy(RunJob(s).job)
    ensures RunJob(s).job.state != Running || RunsLeft(RunJob(s)) < RunsLeft(s)
  {
    RunKeeps(s);
    var i, n := s.job.indexOfLock, |s.job.lock|;
    if s.job.indexOfUnlock < |s.job.unlock| {
      assert i < n ==> !IsPreLocked(s.tables, s.job.lock[i].table) by { assert Sound(s); }
    } else if i + 1 < n {
      assert s.job.lock[i].table != s.job.lock[i + 1].table;
    }
  }

  /** What the tables and the job look like once the session has given up the locks on its list. */
  function Released(s: State): State
    requires s.job.indexOfUnlock <= |s.job.unlock|
    decreases |s.job.unlock| - s.job.indexOfUnlock
  {
    if s.job.indexOfUnlock < |s.job.unlock| then Released(RunUnlock(s)) else s
  }

  lemma GivenUpTwice(a: Lock, b: Lock, c: Lock, session: Session, cleanup: bool)
    requires GivenUp(a, b, session, cleanup) && GivenUp(b, c, session, cleanup)
    ensures GivenUp(a, c, session, cleanup)
  {
  }

  /** One table is unlocked, or passed over. */
  ghost predicate UnlocksOne(s: State, x: TableID, r: State)
    requires s.job.indexOfUnlock < |s.job.unlock| && x in s.tables
  {
    && r.tables.Keys == s.tables.Keys
    && if x == s.job.unlock[s.job.indexOfUnlock] then GivenUp(s.tables[x], r.tables[x], s.job.session, s.job.kind == UnlockTables(true))
       else r.tables[x] == s.tables[x]
  }

  lemma UnlockGivesUp(s: State, x: TableID)
    requires Inv(s) && s.job.state == Running && s.job.indexOfUnlock < |s.job.unlock| && x in s.tables
    ensures UnlocksOne(s, x, RunUnlock(s))
  {
    assert Settled(s.tables[x]);
    UnlockSettled(s.tables[x], s.job.session, s.job.kind == UnlockTables(true));
  }

  /** What the rest of the list comes to, for one table. */
  ghost predicate GivesUp(s: State, x: TableID)
    requires s.job.indexOfUnlock <= |s.job.unlock| && x in s.tables
  {
    && Released(s).tables.Keys == s.tables.Keys
    && if x in s.job.unlock[s.job.indexOfUnlock..] then
         GivenUp(s.tables[x], Released(s).tables[x], s.job.session, s.job.kind == UnlockTables(true))
       else Released(s).tables[x] == s.tables[x]
  }

  lemma GivesUpStep(s: State, x: TableID)
    requires s.job.indexOfUnlock < |s.job.unlock| && x in s.tables && UnlocksOne(s, x, RunUnlock(s)) && GivesUp(RunUnlock(s), x)
    ensures GivesUp(s, x)
  {
    var i, r, cleanup := s.job.indexOfUnlock, RunUnlock(s), s.job.kind == UnlockTables(true);
    assert s.job.unlock[i..] == [s.job.unlock[i]] + s.job.unlock[i + 1..];
    if x == s.job.unlock[i] && x in s.job.unlock[i + 1..] {
      GivenUpTwice(s.tables[x], r.tables[x], Released(s).tables[x], s.job.session, cleanup);
    }
  }

  /** The tables on the list are given up, whatever the order and however often one is listed, and no other. */
  lemma {:induction false} ReleasedGivesUp(s: State, x: TableID)
    requires Inv(s) && s.job.state == Running && x in s.tables
    ensures GivesUp(s, x)
    decreases |s.job.unlock| - s.job.indexOfUnlock
  {
    if s.job.indexOfUnlock == |s.job.unlock| {
    } else {
      UnlockKeeps(s);
      UnlockGivesUp(s, x);
      ReleasedGivesUp(RunUnlock(s), x);
      GivesUpStep(s, x);
    }
  }

  ghost predicate Requests(job: Job, x: TableID) {
    exists i :: 0 <= i < |job.lock| && job.lock[i].table == x
  }

  /** Between two states of a job: only requested tables differ, and in these only the session of the job. */
  ghost predicate OnlyRequested(job: Job, before: Tables, after: Tables) {
    && after.Keys == before.Keys
    && forall x :: x in before ==>
         && (!Requests(job, x) ==> after[x] == before[x])
         && forall t :: t != job.session ==> (HeldBy(after[x], t) <==> HeldBy(before[x], t))
  }

  lemma LockTableOthers(l: Lock, tp: LockType, session: Session)
    ensures var r := LockTable(l, tp, session);
            r.Some? ==> forall t :: t != session ==> (HeldBy(r.value, t) <==> HeldBy(l, t))
  {
  }

  lemma LockOnlyRequested(s: State)
    requires s.job.indexOfLock < |s.job.lock|
    ensures OnlyRequested(s.job, s.tables, RunLock(s).tables)
  {
    var r := s.job.lock[s.job.indexOfLock];
    assert Requests(s.job, r.table);
    if r.table in s.tables { LockTableOthers(s.tables[r.table], r.tp, s.job.session); }
  }

  lemma RunOnlyRequested(s: State)
    requires Tidy(s.job) && s.job.state == Running && s.job.indexOfUnlock == |s.job.unlock|
    ensures OnlyRequested(s.job, s.tables, RunJob(s).tables)
  {
    if s.job.kind.LockTables? { LockOnlyRequested(s); }
  }

  /** A run gives up what is on the list, or works on the tables that are requested. */
  lemma RunEffect(s: State)
    requires Inv(s) && s.job.state == Running
    ensures var r := RunJob(s);
            && r.job.lock == s.job.lock && r.job.session == s.job.session && Tidy(r.job)
            && OnlyRequested(s.job, Released(s).tables, Released(r).tables)
            && (r.job.state != Running ==> Released(r) == r)
  {
    RunKeeps(s);
    if s.job.indexOfUnlock == |s.job.unlock| {
      RunOnlyRequested(s);
    }
  }

  lemma OnlyRequestedTwice(job: Job, a: Tables, b: Tables, c: Tables)
    requires OnlyRequested(job, a, b) && OnlyRequested(job, b, c)
    ensures OnlyRequested(job, a, c)
  {
  }

  lemma SameRequests(job: Job, job': Job, a: Tables, b: Tables)
    requires job.lock == job'.lock && job.session == job'.session && OnlyRequested(job, a, b)
    ensures OnlyRequested(job', a, b)
  {
    assert forall x :: Requests(job, x) <==> Requests(job', x);
  }

  lemma {:induction false} RunsEffect(s: State, n: nat)
    requires Inv(s) && 0 < n && Legal(s, Runs(n)) && After(s, Runs(n)).job.state != Running
    ensures OnlyRequested(s.job, Released(s).tables, After(s, Runs(n)).tables)
    decreases n
  {
    var r := RunJob(s);
    assert Runs(n)[0] == Run && Runs(n)[1..] == Runs(n - 1);
    RunEffect(s);
    if n == 1 {
    } else {
      RunKeeps(s);
      RunsEffect(r, n - 1);
      SameRequests(r.job, s.job, Released(r).tables, After(r, Runs(n - 1)).tables);
      OnlyRequestedTwice(s.job, Released(s).tables, Released(r).tables, After(r, Runs(n - 1)).tables);
    }
  }

  function Runs(n: nat): seq<Event> {
    if n == 0 then [] else [Run] + Runs(n - 1)
  }

  /** Whether the job will be done, told by the tables as they are when it starts. */
  ghost predicate WillSucceed(s: State)
    requires Tidy(s.job)
  {
    s.job.kind.LockTables? ==> Ready(Released(s))
  }

  lemma RunDecidesNothing(s: State)
    requires Inv(s) && s.job.state == Running
    ensures var r := RunJob(s);
            && Inv(r) && (r.job.state == Running ==> (WillSucceed(r) <==> WillSucceed(s)))
            && (r.job.state != Running ==> (r.job.state == Done <==> WillSucceed(s)))
  {
    RunKeeps(s);
    if s.job.kind.LockTables? && s.job.indexOfUnlock == |s.job.unlock| {
      if Ready(s) { ReadyRuns(s); } else { NotReadyRuns(s); }
    }
  }

  /** Main result: left alone, every job ends, and a lock job has its tables if and only if each was free for it. */
  lemma {:induction false} JobEnds(s: State) returns (n: nat)
    requires Inv(s) && s.job.state == Running
    ensures n <= RunsLeft(s) && Legal(s, Runs(n))
    ensures After(s, Runs(n)).job.state == if WillSucceed(s) then Done else Cancelled
    decreases RunsLeft(s)
  {
    RunShortens(s);
    RunDecidesNothing(s);
    var r := RunJob(s);
    var m := 0;
    if r.job.state == Running { m := JobEnds(r); }
    n := m + 1;
    assert Runs(n)[1..] == Runs(m);
  }

  /**
    What a job leaves of a table that it does not ask for: given up if it is on the list, by the session of
    the job or, in a cleanup, by all; otherwise untouched. The locks of other sessions stay in any case.
   */
  lemma JobLeaves(s: State, x: TableID) returns (n: nat)
    requires Inv(s) && IsNew(s.job) && x in s.tables
    ensures Legal(s, Runs(n)) && After(s, Runs(n)).job.state != Running && x in After(s, Runs(n)).tables
    ensures var l, cleanup := After(s, Runs(n)).tables[x], s.job.kind == UnlockTables(true);
            && (x in s.job.unlock && !Requests(s.job, x) ==> GivenUp(s.tables[x], l, s.job.session, cleanup))
            && (x !in s.job.unlock && !Requests(s.job, x) ==> l == s.tables[x])
            && (x !in s.job.unlock || !cleanup ==> forall t :: t != s.job.session ==> (HeldBy(l, t) <==> HeldBy(s.tables[x], t)))
  {
    n := JobEnds(s);
    RunsEffect(s, n);
    ReleasedGivesUp(s, x);
    assert s.job.unlock[0..] == s.job.unlock;
  }

  // ---------- the code ----------

  method FindSessionInfoIndex(sessions: seq<Session>, session: Session) returns (i: int)
    ensures -1 <= i < |sessions|
    ensures i >= 0 ==> sessions[i] == session
    ensures i < 0 <==> session !in sessions
  {
    i := 0;
    while i < |sessions|
      invariant 0 <= i <= |sessions| && session !in sessions[..i]
    {
      if sessions[i] == session { return; }
      i := i + 1;
    }
    i := -1;
  }

  lemma ShiftCut(s: seq<Session>, i: nat)
    requires 0 < i < |s|
    ensures s[..i] + s[i + 1..] == [s[0]] + (s[1..][..i - 1] + s[1..][i..])
  {
  }

  /** Cutting out one position takes a session off a list of distinct sessions. */
  lemma {:induction false} CutOut(sessions: seq<Session>, i: nat)
    requires Distinct(sessions) && i < |sessions|
    ensures sessions[..i] + sessions[i + 1..] == Without(sessions, sessions[i])
    decreases i
  {
    var rest := sessions[1..];
    assert sessions[0] !in rest;
    if i == 0 {
      WithoutDistinct(rest, sessions[0]);
      assert sessions[..0] + rest == rest;
    } else {
      CutOut(rest, i - 1);
      ShiftCut(sessions, i);
    }
  }

  method ReleaseLock(l: Lock, session: Session, cleanup: bool) returns (r: Lock)
    requires l.Locked? ==> Distinct(l.sessions)
    ensures r == UnlockTable(l, session, cleanup)
  {
    if !IsLocked(l) {
      return l;
    }
    if cleanup {
      return Unlocked;
    }
    var i := FindSessionInfoIndex(l.sessions, session);
    if i < 0 {
      return l;
    }
    CutOut(l.sessions, i);
    r := l.(sessions := l.sessions[..i] + l.sessions[i + 1..]);
    if r.sessions == [] {
      r := Unlocked;
    }
  }

  method AcquireLock(l: Lock, tp: LockType, session: Session) returns (r: Option<Lock>)
    ensures r == LockTable(l, tp, session)
  {
    if !IsLocked(l) {
      return Some(Locked(tp, [session], NoState));
    }
    if l.state == PreLock {
      return Some(l);
    }
    if l.tp == Read && tp == Read {
      var i := FindSessionInfoIndex(l.sessions, session);
      return Some(if i >= 0 then l else l.(sessions := l.sessions + [session]));
    }
    r := None;
  }

  class LockWorker {
    var tables: Tables
    var job: Job

    function View(): State
      reads this
    {
      State(tables, job)
    }

    method UnlockOne()
      requires job.indexOfUnlock < |job.unlock| && Inv(View()) && job.state == Running
      modifies this
      ensures View() == RunUnlock(old(View()))
    {
      var x := job.unlock[job.indexOfUnlock];
      if x in tables {
        var l := ReleaseLock(tables[x], job.session, job.kind == UnlockTables(true));
        tables := tables[x := l];
      }
      job := job.(indexOfUnlock := job.indexOfUnlock + 1);
    }

    /** The check before the first table; `ok` if every table exists and is not locked against the session. */
    method CheckTables() returns (ok: bool)
      ensures ok == FirstCheck(View())
    {
      var i := 0;
      while i < |job.lock|
        invariant 0 <= i <= |job.lock|
        invariant forall j :: 0 <= j < i ==>
                    job.lock[j].table in tables && CheckTableLocked(tables[job.lock[j].table], job.lock[j].tp, job.session)
      {
        if job.lock[i].table !in tables || !CheckTableLocked(tables[job.lock[i].table], job.lock[i].tp, job.session) {
          return false;
        }
        i := i + 1;
      }
      ok := true;
    }

    method LockOne()
      requires job.indexOfLock < |job.lock|
      modifies this
      ensures View() == RunLock(old(View()))
    {
      var r := job.lock[job.indexOfLock];
      if r.table !in tables {
        job := job.(state := Cancelled);
        return;
      }
      var l := AcquireLock(tables[r.table], r.tp, job.session);
      if l.None? || l.value.Unlocked? {
        job := job.(state := Cancelled);
        return;
      }
      if l.value.state == NoState {
        tables := tables[r.table := l.value.(state := PreLock)];
      } else {
        tables := tables[r.table := l.value.(state := Public)];
        job := job.(indexOfLock := job.indexOfLock + 1);
        if job.indexOfLock == |job.lock| {
          job := job.(state := Done);
        } else {
          job := job.(state := Running);
        }
      }
    }

    /** One run of the job in the hands of the owner. */
    method RunOnce()
      requires Inv(View()) && job.state == Running
      modifies this
      ensures View() == RunJob(old(View())) && Inv(View())
    {
      RunKeeps(View());
      if job.kind.LockTables? {
        if job.indexOfUnlock < |job.unlock| {
          UnlockOne();
          return;
        }
        if job.indexOfLock == 0 {
          var ok := CheckTables();
          if !ok {
            job := job.(state := Cancelled);
            return;
          }
        }
        if job.indexOfLock < |job.lock| {
          LockOne();
        }
      } else {
        if job.indexOfUnlock < |job.unlock| {
          UnlockOne();
        }
        if job.indexOfUnlock == |job.unlock| {
          job := job.(state := Done);
        }
      }
    }
  }
}
