/**
  The two DDL job queues and the history.  Each queue is first-in first-out, the queues run
  concurrently, and a job waits for one job of the other queue at most: the newest one it
  depends on.  `Depends` is any symmetric relation between job IDs.
 */
module JobQueue {
  const NONE := 0

  datatype Queue = General | AddIndex

  datatype Job = Job(id: int, dep: int, started: bool)

  type Depends = (int, int) -> bool

  datatype State = State(general: seq<Job>, addIndex: seq<Job>, history: seq<int>, maxId: int)

  datatype Event = Add(q: Queue, id: int) | Start(q: Queue) | Finish(q: Queue)

  function Other(q: Queue): Queue {
    if q == General then AddIndex else General
  }

  function Jobs(s: State, q: Queue): seq<Job> {
    if q == General then s.general else s.addIndex
  }

  function WithJobs(s: State, q: Queue, jobs: seq<Job>): State {
    if q == General then s.(general := jobs) else s.(addIndex := jobs)
  }

  /** The newest job of the other queue that the new job depends on. */
  function Dependency(D: Depends, id: int, jobs: seq<Job>): int {
    if jobs == [] then NONE
    else
      var last := jobs[|jobs| - 1];
      if last.id <= id && D(id, last.id) then last.id else Dependency(D, id, jobs[..|jobs| - 1])
  }

  predicate DependencyDone(s: State, job: Job) {
    job.dep == NONE || job.dep in s.history
  }

  predicate Enabled(s: State, e: Event) {
    match e
    case Add(_, id) => s.maxId < id
    case Start(q) => Jobs(s, q) != [] && DependencyDone(s, Jobs(s, q)[0])
    case Finish(q) => Jobs(s, q) != [] && Jobs(s, q)[0].started
  }

  function Apply(D: Depends, s: State, e: Event): State
    requires Enabled(s, e)
  {
    match e
    case Add(q, id) =>
      WithJobs(s, q, Jobs(s, q) + [Job(id, Dependency(D, id, Jobs(s, Other(q))), false)]).(maxId := id)
    case Start(q) => WithJobs(s, q, Jobs(s, q)[0 := Jobs(s, q)[0].(dep := NONE, started := true)])
    case Finish(q) => WithJobs(s, q, Jobs(s, q)[1..]).(history := s.history + [Jobs(s, q)[0].id])
  }

  predicate Init(s: State) {
    s.general == [] && s.addIndex == [] && s.history == [] && s.maxId >= 0
  }

  ghost predicate Legal(D: Depends, s: State, es: seq<Event>)
    decreases |es|
  {
    es == [] || (Enabled(s, es[0]) && Legal(D, Apply(D, s, es[0]), es[1..]))
  }

  ghost function After(D: Depends, s: State, es: seq<Event>): State
    requires Legal(D, s, es)
    decreases |es|
  {
    if es == [] then s else After(D, Apply(D, s, es[0]), es[1..])
  }

  ghost predicate Symmetric(D: Depends) {
    forall a, b :: D(a, b) <==> D(b, a)
  }

  // ---------- what holds in every state ----------

  /**
    A job waits for a smaller ID of the other queue; once that is in history the other queue holds
    only larger ones; and every older job of the other queue it depends on is at or before that one.
   */
  ghost predicate JobOk(D: Depends, job: Job, other: seq<Job>, history: seq<int>) {
    && (job.dep != NONE ==>
          && NONE < job.dep < job.id && !job.started
          && (if job.dep in history then forall j :: 0 <= j < |other| ==> job.dep < other[j].id
              else exists j :: 0 <= j < |other| && other[j].id == job.dep))
    && (forall j :: 0 <= j < |other| && other[j].id < job.id && D(job.id, other[j].id) ==> other[j].id <= job.dep)
  }

  /** IDs are in order; only the head of a queue is started. */
  ghost predicate Fifo(jobs: seq<Job>, maxId: int) {
    && (forall i :: 0 <= i < |jobs| ==> NONE < jobs[i].id <= maxId)
    && (forall i, j :: 0 <= i < j < |jobs| ==> jobs[i].id < jobs[j].id && !jobs[j].started)
  }

  /** No unfinished job is in history, and what it depends on there is older. */
  ghost predicate Later(D: Depends, jobs: seq<Job>, history: seq<int>) {
    forall i, h :: 0 <= i < |jobs| && h in history ==> h != jobs[i].id && (D(h, jobs[i].id) ==> h < jobs[i].id)
  }

  ghost predicate Disjoint(a: seq<Job>, b: seq<Job>) {
    forall i, j :: 0 <= i < |a| && 0 <= j < |b| ==> a[i].id != b[j].id
  }

  ghost predicate AllOk(D: Depends, jobs: seq<Job>, other: seq<Job>, history: seq<int>) {
    forall i :: 0 <= i < |jobs| ==> JobOk(D, jobs[i], other, history)
  }

  ghost predicate HistoryOrdered(D: Depends, history: seq<int>, maxId: int) {
    && (forall i :: 0 <= i < |history| ==> NONE < history[i] <= maxId)
    && (forall i, j :: 0 <= i < j < |history| && D(history[i], history[j]) ==> history[i] < history[j])
  }

  ghost predicate Sides(D: Depends, mine: seq<Job>, other: seq<Job>, history: seq<int>, maxId: int) {
    && 0 <= maxId && Fifo(mine, maxId) && Fifo(other, maxId) && Disjoint(mine, other)
    && AllOk(D, mine, other, history) && AllOk(D, other, mine, history)
    && Later(D, mine, history) && Later(D, other, history)
    && HistoryOrdered(D, history, maxId)
  }

  ghost predicate Inv(D: Depends, s: State) {
    Sides(D, s.general, s.addIndex, s.history, s.maxId)
  }

  lemma SidesSwap(D: Depends, mine: seq<Job>, other: seq<Job>, history: seq<int>, maxId: int)
    requires Sides(D, mine, other, history, maxId)
    ensures Sides(D, other, mine, history, maxId)
  {
  }

  // ---------- adding a job ----------

  lemma {:induction false} DependencyIsNewest(D: Depends, id: int, jobs: seq<Job>)
    requires forall i :: 0 <= i < |jobs| ==> NONE < jobs[i].id < id
    requires forall i, j :: 0 <= i < j < |jobs| ==> jobs[i].id < jobs[j].id
    ensures var d := Dependency(D, id, jobs);
            && (d != NONE ==> D(id, d) && d < id && exists i :: 0 <= i < |jobs| && jobs[i].id == d)
            && (forall i :: 0 <= i < |jobs| && D(id, jobs[i].id) ==> jobs[i].id <= d)
  {
    if jobs == [] {
    } else {
      var rest := jobs[..|jobs| - 1];
      DependencyIsNewest(D, id, rest);
      var d := Dependency(D, id, rest);
      if d != NONE {
        var i :| 0 <= i < |rest| && rest[i].id == d;
        assert jobs[i].id == d;
      }
      assert forall i :: 0 <= i < |rest| ==> jobs[i] == rest[i];
    }
  }

  lemma NewJobOk(D: Depends, id: int, other: seq<Job>, history: seq<int>, maxId: int)
    requires Fifo(other, maxId) && maxId < id && HistoryOrdered(D, history, maxId)
    requires Later(D, other, history)
    ensures JobOk(D, Job(id, Dependency(D, id, other), false), other, history)
  {
    DependencyIsNewest(D, id, other);
  }

  lemma OtherGrows(D: Depends, job: Job, other: seq<Job>, history: seq<int>, new': Job)
    requires JobOk(D, job, other, history) && job.id < new'.id
    ensures JobOk(D, job, other + [new'], history)
  {
    var more := other + [new'];
    if job.dep != NONE && job.dep !in history {
      var j :| 0 <= j < |other| && other[j].id == job.dep;
      assert more[j].id == job.dep;
    }
  }

  lemma AddKeepsOrder(mine: seq<Job>, other: seq<Job>, maxId: int, job: Job)
    requires Fifo(mine, maxId) && Fifo(other, maxId) && Disjoint(mine, other)
    requires 0 <= maxId < job.id && !job.started
    ensures Fifo(mine + [job], job.id) && Fifo(other, job.id) && Disjoint(mine + [job], other)
  {
  }

  lemma AddKeeps(D: Depends, mine: seq<Job>, other: seq<Job>, history: seq<int>, maxId: int, id: int)
    requires Sides(D, mine, other, history, maxId) && maxId < id
    ensures Sides(D, mine + [Job(id, Dependency(D, id, other), false)], other, history, id)
  {
    var job := Job(id, Dependency(D, id, other), false);
    var more := mine + [job];
    AddKeepsOrder(mine, other, maxId, job);
    assert AllOk(D, more, other, history) by { NewJobOk(D, id, other, history, maxId); }
    assert AllOk(D, other, more, history) by {
      forall i | 0 <= i < |other| ensures JobOk(D, other[i], more, history) {
        OtherGrows(D, other[i], mine, history, job);
      }
    }
    assert Later(D, more, history) by {
      forall h | h in history ensures h < id {
        var i :| 0 <= i < |history| && history[i] == h;
      }
    }
  }

  // ---------- starting a job ----------

  /** A head that may start has no older unfinished job to depend on. */
  lemma HeadIsFree(D: Depends, job: Job, other: seq<Job>, history: seq<int>, maxId: int)
    requires JobOk(D, job, other, history) && (job.dep == NONE || job.dep in history) && Fifo(other, maxId)
    ensures forall j :: 0 <= j < |other| && D(job.id, other[j].id) ==> job.id <= other[j].id
  {
  }

  lemma SameIds(D: Depends, job: Job, other: seq<Job>, other': seq<Job>, history: seq<int>)
    requires JobOk(D, job, other, history) && |other'| == |other|
    requires forall j :: 0 <= j < |other| ==> other'[j].id == other[j].id
    ensures JobOk(D, job, other', history)
  {
    if job.dep != NONE && job.dep !in history {
      var j :| 0 <= j < |other| && other[j].id == job.dep;
      assert other'[j].id == job.dep;
    }
  }

  lemma StartKeeps(D: Depends, mine: seq<Job>, other: seq<Job>, history: seq<int>, maxId: int)
    requires Sides(D, mine, other, history, maxId) && mine != [] && (mine[0].dep == NONE || mine[0].dep in history)
    ensures Sides(D, mine[0 := mine[0].(dep := NONE, started := true)], other, history, maxId)
  {
    var job := mine[0].(dep := NONE, started := true);
    var mine' := mine[0 := job];
    assert AllOk(D, mine', other, history) by {
      HeadIsFree(D, mine[0], other, history, maxId);
      assert JobOk(D, job, other, history);
    }
    assert AllOk(D, other, mine', history) by {
      forall i | 0 <= i < |other| ensures JobOk(D, other[i], mine', history) {
        SameIds(D, other[i], mine, mine', history);
      }
    }
  }

  // ---------- finishing a job ----------

  lemma HistoryGrows(D: Depends, job: Job, other: seq<Job>, history: seq<int>, f: int)
    requires JobOk(D, job, other, history) && forall j :: 0 <= j < |other| ==> other[j].id != f
    ensures JobOk(D, job, other, history + [f])
  {
  }

  lemma OtherFinishes(D: Depends, job: Job, other: seq<Job>, history: seq<int>, maxId: int)
    requires JobOk(D, job, other, history) && other != [] && Fifo(other, maxId)
    ensures JobOk(D, job, other[1..], history + [other[0].id])
  {
    var rest := other[1..];
    assert forall j :: 0 <= j < |rest| ==> rest[j] == other[j + 1];
    if job.dep != NONE && job.dep !in history + [other[0].id] {
      var j :| 0 <= j < |other| && other[j].id == job.dep;
      assert rest[j - 1].id == job.dep;
    }
  }

  lemma FinishKeepsLater(D: Depends, mine: seq<Job>, other: seq<Job>, history: seq<int>, maxId: int)
    requires Symmetric(D) && Sides(D, mine, other, history, maxId) && mine != [] && mine[0].started
    ensures Later(D, mine[1..], history + [mine[0].id]) && Later(D, other, history + [mine[0].id])
    ensures HistoryOrdered(D, history + [mine[0].id], maxId)
  {
    var f := mine[0].id;
    HeadIsFree(D, mine[0], other, history, maxId);
    forall i | 0 <= i < |history| ensures D(history[i], f) ==> history[i] < f {
      assert history[i] in history;
    }
    forall i | 0 <= i < |other| ensures f != other[i].id && (D(f, other[i].id) ==> f < other[i].id) {}
  }

  lemma FinishKeeps(D: Depends, mine: seq<Job>, other: seq<Job>, history: seq<int>, maxId: int)
    requires Symmetric(D) && Sides(D, mine, other, history, maxId) && mine != [] && mine[0].started
    ensures Sides(D, mine[1..], other, history + [mine[0].id], maxId)
  {
    var f, rest := mine[0].id, mine[1..];
    FinishKeepsLater(D, mine, other, history, maxId);
    assert AllOk(D, rest, other, history + [f]) by {
      forall i | 0 <= i < |rest| ensures JobOk(D, rest[i], other, history + [f]) {
        HistoryGrows(D, mine[i + 1], other, history, f);
      }
    }
    assert AllOk(D, other, rest, history + [f]) by {
      forall i | 0 <= i < |other| ensures JobOk(D, other[i], rest, history + [f]) {
        OtherFinishes(D, other[i], mine, history, maxId);
      }
    }
    assert forall i :: 0 <= i < |rest| ==> rest[i] == mine[i + 1];
  }

  // ---------- every run ----------

  lemma StepKeepsInv(D: Depends, s: State, e: Event)
    requires Symmetric(D) && Inv(D, s) && Enabled(s, e)
    ensures Inv(D, Apply(D, s, e))
  {
    var mine, other := Jobs(s, e.q), Jobs(s, Other(e.q));
    if e.q == AddIndex { SidesSwap(D, s.general, s.addIndex, s.history, s.maxId); }
    match e {
      case Add(q, id) => AddKeeps(D, mine, other, s.history, s.maxId, id);
      case Start(q) => StartKeeps(D, mine, other, s.history, s.maxId);
      case Finish(q) => FinishKeeps(D, mine, other, s.history, s.maxId);
    }
    var s' := Apply(D, s, e);
    if e.q == AddIndex { SidesSwap(D, s'.addIndex, s'.general, s'.history, s'.maxId); }
  }

  lemma {:induction false} RunKeepsInv(D: Depends, s: State, es: seq<Event>)
    requires Symmetric(D) && Inv(D, s) && Legal(D, s, es)
    ensures Inv(D, After(D, s, es))
    decreases |es|
  {
    if es == [] {
    } else {
      StepKeepsInv(D, s, es[0]);
      RunKeepsInv(D, Apply(D, s, es[0]), es[1..]);
    }
  }

  ghost predicate Unfinished(s: State, job: Job) {
    job in s.general || job in s.addIndex
  }

  /** Main result: in every run, whatever is left in the queues, jobs that depend on each other have finished in ID order. */
  lemma FinishInOrder(D: Depends, s: State, es: seq<Event>, i: nat, j: nat)
    requires Symmetric(D) && Init(s) && Legal(D, s, es)
    ensures var h := After(D, s, es).history;
            i < j < |h| && D(h[i], h[j]) ==> h[i] < h[j]
  {
    RunKeepsInv(D, s, es);
  }

  /** Main result: in every run, the newer of two unfinished jobs that depend on each other has not started. */
  lemma DependentJobsExclude(D: Depends, s: State, es: seq<Event>, a: Job, b: Job)
    requires Symmetric(D) && Init(s) && Legal(D, s, es)
    requires var s' := After(D, s, es); Unfinished(s', a) && Unfinished(s', b) && a.id < b.id && D(a.id, b.id)
    ensures !b.started
  {
    RunKeepsInv(D, s, es);
    var s' := After(D, s, es);
    if b in s'.general && a in s'.addIndex {
      assert JobOk(D, b, s'.addIndex, s'.history);
    } else if b in s'.addIndex && a in s'.general {
      assert JobOk(D, b, s'.general, s'.history);
    }
  }

  // ---------- no job is lost ----------

  ghost predicate Waits(jobs: seq<Job>, id: int) {
    exists i :: 0 <= i < |jobs| && jobs[i].id == id
  }

  /** The job is in queue `q`, or has left it for the history. */
  ghost predicate Kept(s: State, q: Queue, id: int) {
    Waits(Jobs(s, q), id) || id in s.history
  }

  lemma WaitsAppend(jobs: seq<Job>, job: Job, id: int)
    ensures Waits(jobs + [job], id) <==> Waits(jobs, id) || id == job.id
  {
    var more := jobs + [job];
    assert more[|jobs|] == job;
    if i :| 0 <= i < |jobs| && jobs[i].id == id {
      assert more[i] == jobs[i];
    }
  }

  lemma WaitsSame(jobs: seq<Job>, jobs': seq<Job>, id: int)
    requires |jobs'| == |jobs| && forall i :: 0 <= i < |jobs| ==> jobs'[i].id == jobs[i].id
    ensures Waits(jobs', id) <==> Waits(jobs, id)
  {
  }

  lemma WaitsRest(jobs: seq<Job>, id: int)
    requires jobs != []
    ensures Waits(jobs, id) <==> id == jobs[0].id || Waits(jobs[1..], id)
  {
    var rest := jobs[1..];
    if i :| 0 <= i < |rest| && rest[i].id == id {
      assert jobs[i + 1] == rest[i];
    }
    if i :| 0 < i < |jobs| && jobs[i].id == id {
      assert rest[i - 1] == jobs[i];
    }
  }

  lemma StepKeepsJob(D: Depends, s: State, e: Event, q: Queue, id: int)
    requires Enabled(s, e)
    ensures Kept(Apply(D, s, e), q, id) <==>
              Kept(s, q, id) || e == Add(q, id) || (e.Finish? && id == Jobs(s, e.q)[0].id)
  {
    var jobs, jobs' := Jobs(s, e.q), Jobs(Apply(D, s, e), e.q);
    match e
    case Add(_, _) => WaitsAppend(jobs, jobs'[|jobs|], id);
    case Start(_) => WaitsSame(jobs, jobs', id);
    case Finish(_) => WaitsRest(jobs, id);
  }

  /** Main result: in every run exactly the jobs that were added are in their queues or in the history. */
  lemma {:induction false} NoJobIsLost(D: Depends, s: State, es: seq<Event>, id: int)
    requires Legal(D, s, es)
    ensures var r := After(D, s, es);
            Kept(r, General, id) || Kept(r, AddIndex, id) <==>
              Kept(s, General, id) || Kept(s, AddIndex, id) || Add(General, id) in es || Add(AddIndex, id) in es
    decreases |es|
  {
    if es == [] {
    } else {
      StepKeepsJob(D, s, es[0], General, id);
      StepKeepsJob(D, s, es[0], AddIndex, id);
      NoJobIsLost(D, Apply(D, s, es[0]), es[1..], id);
      assert es == [es[0]] + es[1..];
      assert es[0].Finish? ==> Waits(Jobs(s, es[0].q), Jobs(s, es[0].q)[0].id);
    }
  }

  // ---------- no deadlock ----------

  /** The head with the smallest ID waits for nothing. */
  lemma SmallestHeadRuns(D: Depends, mine: seq<Job>, other: seq<Job>, history: seq<int>, maxId: int)
    requires Sides(D, mine, other, history, maxId) && mine != [] && (other != [] ==> mine[0].id < other[0].id)
    ensures mine[0].dep == NONE || mine[0].dep in history
  {
    assert JobOk(D, mine[0], other, history);
  }

  lemma SomeHeadRuns(D: Depends, s: State) returns (q: Queue)
    requires Inv(D, s) && (s.general != [] || s.addIndex != [])
    ensures Enabled(s, Start(q))
  {
    if s.addIndex == [] || (s.general != [] && s.general[0].id < s.addIndex[0].id) {
      q := General;
      SmallestHeadRuns(D, s.general, s.addIndex, s.history, s.maxId);
    } else {
      q := AddIndex;
      SidesSwap(D, s.general, s.addIndex, s.history, s.maxId);
      SmallestHeadRuns(D, s.addIndex, s.general, s.history, s.maxId);
    }
  }

  /** Starting and finishing a head that waits for nothing. */
  lemma RunHead(D: Depends, s: State, q: Queue) returns (s': State)
    requires Symmetric(D) && Inv(D, s) && Enabled(s, Start(q))
    ensures Enabled(Apply(D, s, Start(q)), Finish(q)) && s' == Apply(D, Apply(D, s, Start(q)), Finish(q))
    ensures Inv(D, s') && |s'.general| + |s'.addIndex| < |s.general| + |s.addIndex|
  {
    StepKeepsInv(D, s, Start(q));
    StepKeepsInv(D, Apply(D, s, Start(q)), Finish(q));
    s' := Apply(D, Apply(D, s, Start(q)), Finish(q));
  }

  lemma LegalFirst(D: Depends, s: State, e: Event, es: seq<Event>)
    requires Enabled(s, e) && Legal(D, Apply(D, s, e), es)
    ensures Legal(D, s, [e] + es) && After(D, s, [e] + es) == After(D, Apply(D, s, e), es)
  {
    assert ([e] + es)[1..] == es;
  }

  ghost predicate Drains(D: Depends, s: State, es: seq<Event>) {
    Legal(D, s, es) && After(D, s, es).general == [] && After(D, s, es).addIndex == []
  }

  lemma {:induction false} Drain(D: Depends, s: State) returns (es: seq<Event>)
    requires Symmetric(D) && Inv(D, s)
    ensures Drains(D, s, es)
    decreases |s.general| + |s.addIndex|
  {
    es := [];
    if s.general != [] || s.addIndex != [] {
      var q := SomeHeadRuns(D, s);
      var s' := RunHead(D, s, q);
      var rest := Drain(D, s');
      LegalFirst(D, Apply(D, s, Start(q)), Finish(q), rest);
      LegalFirst(D, s, Start(q), [Finish(q)] + rest);
      es := [Start(q)] + ([Finish(q)] + rest);
    }
  }

  /** Main result: no deadlock.  From every reachable state some run empties both queues. */
  lemma QueuesDrain(D: Depends, s: State, es: seq<Event>)
    requires Symmetric(D) && Init(s) && Legal(D, s, es)
    ensures exists more :: Drains(D, After(D, s, es), more)
  {
    RunKeepsInv(D, s, es);
    var more := Drain(D, After(D, s, es));
    assert Drains(D, After(D, s, es), more);
  }

  // ---------- the code ----------

  /** All jobs of a queue, from right to left. */
  method GetAllDDLJobsInQueue(jobs: seq<Job>) returns (all: seq<Job>)
    ensures |all| == |jobs| && forall i :: 0 <= i < |jobs| ==> all[i] == jobs[|jobs| - 1 - i]
  {
    all := [];
    var i := |jobs| - 1;
    while i >= 0
      invariant -1 <= i < |jobs| && |all| == |jobs| - 1 - i
      invariant forall k :: 0 <= k < |all| ==> all[k] == jobs[|jobs| - 1 - k]
    {
      all := all + [jobs[i]];
      i := i - 1;
    }
  }

  method BuildJobDependence(D: Depends, id: int, other: seq<Job>) returns (dep: int)
    ensures dep == Dependency(D, id, other)
  {
    var jobs := GetAllDDLJobsInQueue(other);
    dep := NONE;
    assert other[..|other|] == other;
    var i := 0;
    while i < |jobs|
      invariant 0 <= i <= |jobs| && dep == NONE
      invariant Dependency(D, id, other) == Dependency(D, id, other[..|other| - i])
    {
      var rest := other[..|other| - i];
      assert rest[..|rest| - 1] == other[..|other| - (i + 1)];
      if id < jobs[i].id {
        i := i + 1;
        continue;
      }
      if D(id, jobs[i].id) {
        dep := jobs[i].id;
        break;
      }
      i := i + 1;
    }
  }

  class Meta {
    const depends: Depends
    var general: seq<Job>
    var addIndex: seq<Job>
    var history: seq<int>
    var globalId: int

    constructor (depends: Depends, globalId: nat)
      ensures this.depends == depends && Init(View()) && View().maxId == globalId
    {
      this.depends, general, addIndex, history, this.globalId := depends, [], [], [], globalId;
    }

    function View(): State
      reads this
    {
      State(general, addIndex, history, globalId)
    }

    /** One transaction: a fresh ID (`skipped` others were handed out since), the dependency, the push. */
    method AddDDLJob(q: Queue, skipped: nat) returns (id: int)
      modifies this
      ensures Enabled(old(View()), Add(q, id)) && View() == Apply(depends, old(View()), Add(q, id))
    {
      id := globalId + skipped + 1;
      globalId := id;
      var dep := BuildJobDependence(depends, id, if q == General then addIndex else general);
      if q == General {
        general := general + [Job(id, dep, false)];
      } else {
        addIndex := addIndex + [Job(id, dep, false)];
      }
    }

    /** One look at the head of a queue; `finished` is what running the job comes to. */
    method HandleDDLJob(q: Queue, finished: bool) returns (ran: bool)
      modifies this
      ensures ran <==> Enabled(old(View()), Start(q))
      ensures !ran ==> View() == old(View())
      ensures ran && !finished ==> View() == Apply(depends, old(View()), Start(q))
      ensures ran && finished ==> View() == Apply(depends, Apply(depends, old(View()), Start(q)), Finish(q))
    {
      var jobs := if q == General then general else addIndex;
      if |jobs| == 0 { return false; }
      var job := jobs[0];
      if job.dep != NONE && job.dep !in history { return false; }
      job := job.(dep := NONE, started := true);
      jobs := if finished then jobs[1..] else jobs[0 := job];
      if finished { history := history + [job.id]; }
      if q == General { general := jobs; } else { addIndex := jobs; }
      return true;
    }
  }
}
