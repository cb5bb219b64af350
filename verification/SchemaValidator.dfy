/**
  The schema validator of a server: a bounded, merged queue of schema deltas that must
  answer as if it kept the log of all schema changes.  The pure machine below is what the
  class does call by call; it also keeps the full log, which the code does not have.
 */
module SchemaValidator {
  datatype CheckResult = Succ | Fail | Unknown

  datatype Delta = Delta(version: int, tables: seq<int>)

  /** A loaded change; a full load may have changed any table. */
  datatype Change = Change(version: int, tables: seq<int>, full: bool)

  datatype State = State(started: bool, lease: nat, latest: int, expire: int, deltas: seq<Delta>, log: seq<Change>)

  datatype Op =
    | Load(full: bool, now: int, oldVer: int, currVer: int, tables: seq<int>, maxCnt: int)
    | Stop
    | Restart

  // ---------- what changed after a version ----------

  ghost predicate Touched(deltas: seq<Delta>, v: int, t: int) {
    exists i :: 0 <= i < |deltas| && deltas[i].version > v && t in deltas[i].tables
  }

  ghost predicate Changed(log: seq<Change>, v: int, t: int) {
    exists i :: 0 <= i < |log| && log[i].version > v && (log[i].full || t in log[i].tables)
  }

  ghost predicate AnyChanged(log: seq<Change>, v: int, tables: seq<int>) {
    exists i :: 0 <= i < |tables| && Changed(log, v, tables[i])
  }

  ghost predicate AnyTouched(deltas: seq<Delta>, v: int, tables: seq<int>) {
    exists i :: 0 <= i < |tables| && Touched(deltas, v, tables[i])
  }

  // ---------- the queue ----------

  predicate ContainIn(a: seq<int>, b: seq<int>) {
    |a| <= |b| && forall i :: 0 <= i < |a| ==> a[i] in b
  }

  function Enqueued(deltas: seq<Delta>, d: Delta, maxCnt: int): seq<Delta> {
    if maxCnt <= 0 then deltas
    else if deltas == [] then [d]
    else
      var last := |deltas| - 1;
      var q := if last != 0 && ContainIn(deltas[last].tables, d.tables) then deltas[last := d] else deltas + [d];
      if |q| > maxCnt then q[1..] else q
  }

  // ---------- the calls ----------

  function AfterReset(s: State): State {
    s.(started := true, latest := 0, deltas := [])
  }

  /** The log grows whether or not the validator takes the update. */
  function Updated(s: State, now: int, oldVer: int, currVer: int, tables: seq<int>, maxCnt: int, full: bool): State {
    var log := if currVer != oldVer then s.log + [Change(currVer, tables, full)] else s.log;
    if !s.started then s.(log := log)
    else
      s.(latest := currVer, expire := now + s.lease - 1, log := log,
         deltas := if currVer != oldVer then Enqueued(s.deltas, Delta(currVer, tables), maxCnt) else s.deltas)
  }

  function Step(s: State, op: Op): State {
    match op
    case Load(full, now, oldVer, currVer, tables, maxCnt) =>
      Updated(if full then AfterReset(s) else s, now, oldVer, currVer, tables, maxCnt, full)
    case Stop => s.(started := false, latest := 0, deltas := [])
    case Restart => s.(started := true)
  }

  function LastVersion(s: State): int {
    if s.log == [] then 0 else s.log[|s.log| - 1].version
  }

  /** What the domain guarantees: a load starts from the loaded version, and versions only grow. */
  ghost predicate Legal(s: State, op: Op) {
    op.Load? ==> op.oldVer == LastVersion(s) <= op.currVer
  }

  ghost predicate LegalRun(s: State, ops: seq<Op>)
    decreases |ops|
  {
    ops == [] || (Legal(s, ops[0]) && LegalRun(Step(s, ops[0]), ops[1..]))
  }

  function Run(s: State, ops: seq<Op>): State
    decreases |ops|
  {
    if ops == [] then s else Run(Step(s, ops[0]), ops[1..])
  }

  predicate Init(s: State) {
    s.started && s.latest == 0 && s.deltas == [] && s.log == []
  }

  // ---------- invariants ----------

  ghost predicate Increasing(log: seq<Change>) {
    && (forall i :: 0 <= i < |log| ==> 0 < log[i].version)
    && forall i, j :: 0 <= i < j < |log| ==> log[i].version < log[j].version
  }

  /** The queue is in version order, below the log, and empty while stopped. */
  ghost predicate Ordered(s: State) {
    && Increasing(s.log)
    && InOrder(s.deltas, s.latest)
    && s.latest <= LastVersion(s)
    && (s.started || s.deltas == [])
  }

  /** From its oldest delta on, the queue knows exactly what the log knows. */
  ghost predicate Faithful(s: State) {
    s.deltas != [] ==>
      forall v, t :: v >= s.deltas[0].version ==> (Touched(s.deltas, v, t) <==> Changed(s.log, v, t))
  }

  ghost predicate InOrder(deltas: seq<Delta>, top: int) {
    && (forall i, j :: 0 <= i < j < |deltas| ==> deltas[i].version < deltas[j].version)
    && (forall i :: 0 <= i < |deltas| ==> deltas[i].version <= top)
  }

  lemma InOrderAppend(deltas: seq<Delta>, d: Delta, top: int)
    requires InOrder(deltas, top) && top < d.version
    ensures InOrder(deltas + [d], d.version)
  {
  }

  lemma InOrderMerge(deltas: seq<Delta>, d: Delta, top: int)
    requires InOrder(deltas, top) && top < d.version && deltas != []
    ensures InOrder(deltas[|deltas| - 1 := d], d.version)
  {
  }

  lemma InOrderRest(deltas: seq<Delta>, top: int)
    requires InOrder(deltas, top) && deltas != []
    ensures InOrder(deltas[1..], top)
  {
    var rest := deltas[1..];
    assert forall i :: 0 <= i < |rest| ==> rest[i] == deltas[i + 1];
  }

  lemma EnqueuedInOrder(deltas: seq<Delta>, d: Delta, maxCnt: int, top: int)
    requires InOrder(deltas, top) && top < d.version
    ensures InOrder(Enqueued(deltas, d, maxCnt), d.version)
  {
    if deltas != [] {
      InOrderAppend(deltas, d, top);
      InOrderMerge(deltas, d, top);
      InOrderRest(deltas + [d], d.version);
      InOrderRest(deltas[|deltas| - 1 := d], d.version);
    }
  }

  lemma LogGrows(log: seq<Change>, c: Change)
    requires Increasing(log) && 0 < c.version && (log != [] ==> log[|log| - 1].version < c.version)
    ensures Increasing(log + [c])
  {
    assert forall i :: 0 <= i < |log| ==> log[i].version <= log[|log| - 1].version;
  }

  lemma UpdatedOrdered(s: State, op: Op)
    requires Ordered(s) && Legal(s, op) && op.Load?
    ensures Ordered(Updated(s, op.now, op.oldVer, op.currVer, op.tables, op.maxCnt, op.full))
  {
    if op.currVer != op.oldVer {
      LogGrows(s.log, Change(op.currVer, op.tables, op.full));
      EnqueuedInOrder(s.deltas, Delta(op.currVer, op.tables), op.maxCnt, s.latest);
    }
  }

  lemma StepOrdered(s: State, op: Op)
    requires Ordered(s) && Legal(s, op)
    ensures Ordered(Step(s, op))
  {
    if op.Load? {
      UpdatedOrdered(if op.full then AfterReset(s) else s, op);
    }
  }

  lemma TouchedAppend(deltas: seq<Delta>, d: Delta, v: int, t: int)
    ensures Touched(deltas + [d], v, t) <==> Touched(deltas, v, t) || (d.version > v && t in d.tables)
  {
    var q := deltas + [d];
    assert q[|deltas|] == d;
    if i :| 0 <= i < |deltas| && deltas[i].version > v && t in deltas[i].tables {
      assert q[i] == deltas[i];
    }
  }

  lemma ChangedAppend(log: seq<Change>, c: Change, v: int, t: int)
    ensures Changed(log + [c], v, t) <==> Changed(log, v, t) || (c.version > v && (c.full || t in c.tables))
  {
    var q := log + [c];
    assert q[|log|] == c;
    if i :| 0 <= i < |log| && log[i].version > v && (log[i].full || t in log[i].tables) {
      assert q[i] == log[i];
    }
  }

  /** Merging a delta into its successor loses nothing. */
  lemma MergeKeepsTouched(deltas: seq<Delta>, d: Delta, v: int, t: int)
    requires deltas != [] && deltas[|deltas| - 1].version < d.version
    requires ContainIn(deltas[|deltas| - 1].tables, d.tables)
    ensures Touched(deltas[|deltas| - 1 := d], v, t) <==> Touched(deltas + [d], v, t)
  {
    var n := |deltas| - 1;
    assert deltas[n := d] == deltas[..n] + [d] && deltas == deltas[..n] + [deltas[n]];
    TouchedAppend(deltas[..n], d, v, t);
    TouchedAppend(deltas[..n], deltas[n], v, t);
    TouchedAppend(deltas, d, v, t);
  }

  /** Forgetting the oldest delta changes nothing from the next one on. */
  lemma DropKeepsTouched(deltas: seq<Delta>, v: int, t: int)
    requires deltas != [] && v >= deltas[0].version
    ensures Touched(deltas[1..], v, t) <==> Touched(deltas, v, t)
  {
    if i :| 0 <= i < |deltas| && deltas[i].version > v && t in deltas[i].tables {
      assert deltas[1..][i - 1] == deltas[i];
    }
    if i :| 0 <= i < |deltas[1..]| && deltas[1..][i].version > v && t in deltas[1..][i].tables {
      assert deltas[i + 1] == deltas[1..][i];
    }
  }

  lemma EnqueueTouched(deltas: seq<Delta>, d: Delta, maxCnt: int, v: int, t: int)
    requires deltas != [] && maxCnt > 0
    requires forall i, j :: 0 <= i < j < |deltas| ==> deltas[i].version < deltas[j].version
    requires forall i :: 0 <= i < |deltas| ==> deltas[i].version < d.version
    requires v >= Enqueued(deltas, d, maxCnt)[0].version
    ensures v >= deltas[0].version
    ensures Touched(Enqueued(deltas, d, maxCnt), v, t) <==> Touched(deltas + [d], v, t)
  {
    var last := |deltas| - 1;
    var merged := last != 0 && ContainIn(deltas[last].tables, d.tables);
    var q := if merged then deltas[last := d] else deltas + [d];
    if merged { MergeKeepsTouched(deltas, d, v, t); }
    assert q[0] == deltas[0];
    if |q| > maxCnt { DropKeepsTouched(q, v, t); }
  }

  /** A limit that is not positive makes the queue skip a change it should know. */
  ghost predicate Skips(s: State, op: Op) {
    op.Load? && !op.full && s.started && op.currVer != op.oldVer && op.maxCnt <= 0 && s.deltas != [] && op.tables != []
  }

  lemma TakenLoad(s: State, op: Op)
    requires Ordered(s) && Faithful(s) && Legal(s, op) && op.Load? && op.maxCnt > 0 && op.currVer != op.oldVer
    ensures Faithful(Step(s, op))
  {
    var s' := Step(s, op);
    var d, c := Delta(op.currVer, op.tables), Change(op.currVer, op.tables, op.full);
    if s'.started && s'.deltas != [] {
      forall v, t | v >= s'.deltas[0].version ensures Touched(s'.deltas, v, t) <==> Changed(s'.log, v, t) {
        if !op.full && s.deltas != [] {
          EnqueueTouched(s.deltas, d, op.maxCnt, v, t);
          TouchedAppend(s.deltas, d, v, t);
          ChangedAppend(s.log, c, v, t);
        } else {
          assert s'.deltas == [d];
        }
      }
    }
  }

  lemma SkippedLoad(s: State, op: Op)
    requires Ordered(s) && Faithful(s) && Legal(s, op) && Skips(s, op)
    ensures !Faithful(Step(s, op))
  {
    var s', t := Step(s, op), op.tables[0];
    var c := Change(op.currVer, op.tables, op.full);
    ChangedAppend(s.log, c, op.oldVer, t);
    assert !Touched(s.deltas, op.oldVer, t);
  }

  /** A call keeps the queue faithful exactly when it skips no change. */
  lemma StepFaithful(s: State, op: Op)
    requires Ordered(s) && Faithful(s) && Legal(s, op)
    ensures Faithful(Step(s, op)) <==> !Skips(s, op)
  {
    if Skips(s, op) {
      SkippedLoad(s, op);
    } else if op.Load? && op.maxCnt > 0 && op.currVer != op.oldVer {
      TakenLoad(s, op);
    } else if op.Load? && op.currVer != op.oldVer && s.deltas != [] && !op.full {
      var c := Change(op.currVer, op.tables, op.full);
      forall v, t ensures Changed(Step(s, op).log, v, t) <==> Changed(s.log, v, t) {
        ChangedAppend(s.log, c, v, t);
      }
    }
  }

  ghost predicate PositiveLimits(ops: seq<Op>) {
    forall i :: 0 <= i < |ops| && ops[i].Load? ==> ops[i].maxCnt > 0
  }

  /** In every run with positive limits the queue stays in order and faithful to the log. */
  lemma {:induction false} RunFaithful(s: State, ops: seq<Op>)
    requires Ordered(s) && Faithful(s) && LegalRun(s, ops) && PositiveLimits(ops)
    ensures Ordered(Run(s, ops)) && Faithful(Run(s, ops))
    decreases |ops|
  {
    if ops == [] {
    } else {
      assert ops[0].Load? ==> ops[0].maxCnt > 0;
      StepOrdered(s, ops[0]);
      StepFaithful(s, ops[0]);
      RunFaithful(Step(s, ops[0]), ops[1..]);
    }
  }

  /** With a constant limit the queue never grows past it. */
  lemma {:induction false} RunBounded(s: State, ops: seq<Op>, limit: nat)
    requires |s.deltas| <= limit && 0 < limit
    requires forall i :: 0 <= i < |ops| && ops[i].Load? ==> ops[i].maxCnt == limit
    ensures |Run(s, ops).deltas| <= limit
    decreases |ops|
  {
    if ops == [] {
    } else {
      assert ops[0].Load? ==> ops[0].maxCnt == limit;
      RunBounded(Step(s, ops[0]), ops[1..], limit);
    }
  }

  // ---------- how far the queue reaches back ----------

  /** A change that the validator takes without forgetting what it knows. */
  ghost predicate Takes(s: State, op: Op) {
    op.Load? && !op.full && s.started && op.currVer != op.oldVer && op.maxCnt > 0
  }

  ghost predicate Contains(a: seq<int>, b: seq<int>) {
    |a| <= |b| && forall t :: t in a ==> t in b
  }

  lemma ContainInMeans(a: seq<int>, b: seq<int>)
    ensures ContainIn(a, b) <==> Contains(a, b)
  {
    if Contains(a, b) {
      forall i | 0 <= i < |a| ensures a[i] in b {
        var t := a[i];
        assert t in a && t in b;
      }
    }
  }

  /** A queue, or all of it but the oldest. */
  lemma RestKeeps(all: seq<Delta>, rest: seq<Delta>, i: nat)
    requires i < |all| && (rest == all || (rest == all[1..] && 0 < i))
    ensures all[i] in rest
  {
    if rest != all {
      assert rest[i - 1] == all[i];
    }
  }

  /**
    What is left of a queue after a change: it is the last delta; the oldest one goes only if the queue is
    full, and the last one only if it is not the oldest and the new tables contain its own.
   */
  lemma LoadKeeps(s: State, op: Op, i: nat)
    requires Takes(s, op) && i < |s.deltas|
    ensures var q, q', last := s.deltas, Step(s, op).deltas, |s.deltas| - 1;
            && q' != [] && q'[|q'| - 1] == Delta(op.currVer, op.tables)
            && (0 < i < last ==> q[i] in q')
            && (last < op.maxCnt - 1 ==> q'[0] == q[0])
            && (if last > 0 && Contains(q[last].tables, op.tables) then |q'| <= |q| else last == 0 || q[last] in q')
  {
    var q, q', last := s.deltas, Step(s, op).deltas, |s.deltas| - 1;
    var d := Delta(op.currVer, op.tables);
    ContainInMeans(q[last].tables, d.tables);
    var merged := last != 0 && ContainIn(q[last].tables, d.tables);
    var all := if merged then q[last := d] else q + [d];
    assert q' == all || (q' == all[1..] && |all| > op.maxCnt);
    if 0 < i < last { RestKeeps(all, q', i); }
    if !merged && 0 < last { RestKeeps(all, q', last); }
  }

  /** The number of changes taken since the queue was last empty, after one more call. */
  function Counted(s: State, n: nat, op: Op): nat {
    match op
    case Load(full, _, oldVer, currVer, _, _) =>
      (if full then 0 else n) + if (full || s.started) && currVer != oldVer then 1 else 0
    case Stop => 0
    case Restart => n
  }

  function Count(s: State, n: nat, ops: seq<Op>): nat
    decreases |ops|
  {
    if ops == [] then n else Count(Step(s, ops[0]), Counted(s, n, ops[0]), ops[1..])
  }

  /** The deltas are changes of the log, at positions `ps`, up to the last one. */
  ghost predicate Placed(deltas: seq<Delta>, log: seq<Change>, ps: seq<int>) {
    && |ps| == |deltas| > 0 && ps[|ps| - 1] == |log| - 1 && (forall i, k :: 0 <= i < k < |ps| ==> ps[i] + (k - i) <= ps[k])
    && (forall i :: 0 <= i < |ps| ==> 0 <= ps[i] < |log| && deltas[i].version == log[ps[i]].version)
  }

  /** They begin with the first of the last n changes, or the queue is as long as the limit. */
  ghost predicate Long(deltas: seq<Delta>, log: seq<Change>, n: nat, limit: nat, ps: seq<int>) {
    Placed(deltas, log, ps) && (ps[0] == |log| - n || limit <= |ps|)
  }

  ghost predicate Positions(s: State, n: nat, limit: nat, ps: seq<int>) {
    Long(s.deltas, s.log, n, limit, ps)
  }

  ghost predicate Reaches(s: State, n: nat, limit: nat) {
    && n <= |s.log| && (s.started || n == 0)
    && if n == 0 then s.deltas == [] else exists ps :: Positions(s, n, limit, ps)
  }

  lemma PlacedAppend(deltas: seq<Delta>, log: seq<Change>, ps: seq<int>, d: Delta, c: Change)
    requires Placed(deltas, log, ps) && c.version == d.version
    ensures Placed(deltas + [d], log + [c], ps + [|log|])
  {
    var ps' := ps + [|log|];
    forall i, k | 0 <= i < k < |ps'| ensures ps'[i] + (k - i) <= ps'[k] {
      assert i < |ps| - 1 ==> ps[i] + (|ps| - 1 - i) <= ps[|ps| - 1];
    }
  }

  lemma PlacedMerge(deltas: seq<Delta>, log: seq<Change>, ps: seq<int>, d: Delta, c: Change)
    requires Placed(deltas, log, ps) && c.version == d.version
    ensures Placed(deltas[|deltas| - 1 := d], log + [c], ps[|ps| - 1 := |log|])
  {
  }

  lemma PlacedDrop(deltas: seq<Delta>, log: seq<Change>, ps: seq<int>)
    requires Placed(deltas, log, ps) && |deltas| > 1
    ensures Placed(deltas[1..], log, ps[1..])
  {
  }

  lemma DroppedLong(deltas: seq<Delta>, log: seq<Change>, n: nat, limit: nat, ps: seq<int>, maxCnt: int) returns (ps': seq<int>)
    requires Long(deltas, log, n, limit, ps) && 0 < limit <= maxCnt
    ensures Long(if |deltas| > maxCnt then deltas[1..] else deltas, log, n, limit, ps')
  {
    ps' := ps;
    if |deltas| > maxCnt {
      PlacedDrop(deltas, log, ps);
      ps' := ps[1..];
    }
  }

  lemma MergedLong(deltas: seq<Delta>, log: seq<Change>, n: nat, limit: nat, ps: seq<int>, d: Delta, c: Change)
    requires Long(deltas, log, n, limit, ps) && c.version == d.version && |deltas| > 1
    ensures Long(deltas[|deltas| - 1 := d], log + [c], n + 1, limit, ps[|ps| - 1 := |log|])
  {
    PlacedMerge(deltas, log, ps, d, c);
  }

  lemma AppendedLong(deltas: seq<Delta>, log: seq<Change>, n: nat, limit: nat, ps: seq<int>, d: Delta, c: Change)
    requires Long(deltas, log, n, limit, ps) && c.version == d.version
    ensures Long(deltas + [d], log + [c], n + 1, limit, ps + [|log|])
  {
    PlacedAppend(deltas, log, ps, d, c);
  }

  lemma EnqueuedLong(deltas: seq<Delta>, log: seq<Change>, n: nat, limit: nat, ps: seq<int>, d: Delta, c: Change, maxCnt: int) returns (ps': seq<int>)
    requires Long(deltas, log, n, limit, ps) && 0 < limit <= maxCnt && c.version == d.version && deltas != []
    ensures Long(Enqueued(deltas, d, maxCnt), log + [c], n + 1, limit, ps')
  {
    var last := |deltas| - 1;
    var q, qs;
    if last != 0 && ContainIn(deltas[last].tables, d.tables) {
      MergedLong(deltas, log, n, limit, ps, d, c);
      q, qs := deltas[last := d], ps[|ps| - 1 := |log|];
    } else {
      AppendedLong(deltas, log, n, limit, ps, d, c);
      q, qs := deltas + [d], ps + [|log|];
    }
    assert Enqueued(deltas, d, maxCnt) == if |q| > maxCnt then q[1..] else q;
    ps' := DroppedLong(q, log + [c], n + 1, limit, qs, maxCnt);
  }

  lemma TakenReaches(s: State, n: nat, limit: nat, op: Op)
    requires Takes(s, op) && Reaches(s, n, limit) && 0 < n && 0 < limit <= op.maxCnt
    ensures Reaches(Step(s, op), n + 1, limit)
  {
    var ps :| Positions(s, n, limit, ps);
    var ps' := EnqueuedLong(s.deltas, s.log, n, limit, ps, Delta(op.currVer, op.tables), Change(op.currVer, op.tables, false), op.maxCnt);
    assert Positions(Step(s, op), n + 1, limit, ps');
  }

  lemma StepReaches(s: State, n: nat, limit: nat, op: Op)
    requires Reaches(s, n, limit) && 0 < limit && (op.Load? ==> op.maxCnt >= limit)
    ensures Reaches(Step(s, op), Counted(s, n, op), limit)
  {
    var s' := Step(s, op);
    if Takes(s, op) && 0 < n {
      TakenReaches(s, n, limit, op);
    } else if op.Load? && (op.full || s.started) && op.currVer != op.oldVer {
      assert Positions(s', 1, limit, [|s.log|]);
    } else if op.Load? && op.currVer == op.oldVer && !op.full && 0 < n {
      var ps :| Positions(s, n, limit, ps);
      assert Positions(s', n, limit, ps);
    } else if op.Restart? && 0 < n {
      var ps :| Positions(s, n, limit, ps);
      assert Positions(s', n, limit, ps);
    }
  }

  lemma {:induction false} RunReaches(s: State, n: nat, ops: seq<Op>, limit: nat)
    requires Reaches(s, n, limit) && AtLeast(ops, limit)
    ensures Reaches(Run(s, ops), Count(s, n, ops), limit)
    decreases |ops|
  {
    if ops == [] {
    } else {
      assert ops[0].Load? ==> ops[0].maxCnt >= limit;
      StepReaches(s, n, limit, ops[0]);
      RunReaches(Step(s, ops[0]), Counted(s, n, ops[0]), ops[1..], limit);
    }
  }

  ghost predicate AtLeast(ops: seq<Op>, limit: nat) {
    0 < limit && forall i :: 0 <= i < |ops| && ops[i].Load? ==> ops[i].maxCnt >= limit
  }

  lemma OldestReaches(s: State, n: nat, limit: nat)
    requires Increasing(s.log) && Reaches(s, n, limit) && 0 < n && 0 < limit
    ensures n <= |s.log| && s.deltas != []
    ensures s.deltas[0].version <= s.log[|s.log| - if n < limit then n else limit].version
  {
    var ps :| Positions(s, n, limit, ps);
    var back := if n < limit then n else limit;
    assert |ps| > 1 ==> ps[0] + (|ps| - 1) <= ps[|ps| - 1];
    assert ps[0] <= |s.log| - back;
    assert ps[0] < |s.log| - back ==> s.log[ps[0]].version < s.log[|s.log| - back].version;
  }

  /**
    Main result: with limits of at least `limit`, the queue reaches back to the last `limit` changes that the
    validator took since the queue was last emptied, and to all of them if there are fewer.
   */
  lemma ReachesBack(s: State, ops: seq<Op>, limit: nat)
    requires Init(s) && LegalRun(s, ops) && AtLeast(ops, limit)
    ensures var s', n := Run(s, ops), Count(s, 0, ops);
            && n <= |s'.log| && (n == 0 <==> s'.deltas == [])
            && (n > 0 ==> s'.deltas[0].version <= s'.log[|s'.log| - if n < limit then n else limit].version)
  {
    RunReaches(s, 0, ops, limit);
    RunFaithful(s, ops);
    var s', n := Run(s, ops), Count(s, 0, ops);
    if n > 0 { OldestReaches(s', n, limit); }
  }

  // ---------- Check ----------

  /** The deltas newer than a version. */
  ghost predicate NewerFrom(deltas: seq<Delta>, v: int, pos: nat) {
    && pos <= |deltas|
    && (forall i :: pos <= i < |deltas| ==> deltas[i].version > v)
    && (pos > 0 ==> deltas[pos - 1].version <= v)
  }

  ghost predicate RelatedChanged(s: State, v: int, tables: seq<int>) {
    s.deltas == [] || v < s.deltas[0].version || AnyTouched(s.deltas, v, tables)
  }

  ghost function Check(s: State, now: int, v: int, tables: seq<int>): CheckResult {
    if !s.started then Unknown
    else if s.lease == 0 then Succ
    else if v < s.latest then
      if tables == [] || RelatedChanged(s, v, tables) then Fail else Succ
    else if now > s.expire then Unknown else Succ
  }

  /** An older version: too old for the queue means Fail, otherwise the answer is that of the full log. */
  lemma OlderVersionExact(s: State, ops: seq<Op>, now: int, v: int, tables: seq<int>)
    requires Init(s) && LegalRun(s, ops) && PositiveLimits(ops)
    requires var s' := Run(s, ops); s'.started && s'.lease > 0 && v < s'.latest && tables != []
    ensures var s' := Run(s, ops);
            Check(s', now, v, tables) ==
              if s'.deltas == [] || v < s'.deltas[0].version || AnyChanged(s'.log, v, tables) then Fail else Succ
  {
    RunFaithful(s, ops);
  }

  /** For a version that is no older than the last `limit` changes taken, the answer is that of the full log. */
  lemma RecentVersionExact(s: State, ops: seq<Op>, limit: nat, now: int, v: int, tables: seq<int>)
    requires Init(s) && LegalRun(s, ops) && AtLeast(ops, limit) && tables != []
    requires var s', n := Run(s, ops), Count(s, 0, ops);
             && s'.started && s'.lease > 0 && v < s'.latest && 0 < n <= |s'.log|
             && v >= s'.log[|s'.log| - if n < limit then n else limit].version
    ensures var s' := Run(s, ops); Check(s', now, v, tables) == if AnyChanged(s'.log, v, tables) then Fail else Succ
  {
    ReachesBack(s, ops, limit);
    OlderVersionExact(s, ops, now, v, tables);
  }

  // ---------- Check, told by the calls before it ----------

  /** The last of the calls that start or stop the validator has started it. */
  predicate IsOn(ops: seq<Op>) {
    if ops == [] then true
    else
      var op := ops[|ops| - 1];
      if op.Stop? then false else op.Restart? || op.full || IsOn(ops[..|ops| - 1])
  }

  /** The last call is a load that the validator accepts. */
  predicate Accepted(ops: seq<Op>) {
    ops != [] && ops[|ops| - 1].Load? && (ops[|ops| - 1].full || IsOn(ops[..|ops| - 1]))
  }

  /** The version of the last load that was accepted, if no stop came after it. */
  function Known(ops: seq<Op>): int {
    if ops == [] then 0
    else
      var op := ops[|ops| - 1];
      if Accepted(ops) then op.currVer else if op.Stop? then 0 else Known(ops[..|ops| - 1])
  }

  /** The time of the last load that was accepted; `none` if there is none. */
  function Granted(ops: seq<Op>, none: int): int {
    if ops == [] then none
    else if Accepted(ops) then ops[|ops| - 1].now else Granted(ops[..|ops| - 1], none)
  }

  lemma {:induction false} RunSnoc(s: State, ops: seq<Op>, op: Op)
    ensures Run(s, ops + [op]) == Step(Run(s, ops), op)
    decreases |ops|
  {
    if ops == [] {
      assert [op][1..] == [];
    } else {
      RunSnoc(Step(s, ops[0]), ops[1..], op);
      assert (ops + [op])[1..] == ops[1..] + [op];
    }
  }

  lemma {:induction false} CallsTell(s: State, ops: seq<Op>)
    requires Init(s)
    ensures var r := Run(s, ops);
            r.lease == s.lease && r.started == IsOn(ops) && r.latest == Known(ops) && r.expire == Granted(ops, s.expire + 1 - s.lease) + s.lease - 1
    decreases |ops|
  {
    if ops == [] {
    } else {
      var front, op := ops[..|ops| - 1], ops[|ops| - 1];
      assert ops == front + [op];
      CallsTell(s, front);
      RunSnoc(s, front, op);
    }
  }

  /**
    Main result: what a check answers after any calls. A stopped validator knows nothing. A transaction on the
    version that the validator knows, or a newer one, passes exactly within the lease of the last load it accepted.
    One on an older version passes only if it names its tables; then the queue decides.
   */
  lemma CheckMeans(s: State, ops: seq<Op>, now: int, v: int, tables: seq<int>)
    requires Init(s) && s.lease > 0
    ensures var r := Check(Run(s, ops), now, v, tables);
            && (!IsOn(ops) ==> r == Unknown)
            && (IsOn(ops) && v < Known(ops) ==> r != Unknown && (tables == [] ==> r == Fail))
            && (IsOn(ops) && v >= Known(ops) ==> r == if now < Granted(ops, s.expire + 1 - s.lease) + s.lease then Succ else Unknown)
  {
    CallsTell(s, ops);
  }

  /** Without a lease every check of a started validator passes. */
  lemma NoLeasePasses(s: State, ops: seq<Op>, now: int, v: int, tables: seq<int>)
    requires Init(s) && s.lease == 0
    ensures Check(Run(s, ops), now, v, tables) == if IsOn(ops) then Succ else Unknown
  {
    CallsTell(s, ops);
  }

  /** Changes that the validator's own version does not cover. */
  ghost predicate Missed(s: State) {
    exists i :: 0 <= i < |s.log| && s.log[i].version > s.latest && (s.log[i].full || s.log[i].tables != [])
  }

  /** No transaction passes although a table it used has changed. */
  ghost predicate Sound(s: State) {
    forall now, v, tables :: Check(s, now, v, tables) == Succ ==> !AnyChanged(s.log, v, tables)
  }

  lemma MissedIsUnsound(s: State)
    requires s.started && s.lease > 0 && Missed(s)
    ensures !Sound(s)
  {
    var i :| 0 <= i < |s.log| && s.log[i].version > s.latest && (s.log[i].full || s.log[i].tables != []);
    var t := if s.log[i].tables != [] then s.log[i].tables[0] else 0;
    assert Changed(s.log, s.latest, [t][0]);
    assert Check(s, s.expire, s.latest, [t]) == Succ && AnyChanged(s.log, s.latest, [t]);
  }

  lemma NothingNewer(s: State, v: int, t: int)
    requires !Missed(s) && s.latest <= v
    ensures !Changed(s.log, v, t)
  {
  }

  /** A started validator is sound exactly when it has missed no change. */
  lemma SoundUnlessMissed(s: State, ops: seq<Op>)
    requires Init(s) && LegalRun(s, ops) && PositiveLimits(ops)
    requires Run(s, ops).started && Run(s, ops).lease > 0
    ensures Sound(Run(s, ops)) <==> !Missed(Run(s, ops))
  {
    var s' := Run(s, ops);
    RunFaithful(s, ops);
    if Missed(s') {
      MissedIsUnsound(s');
    } else {
      forall now, v, tables | Check(s', now, v, tables) == Succ ensures !AnyChanged(s'.log, v, tables) {
        if v < s'.latest {
          assert forall i :: 0 <= i < |tables| ==> !Touched(s'.deltas, v, tables[i]);
        } else {
          forall i | 0 <= i < |tables| ensures !Changed(s'.log, v, tables[i]) {
            NothingNewer(s', v, tables[i]);
          }
        }
      }
    }
  }

  /** An accepted load leaves nothing missed; so only a load while stopped, or a restart without one, can. */
  lemma AcceptedLoadMissesNothing(s: State, op: Op)
    requires Ordered(s) && Legal(s, op) && op.Load? && (op.full || s.started)
    ensures !Missed(Step(s, op))
  {
    var s' := Step(s, op);
    StepOrdered(s, op);
    assert forall i :: 0 <= i < |s'.log| ==> s'.log[i].version <= LastVersion(s') == s'.latest;
  }

  /** The order of calls after a lost session: stop, reload, restart.  The reload is dropped and an old version passes. */
  lemma RestartCanMiss(lease: nat)
    requires lease > 0
    ensures exists s, ops :: Init(s) && s.lease == lease && LegalRun(s, ops) && PositiveLimits(ops)
              && Run(s, ops).started && !Sound(Run(s, ops))
  {
    var s := State(true, lease, 0, 0, [], []);
    var load1, load2 := Load(true, 10, 0, 1, [], 4), Load(false, 20, 1, 2, [7], 4);
    var ops := [load1, Stop, load2, Restart];
    var s1 := Step(s, load1);
    var s3 := Step(Step(s1, Stop), load2);
    assert ops[1..] == [Stop, load2, Restart] && ops[1..][1..] == [load2, Restart] && ops[1..][1..][1..] == [Restart];
    assert LegalRun(Step(s3, Restart), []) && LegalRun(s3, [Restart]) && LegalRun(Step(s1, Stop), [load2, Restart]);
    assert LegalRun(s1, [Stop, load2, Restart]) && LegalRun(s, ops);
    assert Run(s3, [Restart]) == Step(s3, Restart);
    assert Run(s, ops) == Run(s1, [Stop, load2, Restart]) == Run(Step(s1, Stop), [load2, Restart]) == Run(s3, [Restart]);
    assert Run(s, ops).log[1] == Change(2, [7], false);
    MissedIsUnsound(Run(s, ops));
  }

  // ---------- the code ----------

  method HasRelatedTableID(relatedTableIDs: seq<int>, updateTableIDs: seq<int>) returns (has: bool)
    ensures has <==> exists i :: 0 <= i < |updateTableIDs| && updateTableIDs[i] in relatedTableIDs
  {
    for i := 0 to |updateTableIDs|
      invariant forall k :: 0 <= k < i ==> updateTableIDs[k] !in relatedTableIDs
    {
      for j := 0 to |relatedTableIDs|
        invariant forall k :: 0 <= k < j ==> relatedTableIDs[k] != updateTableIDs[i]
      {
        if updateTableIDs[i] == relatedTableIDs[j] { return true; }
      }
    }
    return false;
  }

  method IsContainedIn(a: seq<int>, b: seq<int>) returns (contained: bool)
    ensures contained <==> ContainIn(a, b)
  {
    if |a| > |b| { return false; }
    for i := 0 to |a|
      invariant forall k :: 0 <= k < i ==> a[k] in b
    {
      var isEqual := false;
      for j := 0 to |b|
        invariant isEqual <==> a[i] in b[..j]
      {
        if a[i] == b[j] {
          isEqual := true;
          break;
        }
      }
      if !isEqual { return false; }
    }
    return true;
  }

  method FindNewerDeltas(q: seq<Delta>, currVer: int) returns (pos: nat)
    requires forall i, j :: 0 <= i < j < |q| ==> q[i].version < q[j].version
    ensures NewerFrom(q, currVer, pos)
  {
    pos := |q|;
    var i := |q| - 1;
    while i >= 0 && q[i].version > currVer
      invariant -1 <= i < |q| && pos == i + 1
      invariant forall k :: pos <= k < |q| ==> q[k].version > currVer
    {
      pos := i;
      i := i - 1;
    }
  }

  method IsRelatedTablesChanged(deltas: seq<Delta>, currVer: int, tableIDs: seq<int>) returns (changed: bool)
    requires forall i, j :: 0 <= i < j < |deltas| ==> deltas[i].version < deltas[j].version
    ensures changed <==> deltas == [] || currVer < deltas[0].version || AnyTouched(deltas, currVer, tableIDs)
  {
    if |deltas| == 0 { return true; }
    var pos := FindNewerDeltas(deltas, currVer);
    if pos == 0 { return true; }
    for i := pos to |deltas|
      invariant forall k, t :: pos <= k < i && 0 <= t < |tableIDs| ==> tableIDs[t] !in deltas[k].tables
    {
      var has := HasRelatedTableID(deltas[i].tables, tableIDs);
      if has {
        assert AnyTouched(deltas, currVer, tableIDs);
        return true;
      }
    }
    forall t | 0 <= t < |tableIDs| ensures !Touched(deltas, currVer, tableIDs[t]) {
      assert forall k :: 0 <= k < pos ==> deltas[k].version <= currVer;
    }
    return false;
  }

  class Validator {
    var isStarted: bool
    const lease: nat
    var latestSchemaVer: int
    var latestSchemaExpire: int
    var deltaSchemaInfos: seq<Delta>
    ghost var log: seq<Change>

    constructor (lease: nat)
      ensures View().lease == lease && Init(View())
    {
      this.lease, isStarted, latestSchemaVer, latestSchemaExpire := lease, true, 0, 0;
      deltaSchemaInfos, log := [], [];
    }

    ghost function View(): State
      reads this
    {
      State(isStarted, lease, latestSchemaVer, latestSchemaExpire, deltaSchemaInfos, log)
    }

    method Stop()
      modifies this
      ensures View() == Step(old(View()), Op.Stop)
    {
      isStarted, latestSchemaVer, deltaSchemaInfos := false, 0, [];
    }

    method Restart()
      modifies this
      ensures View() == Step(old(View()), Op.Restart)
    {
      isStarted := true;
    }

    method Reset()
      modifies this
      ensures View() == AfterReset(old(View()))
    {
      isStarted, latestSchemaVer, deltaSchemaInfos := true, 0, [];
    }

    method Enqueue(schemaVersion: int, relatedTableIDs: seq<int>, maxCnt: int)
      modifies this`deltaSchemaInfos
      ensures deltaSchemaInfos == Enqueued(old(deltaSchemaInfos), Delta(schemaVersion, relatedTableIDs), maxCnt)
    {
      if maxCnt <= 0 { return; }
      var delta := Delta(schemaVersion, relatedTableIDs);
      if |deltaSchemaInfos| == 0 {
        deltaSchemaInfos := deltaSchemaInfos + [delta];
        return;
      }
      var lastOffset := |deltaSchemaInfos| - 1;
      var contained := IsContainedIn(deltaSchemaInfos[lastOffset].tables, relatedTableIDs);
      if lastOffset != 0 && contained {
        deltaSchemaInfos := deltaSchemaInfos[lastOffset := delta];
      } else {
        deltaSchemaInfos := deltaSchemaInfos + [delta];
      }
      if |deltaSchemaInfos| > maxCnt {
        deltaSchemaInfos := deltaSchemaInfos[1..];
      }
    }

    method Update(leaseGrantTime: int, oldVer: int, currVer: int, changedTableIDs: seq<int>, maxCnt: int, ghost full: bool)
      modifies this
      ensures View() == Updated(old(View()), leaseGrantTime, oldVer, currVer, changedTableIDs, maxCnt, full)
    {
      if currVer != oldVer { log := log + [Change(currVer, changedTableIDs, full)]; }
      if !isStarted { return; }
      latestSchemaVer := currVer;
      latestSchemaExpire := leaseGrantTime + lease - 1;
      if currVer != oldVer {
        Enqueue(currVer, changedTableIDs, maxCnt);
      }
    }

    /** The validator's part of a reload. */
    method Reload(fullLoad: bool, now: int, oldVer: int, neededVer: int, changedTableIDs: seq<int>, maxCnt: int)
      modifies this
      ensures View() == Step(old(View()), Load(fullLoad, now, oldVer, neededVer, changedTableIDs, maxCnt))
    {
      if fullLoad { Reset(); }
      Update(now, oldVer, neededVer, changedTableIDs, maxCnt, fullLoad);
    }

    method CheckSchema(txnTime: int, schemaVer: int, relatedTableIDs: seq<int>) returns (r: CheckResult)
      requires Ordered(View())
      ensures r == Check(View(), txnTime, schemaVer, relatedTableIDs)
    {
      if !isStarted { return Unknown; }
      if lease == 0 { return Succ; }
      if schemaVer < latestSchemaVer {
        if |relatedTableIDs| == 0 { return Fail; }
        var changed := IsRelatedTablesChanged(deltaSchemaInfos, schemaVer, relatedTableIDs);
        return if changed then Fail else Succ;
      }
      return if txnTime > latestSchemaExpire then Unknown else Succ;
    }
  }
}
