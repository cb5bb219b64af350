/**
  The backfill of a new index: region ranges become tasks, tasks become batches,
  and every batch is one transaction that reads rows in handle order and writes
  their index entries.  Handles are int64 values, so every `Handle`-typed result
  below is also a proof that the Go arithmetic does not overflow.
 */
module Backfill {
  const MIN_HANDLE: int := -0x8000_0000_0000_0000
  const MAX_HANDLE: int := 0x7fff_ffff_ffff_ffff

  type Handle = h: int | MIN_HANDLE <= h <= MAX_HANDLE witness 0

  // ---------- index keys ----------

  datatype Datum = Null | Value(v: int)
  type Vals = seq<Datum>

  /** A key of a unique index without NULLs holds no handle; every other key ends in it. */
  datatype Key = Distinct(vals: Vals) | Plain(vals: Vals, handle: int)

  /** The index values of every row, by handle. */
  type Rows = map<Handle, Vals>

  /** The stored entries; a `Plain` key always leads to the handle it holds. */
  type Entries = map<Key, Handle>

  function GenIndexKey(unique: bool, vals: Vals, h: int): Key {
    if unique && Null !in vals then Distinct(vals) else Plain(vals, h)
  }

  function KeyAt(unique: bool, rows: Rows, h: Handle): Key
    requires h in rows
  {
    GenIndexKey(unique, rows[h], h)
  }

  ghost predicate HasEntry(unique: bool, rows: Rows, index: Entries, h: Handle) {
    h in rows && KeyAt(unique, rows, h) in index && index[KeyAt(unique, rows, h)] == h
  }

  ghost predicate PlainOwn(index: Entries) {
    forall k :: k in index && k.Plain? ==> index[k] == k.handle
  }

  /** The rows of `hs` can all get their entry: no key is taken, none is claimed twice. */
  ghost predicate NoConflict(unique: bool, rows: Rows, index: Entries, hs: set<Handle>)
    requires hs <= rows.Keys
  {
    && (forall h :: h in hs && KeyAt(unique, rows, h) in index ==> index[KeyAt(unique, rows, h)] == h)
    && (forall g, h :: g in hs && h in hs && KeyAt(unique, rows, g) == KeyAt(unique, rows, h) ==> g == h)
  }

  /** `index'` is `index` with an entry for every row of `hs`, and nothing else changed. */
  ghost predicate Added(unique: bool, rows: Rows, index: Entries, hs: set<Handle>, index': Entries) {
    && (forall k :: k in index ==> k in index' && index'[k] == index[k])
    && (forall h :: h in hs ==> HasEntry(unique, rows, index', h))
    && (forall k :: k in index' && k !in index ==>
          index'[k] in hs && index'[k] in rows && KeyAt(unique, rows, index'[k]) == k)
  }

  ghost function RowsIn(rows: Rows, lo: int, hi: int): set<Handle> {
    set h | h in rows && lo <= h < hi
  }

  /** Two rows of a unique index hold the same values, and none of these is NULL. */
  ghost predicate Duplicated(unique: bool, rows: Rows, g: Handle, h: Handle) {
    unique && g in rows && h in rows && g != h && rows[g] == rows[h] && Null !in rows[g]
  }

  /** Exactly such rows ask for one key. */
  lemma SameKey(unique: bool, rows: Rows, g: Handle, h: Handle)
    requires g in rows && h in rows && g != h
    ensures KeyAt(unique, rows, g) == KeyAt(unique, rows, h) <==> Duplicated(unique, rows, g, h)
  {
  }

  // ---------- handles in order ----------

  ghost predicate Sorted(s: seq<Handle>) {
    forall i, j :: 0 <= i < j < |s| ==> s[i] < s[j]
  }

  /** The handles in [lo, hi) among the first n of `s`, in order. */
  ghost function FirstBetween(s: seq<Handle>, n: nat, lo: int, hi: int): seq<Handle>
    requires n <= |s|
  {
    if n == 0 then []
    else if lo <= s[n - 1] < hi then FirstBetween(s, n - 1, lo, hi) + [s[n - 1]]
    else FirstBetween(s, n - 1, lo, hi)
  }

  ghost function Between(s: seq<Handle>, lo: int, hi: int): seq<Handle> {
    FirstBetween(s, |s|, lo, hi)
  }

  ghost predicate AmongFirst(s: seq<Handle>, n: nat, h: int)
    requires n <= |s|
  {
    exists i :: 0 <= i < n && s[i] == h
  }

  lemma {:induction false} FirstMembers(s: seq<Handle>, n: nat, lo: int, hi: int, h: int)
    requires n <= |s|
    ensures h in FirstBetween(s, n, lo, hi) <==> lo <= h < hi && AmongFirst(s, n, h)
  {
    if n == 0 {
    } else {
      FirstMembers(s, n - 1, lo, hi, h);
      assert AmongFirst(s, n, h) <==> AmongFirst(s, n - 1, h) || s[n - 1] == h;
      var front := FirstBetween(s, n - 1, lo, hi);
      assert h in front + [s[n - 1]] <==> h in front || h == s[n - 1];
    }
  }

  lemma BetweenMembers(s: seq<Handle>, lo: int, hi: int)
    ensures forall h :: h in Between(s, lo, hi) <==> h in s && lo <= h < hi
  {
    forall h ensures h in Between(s, lo, hi) <==> h in s && lo <= h < hi {
      FirstMembers(s, |s|, lo, hi, h);
      assert AmongFirst(s, |s|, h) <==> h in s;
    }
  }

  lemma {:induction false} FirstEmpty(s: seq<Handle>, n: nat, lo: int, hi: int)
    requires n <= |s| && forall i :: 0 <= i < n ==> s[i] < lo || hi <= s[i]
    ensures FirstBetween(s, n, lo, hi) == []
  {
    if n == 0 {
    } else {
      FirstEmpty(s, n - 1, lo, hi);
    }
  }

  lemma BetweenEmpty(s: seq<Handle>, lo: int, hi: int)
    requires forall i :: 0 <= i < |s| ==> s[i] < lo || hi <= s[i]
    ensures Between(s, lo, hi) == []
  {
    FirstEmpty(s, |s|, lo, hi);
  }

  lemma {:induction false} FirstSorted(s: seq<Handle>, n: nat, lo: int, hi: int)
    requires Sorted(s) && n <= |s|
    ensures Sorted(FirstBetween(s, n, lo, hi))
    ensures forall h :: h in FirstBetween(s, n, lo, hi) ==> n > 0 && h <= s[n - 1]
  {
    if n == 0 {
    } else {
      FirstSorted(s, n - 1, lo, hi);
      var b := FirstBetween(s, n - 1, lo, hi);
      assert forall i :: 0 <= i < |b| ==> b[i] in b;
    }
  }

  lemma BetweenSorted(s: seq<Handle>, lo: int, hi: int)
    requires Sorted(s)
    ensures Sorted(Between(s, lo, hi))
  {
    FirstSorted(s, |s|, lo, hi);
  }

  lemma {:induction false} FirstSame(s: seq<Handle>, n: nat, lo: int, hi: int, lo': int, hi': int)
    requires n <= |s| && forall i :: 0 <= i < n ==> (lo <= s[i] < hi <==> lo' <= s[i] < hi')
    ensures FirstBetween(s, n, lo, hi) == FirstBetween(s, n, lo', hi')
  {
    if n == 0 {
    } else {
      FirstSame(s, n - 1, lo, hi, lo', hi');
    }
  }

  /** What comes after the first n does not count if it is past the range. */
  lemma {:induction false} FirstIsAll(s: seq<Handle>, n: nat, m: nat, lo: int, hi: int)
    requires Sorted(s) && n <= m <= |s| && (n < |s| ==> hi <= s[n])
    ensures FirstBetween(s, m, lo, hi) == FirstBetween(s, n, lo, hi)
    decreases m
  {
    if m == n {
    } else {
      FirstIsAll(s, n, m - 1, lo, hi);
      assert s[n] <= s[m - 1];
    }
  }

  lemma {:induction false} FirstSplit(s: seq<Handle>, n: nat, lo: int, mid: int, hi: int)
    requires Sorted(s) && n <= |s| && lo <= mid <= hi
    ensures FirstBetween(s, n, lo, hi) == FirstBetween(s, n, lo, mid) + FirstBetween(s, n, mid, hi)
  {
    if n == 0 {
    } else {
      FirstSplit(s, n - 1, lo, mid, hi);
      var last := s[n - 1];
      if last < mid {
        FirstEmpty(s, n, mid, hi);
        FirstEmpty(s, n - 1, mid, hi);
        var left := FirstBetween(s, n - 1, lo, mid);
        assert left + [] == left;
        assert FirstBetween(s, n, lo, mid) + [] == FirstBetween(s, n, lo, mid);
      }
    }
  }

  lemma BetweenSplit(s: seq<Handle>, lo: int, mid: int, hi: int)
    requires Sorted(s) && lo <= mid <= hi
    ensures Between(s, lo, hi) == Between(s, lo, mid) + Between(s, mid, hi)
  {
    FirstSplit(s, |s|, lo, mid, hi);
  }

  // ---------- one batch ----------

  datatype Task = Task(startHandle: Handle, endHandle: Handle, endIncluded: bool)

  /** The first handle past a backfill range, as a mathematical integer. */
  function Upper(t: Task): int {
    if t.endIncluded then t.endHandle + 1 else t.endHandle
  }

  function GetNextHandle(t: Task, last: Handle, done: bool): Handle
    requires !done ==> last < MAX_HANDLE
  {
    if !done then last + 1
    else if t.endHandle == MAX_HANDLE || !t.endIncluded then t.endHandle
    else t.endHandle + 1
  }

  /** How far a batch or task has come: a finished one has passed its whole range. */
  function Reached(t: Task, next: Handle, done: bool): int {
    if done then Upper(t) else next
  }

  lemma FirstUpTo(s: seq<Handle>, i: nat, lo: int, hi: int)
    requires Sorted(s) && 0 < i <= |s| && s[i - 1] < hi
    ensures Between(s, lo, s[i - 1] as int + 1) == FirstBetween(s, i, lo, hi)
  {
    FirstIsAll(s, i, |s|, lo, s[i - 1] as int + 1);
    forall j | 0 <= j < i ensures s[j] <= s[i - 1] {}
    FirstSame(s, i, lo, hi, lo, s[i - 1] as int + 1);
  }

  /** The position of the first handle at or after `start`. */
  method Seek(order: seq<Handle>, start: Handle) returns (i: nat)
    requires Sorted(order)
    ensures i <= |order| && (i < |order| ==> start <= order[i])
    ensures forall j :: 0 <= j < i ==> order[j] < start
  {
    i := 0;
    while i < |order| && order[i] < start
      invariant i <= |order| && forall j :: 0 <= j < i ==> order[j] < start
    {
      i := i + 1;
    }
  }

  /** The last row taken is the one before position i, and it is not the end of the range. */
  ghost predicate StopsAfter(order: seq<Handle>, t: Task, recs: seq<Handle>, i: nat) {
    0 < i <= |order| && recs != [] && recs[|recs| - 1] == order[i - 1] && t.startHandle <= order[i - 1] < t.endHandle
  }

  /** The snapshot iteration of one batch; it stops at position i of the table. */
  method IterateSnapshotRows(order: seq<Handle>, t: Task, batchCnt: nat) returns (recs: seq<Handle>, i: nat, done: bool)
    requires Sorted(order) && 1 <= batchCnt
    ensures i <= |order| && |recs| <= batchCnt
    ensures recs == FirstBetween(order, i, t.startHandle, Upper(t))
    ensures done || |recs| < batchCnt ==> i < |order| ==> Upper(t) <= order[i]
    ensures !done && recs != [] ==> StopsAfter(order, t, recs, i)
    ensures done <==> recs != [] && recs[|recs| - 1] == t.endHandle
  {
    recs, done := [], false;
    i := Seek(order, t.startHandle);
    FirstEmpty(order, i, t.startHandle, Upper(t));
    while i < |order| && order[i] < Upper(t)
      invariant i <= |order| && |recs| <= batchCnt && !done
      invariant i < |order| ==> t.startHandle <= order[i]
      invariant recs == FirstBetween(order, i, t.startHandle, Upper(t))
      invariant recs != [] ==> StopsAfter(order, t, recs, i)
    {
      var handle := order[i];
      done := if t.endIncluded then handle > t.endHandle else handle >= t.endHandle;
      if done || |recs| >= batchCnt { break; }
      recs := recs + [handle];
      i := i + 1;
      if handle == t.endHandle {
        done := true;
        break;
      }
    }
  }

  /** A batch is as large as allowed, unless it has all rows of the range. */
  ghost predicate FullBatch(order: seq<Handle>, t: Task, batchCnt: nat, recs: seq<Handle>) {
    |recs| <= batchCnt && (|recs| < batchCnt ==> recs == Between(order, t.startHandle, Upper(t)))
  }

  /** The rows of the next batch, where to go on, and whether the range is done. */
  method FetchRowColVals(order: seq<Handle>, t: Task, batchCnt: nat)
    returns (recs: seq<Handle>, next: Handle, done: bool)
    requires Sorted(order) && 1 <= batchCnt
    ensures recs == Between(order, t.startHandle, Reached(t, next, done))
    ensures FullBatch(order, t, batchCnt, recs)
    ensures done ==> next == GetNextHandle(t, next, true)
    ensures done <==> recs == [] || recs[|recs| - 1] == t.endHandle
    ensures !done ==> t.startHandle < next <= Upper(t) && recs != []
  {
    var i;
    recs, i, done := IterateSnapshotRows(order, t, batchCnt);
    if |recs| == 0 { done := true; }
    if done || |recs| < batchCnt {
      FirstIsAll(order, i, |order|, t.startHandle, Upper(t));
    }
    if done {
      next := GetNextHandle(t, t.endHandle, true);
    } else {
      FirstUpTo(order, i, t.startHandle, Upper(t));
      next := GetNextHandle(t, recs[|recs| - 1], false);
    }
  }

  ghost function ToSet(s: seq<Handle>): set<Handle> {
    set h | h in s
  }

  ghost predicate Clash(index: Entries, keys: seq<Key>, recs: seq<Handle>, i: nat)
    requires |keys| == |recs| && i < |keys|
  {
    || (keys[i] in index && index[keys[i]] != recs[i])
    || exists j :: 0 <= j < i && keys[j] == keys[i]
  }

  /** The loop over the batch: what the store holds and what the batch itself adds, in one map. */
  method CheckKeys(index: Entries, keys: seq<Key>, recs: seq<Handle>) returns (ok: bool, skip: seq<bool>)
    requires |keys| == |recs| && Sorted(recs) && PlainOwn(index)
    requires forall i :: 0 <= i < |keys| && keys[i].Plain? ==> keys[i].handle == recs[i]
    ensures ok <==> forall i: nat :: i < |keys| ==> !Clash(index, keys, recs, i)
    ensures ok ==> |skip| == |keys| && forall i :: 0 <= i < |keys| ==> (skip[i] <==> keys[i] in index)
  {
    var batchVals := index;
    skip := [];
    var i: nat := 0;
    while i < |keys|
      invariant i <= |keys| && |skip| == i
      invariant forall j: nat :: j < i ==> !Clash(index, keys, recs, j)
      invariant forall j :: 0 <= j < i ==> (skip[j] <==> keys[j] in index)
      invariant forall k :: k in index ==> k in batchVals && batchVals[k] == index[k]
      invariant forall k :: k in batchVals && k !in index ==> exists j :: 0 <= j < i && keys[j] == k && batchVals[k] == recs[j]
      invariant forall j :: 0 <= j < i && keys[j].Distinct? ==> keys[j] in batchVals && batchVals[keys[j]] == recs[j]
      invariant forall k :: k in batchVals && k !in index ==> k.Distinct?
    {
      var key := keys[i];
      if key in batchVals {
        if key.Distinct? && batchVals[key] != recs[i] {
          assert Clash(index, keys, recs, i);
          return false, [];
        }
        skip := skip + [true];
      } else {
        skip := skip + [false];
        if key.Distinct? {
          batchVals := batchVals[key := recs[i]];
        }
      }
      i := i + 1;
    }
    ok := true;
  }

  lemma NoClash(unique: bool, rows: Rows, index: Entries, keys: seq<Key>, recs: seq<Handle>)
    requires |keys| == |recs| && Sorted(recs) && ToSet(recs) <= rows.Keys
    requires forall i :: 0 <= i < |recs| ==> recs[i] in ToSet(recs) && keys[i] == KeyAt(unique, rows, recs[i])
    ensures (forall i: nat :: i < |keys| ==> !Clash(index, keys, recs, i)) <==> NoConflict(unique, rows, index, ToSet(recs))
  {
    if forall i: nat :: i < |keys| ==> !Clash(index, keys, recs, i) {
      forall h | h in ToSet(recs) && KeyAt(unique, rows, h) in index ensures index[KeyAt(unique, rows, h)] == h {
        var i: nat :| i < |recs| && recs[i] == h;
        assert !Clash(index, keys, recs, i);
      }
      forall g, h | g in ToSet(recs) && h in ToSet(recs) && KeyAt(unique, rows, g) == KeyAt(unique, rows, h) ensures g == h {
        var i: nat, j: nat :| i < |recs| && recs[i] == g && j < |recs| && recs[j] == h;
        assert !Clash(index, keys, recs, i) && !Clash(index, keys, recs, j) && keys[i] == keys[j];
      }
    } else {
      var i: nat :| i < |keys| && Clash(index, keys, recs, i);
      if keys[i] !in index || index[keys[i]] == recs[i] {
        var j: nat :| j < i && keys[j] == keys[i];
        assert recs[j] != recs[i] && recs[j] in ToSet(recs);
      }
    }
  }

  /** Finds the rows whose key is there already, or a key that belongs to another row. */
  method BatchCheckUniqueKey(unique: bool, rows: Rows, index: Entries, recs: seq<Handle>)
    returns (ok: bool, skip: seq<bool>)
    requires Sorted(recs) && PlainOwn(index) && ToSet(recs) <= rows.Keys
    ensures ok <==> NoConflict(unique, rows, index, ToSet(recs))
    ensures ok ==> |skip| == |recs|
    ensures ok ==> forall i :: 0 <= i < |recs| ==>
                     (skip[i] <==> unique && KeyAt(unique, rows, recs[i]) in index)
  {
    if !unique {
      return true, seq(|recs|, _ => false);
    }
    assert forall i :: 0 <= i < |recs| ==> recs[i] in ToSet(recs);
    var keys := seq(|recs|, i requires 0 <= i < |recs| => KeyAt(unique, rows, recs[i]));
    NoClash(unique, rows, index, keys, recs);
    ok, skip := CheckKeys(index, keys, recs);
  }

  /** Writes the entries of the rows that are not skipped. */
  method CreateEntries(unique: bool, rows: Rows, index: Entries, recs: seq<Handle>, skip: seq<bool>)
    returns (index': Entries)
    requires ToSet(recs) <= rows.Keys && NoConflict(unique, rows, index, ToSet(recs)) && |skip| == |recs|
    requires forall i :: 0 <= i < |recs| && skip[i] ==> KeyAt(unique, rows, recs[i]) in index
    ensures Added(unique, rows, index, ToSet(recs), index')
  {
    index' := index;
    var i := 0;
    while i < |recs|
      invariant 0 <= i <= |recs|
      invariant forall k :: k in index ==> k in index' && index'[k] == index[k]
      invariant forall j :: 0 <= j < i ==> HasEntry(unique, rows, index', recs[j])
      invariant forall k :: k in index' && k !in index ==>
                  index'[k] in ToSet(recs) && KeyAt(unique, rows, index'[k]) == k
    {
      var h := recs[i];
      assert h in ToSet(recs);
      if !skip[i] {
        index' := index'[KeyAt(unique, rows, h) := h];
      }
      i := i + 1;
    }
  }

  /** One backfill transaction; `ok` is false when it ends in a duplicate-key error. */
  method BackfillIndexInTxn(unique: bool, rows: Rows, order: seq<Handle>, index: Entries, t: Task, batchCnt: nat)
    returns (ok: bool, index': Entries, next: Handle, done: bool, scanned: seq<Handle>)
    requires Sorted(order) && ToSet(order) == rows.Keys && PlainOwn(index) && 1 <= batchCnt
    ensures scanned == Between(order, t.startHandle, Reached(t, next, done)) && FullBatch(order, t, batchCnt, scanned)
    ensures done ==> next == GetNextHandle(t, next, true)
    ensures !done ==> t.startHandle < next <= Upper(t)
    ensures ok <==> NoConflict(unique, rows, index, RowsIn(rows, t.startHandle, Reached(t, next, done)))
    ensures ok ==> Added(unique, rows, index, RowsIn(rows, t.startHandle, Reached(t, next, done)), index')
    ensures !ok ==> index' == index
  {
    scanned, next, done := FetchRowColVals(order, t, batchCnt);
    BetweenMembers(order, t.startHandle, Reached(t, next, done));
    BetweenSorted(order, t.startHandle, Reached(t, next, done));
    assert RowsIn(rows, t.startHandle, Reached(t, next, done)) == ToSet(scanned);
    var skip;
    ok, skip := BatchCheckUniqueKey(unique, rows, index, scanned);
    index' := index;
    if ok {
      index' := CreateEntries(unique, rows, index, scanned, skip);
    }
  }

  // ---------- one task ----------

  datatype Error = NoError | KeyExists | NotRunnable

  lemma AddedTwice(unique: bool, rows: Rows, index: Entries, hs: set<Handle>, index1: Entries, hs1: set<Handle>, index2: Entries)
    requires Added(unique, rows, index, hs, index1) && Added(unique, rows, index1, hs1, index2)
    ensures Added(unique, rows, index, hs + hs1, index2)
  {
    forall h | h in hs ensures HasEntry(unique, rows, index2, h) {
      assert HasEntry(unique, rows, index1, h);
    }
  }

  /** A key that is taken now was taken at the start or is claimed by two rows. */
  lemma ConflictFromStart(unique: bool, rows: Rows, index: Entries, hs: set<Handle>, index1: Entries, hs1: set<Handle>, all: set<Handle>)
    requires hs <= all && hs1 <= all <= rows.Keys && Added(unique, rows, index, hs, index1)
    requires !NoConflict(unique, rows, index1, hs1)
    ensures !NoConflict(unique, rows, index, all)
  {
  }

  lemma AddedPlainOwn(unique: bool, rows: Rows, index: Entries, hs: set<Handle>, index': Entries)
    requires PlainOwn(index) && Added(unique, rows, index, hs, index')
    ensures PlainOwn(index')
  {
  }

  lemma AddedNoConflict(unique: bool, rows: Rows, index: Entries, hs: set<Handle>, index': Entries)
    requires hs <= rows.Keys && Added(unique, rows, index, hs, index')
    ensures NoConflict(unique, rows, index, hs)
  {
    assert forall h :: h in hs ==> HasEntry(unique, rows, index', h);
  }

  /** A task whose batches came as far as `reached`. */
  ghost predicate TaskProgress(unique: bool, rows: Rows, order: seq<Handle>, index: Entries, start: Handle, reached: int,
                               index': Entries, scanned: seq<Handle>) {
    && PlainOwn(index') && Added(unique, rows, index, RowsIn(rows, start, reached), index')
    && scanned == Between(order, start, reached)
  }

  lemma TaskStep(unique: bool, rows: Rows, order: seq<Handle>, index: Entries, start: Handle, mid: int, reached: int,
                 index1: Entries, scanned: seq<Handle>, index2: Entries, recs: seq<Handle>)
    requires Sorted(order) && start <= mid <= reached
    requires TaskProgress(unique, rows, order, index, start, mid, index1, scanned)
    requires Added(unique, rows, index1, RowsIn(rows, mid, reached), index2)
    requires recs == Between(order, mid, reached)
    ensures TaskProgress(unique, rows, order, index, start, reached, index2, scanned + recs)
  {
    AddedTwice(unique, rows, index, RowsIn(rows, start, mid), index1, RowsIn(rows, mid, reached), index2);
    AddedPlainOwn(unique, rows, index1, RowsIn(rows, mid, reached), index2);
    assert RowsIn(rows, start, mid) + RowsIn(rows, mid, reached) == RowsIn(rows, start, reached);
    BetweenSplit(order, start, mid, reached);
  }

  /** The rows of one batch from `next` on cannot all get their entries. */
  ghost predicate BatchConflict(unique: bool, rows: Rows, order: seq<Handle>, index: Entries, task: Task, next: Handle, batchCnt: nat) {
    exists reached :: |Between(order, next, reached)| <= batchCnt && reached <= Upper(task)
                      && !NoConflict(unique, rows, index, RowsIn(rows, next, reached))
  }

  /** Runs batch after batch until the range of a worker is done; `runnable(n)` is the check before batch n. */
  method HandleBackfillTask(unique: bool, rows: Rows, order: seq<Handle>, index: Entries, task: Task,
                            batchCnt: nat, runnable: nat -> bool)
    returns (err: Error, next: Handle, index': Entries, scanned: seq<Handle>, ghost batches: nat)
    requires Sorted(order) && ToSet(order) == rows.Keys && PlainOwn(index) && 1 <= batchCnt
    requires task.startHandle <= Upper(task)
    ensures err == NoError ==> next == GetNextHandle(task, next, true)
    ensures err != NoError ==> task.startHandle <= next <= Upper(task)
    ensures TaskProgress(unique, rows, order, index, task.startHandle, Reached(task, next, err == NoError), index', scanned)
    ensures err == KeyExists ==> !NoConflict(unique, rows, index, RowsIn(rows, task.startHandle, Upper(task)))
    ensures err == KeyExists ==> BatchConflict(unique, rows, order, index', task, next, batchCnt)
    ensures (forall n :: 0 <= n < batches ==> runnable(n)) && |scanned| <= batches * batchCnt
    ensures err == NotRunnable ==> !runnable(batches)
  {
    err, next, index', scanned, batches := NoError, task.startHandle, index, [], 0;
    BetweenEmpty(order, task.startHandle, task.startHandle);
    var n := 0;
    while true
      invariant task.startHandle <= next <= Upper(task)
      invariant batches == n && (forall m :: 0 <= m < n ==> runnable(m)) && |scanned| <= n * batchCnt
      invariant TaskProgress(unique, rows, order, index, task.startHandle, next, index', scanned)
      decreases Upper(task) - next
    {
      if !runnable(n) {
        return NotRunnable, next, index', scanned, batches;
      }
      var ok, grown, nextHandle, done, recs :=
        BackfillIndexInTxn(unique, rows, order, index', task.(startHandle := next), batchCnt);
      ghost var reached := Reached(task, nextHandle, done);
      if !ok {
        ConflictFromStart(unique, rows, index, RowsIn(rows, task.startHandle, next), index', RowsIn(rows, next, reached),
                          RowsIn(rows, task.startHandle, Upper(task)));
        return KeyExists, next, index', scanned, batches;
      }
      TaskStep(unique, rows, order, index, task.startHandle, next, reached, index', scanned, grown, recs);
      scanned, index', next := scanned + recs, grown, nextHandle;
      n, batches := n + 1, n + 1;
      if done { return NoError, next, index', scanned, batches; }
    }
  }

  // ---------- one round of tasks ----------

  datatype Result = Result(next: Handle, err: Error)

  /** The length of the unbroken run of successes at the front. */
  function Successes(results: seq<Result>): nat {
    if results == [] || results[0].err != NoError then 0 else 1 + Successes(results[1..])
  }

  lemma {:induction false} SuccessesAt(results: seq<Result>, k: nat)
    requires k <= |results| && (forall i :: 0 <= i < k ==> results[i].err == NoError)
    requires k < |results| ==> results[k].err != NoError
    ensures Successes(results) == k
  {
    if k == 0 {
    } else {
      SuccessesAt(results[1..], k - 1);
    }
  }

  lemma {:induction false} SuccessesArePrefix(results: seq<Result>)
    ensures Successes(results) <= |results|
    ensures forall i :: 0 <= i < Successes(results) ==> results[i].err == NoError
  {
    if results == [] || results[0].err != NoError {
    } else {
      SuccessesArePrefix(results[1..]);
      assert forall i :: 0 < i < Successes(results) ==> results[i] == results[1..][i - 1];
    }
  }

  /** Only the unbroken prefix of finished tasks moves the resume point. */
  method WaitTaskResults(results: seq<Result>, startHandle: Handle) returns (nextHandle: Handle, firstErr: Error)
    ensures var k := Successes(results);
            && k <= |results|
            && nextHandle == (if k == 0 then startHandle else results[k - 1].next)
            && firstErr == (if k == |results| then NoError else results[k].err)
  {
    nextHandle, firstErr := startHandle, NoError;
    ghost var k := 0;
    var i := 0;
    while i < |results|
      invariant 0 <= k <= i <= |results|
      invariant forall j :: 0 <= j < k ==> results[j].err == NoError
      invariant if firstErr == NoError then k == i else k < i && results[k].err == firstErr != NoError
      invariant nextHandle == if k == 0 then startHandle else results[k - 1].next
    {
      var result := results[i];
      if firstErr == NoError && result.err != NoError {
        firstErr := result.err;
      } else if firstErr == NoError {
        nextHandle := result.next;
        k := i + 1;
      }
      i := i + 1;
    }
    SuccessesAt(results, k);
  }

  // ---------- region ranges ----------

  /** A key of the record space: the record key of `h`, followed by `suffix` in the order of what follows it. */
  datatype Bound = Bound(h: Handle, suffix: nat)

  predicate Before(a: Bound, b: Bound) {
    a.h < b.h || (a.h == b.h && a.suffix < b.suffix)
  }

  /** The borders of the ranges that cover the record keys of [start, end]; the last key is RecordKey(end).Next(). */
  ghost predicate ValidSplit(bs: seq<Bound>, start: Handle, end: Handle) {
    && 2 <= |bs| && bs[0] == Bound(start, 0) && bs[|bs| - 1] == Bound(end, 1)
    && forall i, j :: 0 <= i < j < |bs| ==> Before(bs[i], bs[j])
  }

  /** Every inner border is exactly a record key. */
  ghost predicate Exact(bs: seq<Bound>) {
    forall i :: 0 <= i < |bs| - 1 ==> bs[i].suffix == 0
  }

  function TaskOf(a: Bound, b: Bound): Task {
    Task(a.h, b.h, b.suffix > 0)
  }

  predicate InTask(t: Task, h: Handle) {
    t.startHandle <= h < Upper(t)
  }

  predicate InRange(bs: seq<Bound>, i: nat, h: Handle)
    requires i + 1 < |bs|
  {
    InTask(TaskOf(bs[i], bs[i + 1]), h)
  }

  /** The range that holds the record key of a handle. */
  lemma {:induction false} RangeOf(bs: seq<Bound>, start: Handle, end: Handle, h: Handle) returns (i: nat)
    requires ValidSplit(bs, start, end) && start <= h <= end
    ensures i + 1 < |bs| && !Before(Bound(h, 0), bs[i]) && Before(Bound(h, 0), bs[i + 1]) && InRange(bs, i, h)
  {
    i := 0;
    while !Before(Bound(h, 0), bs[i + 1])
      invariant i + 1 < |bs| && !Before(Bound(h, 0), bs[i])
      decreases |bs| - i
    {
      i := i + 1;
    }
  }

  lemma SharedHandle(bs: seq<Bound>, start: Handle, end: Handle, h: Handle, i: nat, j: nat)
    requires ValidSplit(bs, start, end) && i < j && j + 1 < |bs| && InRange(bs, i, h) && InRange(bs, j, h)
    ensures bs[i + 1].h == h && bs[i + 1].suffix > 0
  {
    assert i + 1 < j ==> Before(bs[i + 1], bs[j]);
  }

  /** No handle is left out of a round's tasks; one is in two tasks exactly when a border lies inside its record. */
  lemma TasksCoverOnce(bs: seq<Bound>, start: Handle, end: Handle, h: Handle)
    requires ValidSplit(bs, start, end) && start <= h <= end
    ensures exists i: nat :: i + 1 < |bs| && InRange(bs, i, h)
    ensures (exists i: nat, j: nat :: i < j && j + 1 < |bs| && InRange(bs, i, h) && InRange(bs, j, h))
       <==> exists b :: 0 < b < |bs| - 1 && bs[b].h == h && bs[b].suffix > 0
  {
    var r := RangeOf(bs, start, end, h);
    if b: nat :| 0 < b < |bs| - 1 && bs[b].h == h && bs[b].suffix > 0 {
      assert Before(bs[b], bs[b + 1]) && InRange(bs, b, h);
      assert r < b;
    }
    if i: nat, j: nat :| i < j && j + 1 < |bs| && InRange(bs, i, h) && InRange(bs, j, h) {
      SharedHandle(bs, start, end, h, i, j);
    }
  }

  // ---------- the rounds ----------

  /** The number of workers of each round, and how the regions lie when it starts. */
  datatype Store = Store(workerCnt: nat -> nat, regions: (nat, Handle, Handle) -> seq<Bound>)

  ghost predicate ValidRound(st: Store, r: nat, start: Handle, end: Handle) {
    1 <= st.workerCnt(r) && (start <= end ==> ValidSplit(st.regions(r, start, end), start, end))
  }

  ghost predicate ValidStore(st: Store) {
    forall r, s, e :: ValidRound(st, r, s, e)
  }

  ghost predicate ExactAt(st: Store, r: nat, start: Handle, end: Handle) {
    start <= end ==> Exact(st.regions(r, start, end))
  }

  ghost predicate ExactStore(st: Store) {
    forall r, s, e :: ExactAt(st, r, s, e)
  }

  /** Where the next round starts; past the end if no range remains. */
  function NextStart(bs: seq<Bound>, n: nat, end: Handle): int {
    if n < |bs| - 1 then bs[n].h else end + 1
  }

  /** The handle at which round `r` starts if no round before it fails; past the end if there is no such round. */
  function Cursor(st: Store, start: Handle, end: Handle, r: nat): (c: int)
    requires start <= end
    ensures MIN_HANDLE <= c
  {
    if r == 0 then start
    else
      var c := Cursor(st, start, end, r - 1);
      if c > end then end + 1 else NextStart(st.regions(r - 1, c, end), st.workerCnt(r - 1), end)
  }

  ghost predicate Ends(st: Store, start: Handle, end: Handle)
    requires start <= end
  {
    exists r :: Cursor(st, start, end, r) > end
  }

  /** The range after those of the round starts inside the very record that the round started with. */
  predicate Stuck(st: Store, r: nat, c: Handle, end: Handle) {
    var bs := st.regions(r, c, end);
    st.workerCnt(r) < |bs| - 1 && bs[st.workerCnt(r)].h == c
  }

  ghost predicate StuckFrom(st: Store, start: Handle, end: Handle, r: nat)
    requires start <= end
  {
    Cursor(st, start, end, r) <= end && forall q :: r <= q ==> Stuck(st, q, Cursor(st, start, end, r), end)
  }

  lemma CursorMoves(st: Store, start: Handle, end: Handle, r: nat)
    requires ValidStore(st) && start <= end && Cursor(st, start, end, r) <= end
    ensures var c := Cursor(st, start, end, r);
            if Stuck(st, r, c, end) then Cursor(st, start, end, r + 1) == c else Cursor(st, start, end, r + 1) > c
  {
    var c: Handle := Cursor(st, start, end, r);
    var bs, n := st.regions(r, c, end), st.workerCnt(r);
    assert ValidRound(st, r, c, end);
    if n < |bs| - 1 {
      assert Before(bs[0], bs[n]);
    }
  }

  lemma {:induction false} EndedStays(st: Store, start: Handle, end: Handle, r: nat, q: nat)
    requires start <= end && r <= q && Cursor(st, start, end, r) > end
    ensures Cursor(st, start, end, q) > end
  {
    if q == r {
    } else {
      EndedStays(st, start, end, r, q - 1);
    }
  }

  lemma {:induction false} StuckStays(st: Store, start: Handle, end: Handle, r: nat, q: nat)
    requires ValidStore(st) && start <= end && r <= q && StuckFrom(st, start, end, r)
    ensures Cursor(st, start, end, q) == Cursor(st, start, end, r)
  {
    if q == r {
    } else {
      StuckStays(st, start, end, r, q - 1);
      CursorMoves(st, start, end, q - 1);
    }
  }

  /** The cursor moves on not later than in the first round that is not stuck. */
  lemma {:induction false} MovesBy(st: Store, start: Handle, end: Handle, r: nat, q: nat) returns (m: nat)
    requires ValidStore(st) && start <= end && r <= q && Cursor(st, start, end, r) <= end
    requires !Stuck(st, q, Cursor(st, start, end, r), end)
    ensures Cursor(st, start, end, m) > Cursor(st, start, end, r)
    decreases q - r
  {
    CursorMoves(st, start, end, r);
    if Stuck(st, r, Cursor(st, start, end, r), end) {
      m := MovesBy(st, start, end, r + 1, q);
    } else {
      m := r + 1;
    }
  }

  lemma {:induction false} EndsFrom(st: Store, start: Handle, end: Handle, r: nat) returns (m: nat)
    requires ValidStore(st) && start <= end && forall q :: !StuckFrom(st, start, end, q)
    ensures Cursor(st, start, end, m) > end
    decreases end + 1 - Cursor(st, start, end, r)
  {
    if Cursor(st, start, end, r) > end {
      m := r;
    } else {
      assert !StuckFrom(st, start, end, r);
      var q :| r <= q && !Stuck(st, q, Cursor(st, start, end, r), end);
      var n := MovesBy(st, start, end, r, q);
      m := EndsFrom(st, start, end, n);
    }
  }

  /** Main result: rounds without a failure come to an end if and only if they are not stuck in one record for ever. */
  lemma RoundsEnd(st: Store, start: Handle, end: Handle)
    requires ValidStore(st) && start <= end
    ensures Ends(st, start, end) <==> !exists r :: StuckFrom(st, start, end, r)
  {
    if r :| StuckFrom(st, start, end, r) {
      forall q ensures Cursor(st, start, end, q) <= end {
        if q < r {
          if Cursor(st, start, end, q) > end { EndedStays(st, start, end, q, r); }
        } else {
          StuckStays(st, start, end, r, q);
        }
      }
    } else {
      var m := EndsFrom(st, start, end, 0);
    }
  }

  /** Borders on record keys let the rounds end, whatever the number of workers. */
  lemma ExactEnds(st: Store, start: Handle, end: Handle)
    requires ValidStore(st) && ExactStore(st) && start <= end
    ensures Ends(st, start, end)
  {
    forall r ensures !StuckFrom(st, start, end, r) {
      var c := Cursor(st, start, end, r);
      if c <= end {
        var bs, n := st.regions(r, c, end), st.workerCnt(r);
        assert ValidRound(st, r, c, end) && ExactAt(st, r, c, end);
        assert n < |bs| - 1 ==> Before(bs[0], bs[n]) && bs[n].suffix == 0;
        assert !Stuck(st, r, c, end);
      }
    }
    RoundsEnd(st, start, end);
  }

  /** A border inside the first record. */
  function InsideFirst(r: nat, start: Handle, end: Handle): seq<Bound> {
    if start < end then [Bound(start, 0), Bound(start, 1), Bound(end, 1)] else [Bound(start, 0), Bound(end, 1)]
  }

  const INSIDE_FIRST := Store((r: nat) => 1, InsideFirst)

  /** One worker and such a border: the rounds never end. */
  lemma OneWorkerNeverEnds(start: Handle, end: Handle)
    requires start < end
    ensures ValidStore(INSIDE_FIRST) && !Ends(INSIDE_FIRST, start, end)
  {
    assert forall r, s, e :: ValidRound(INSIDE_FIRST, r, s, e);
    assert StuckFrom(INSIDE_FIRST, start, end, 0);
    RoundsEnd(INSIDE_FIRST, start, end);
  }

  // ---------- chains of tasks ----------

  /** What the tasks scan, one after the other. */
  ghost function ScanOf(order: seq<Handle>, tasks: seq<Task>): seq<Handle> {
    if tasks == [] then []
    else
      var t := tasks[|tasks| - 1];
      ScanOf(order, tasks[..|tasks| - 1]) + Between(order, t.startHandle, Upper(t))
  }

  /** How far a chain of tasks that begins at `start` comes. */
  function Top(start: int, tasks: seq<Task>): int {
    if tasks == [] then start else Upper(tasks[|tasks| - 1])
  }

  /** A task goes on where the last one stopped, or with the record in which that one stopped. */
  predicate Follows(top: int, t: Task) {
    top - 1 <= t.startHandle <= top && t.startHandle < Upper(t)
  }

  ghost predicate Chained(start: int, tasks: seq<Task>) {
    && (tasks != [] ==> tasks[0].startHandle == start && start < Upper(tasks[0]))
    && (forall i, j :: 0 <= i < j < |tasks| && j == i + 1 ==> Follows(Upper(tasks[i]), tasks[j]))
  }

  /** Two tasks of the chain scan one row. */
  ghost predicate RowTwice(order: seq<Handle>, tasks: seq<Task>) {
    exists i, j :: 0 <= i < j < |tasks| && j == i + 1 && tasks[j].startHandle < Upper(tasks[i]) && tasks[j].startHandle in order
  }

  lemma {:induction false} ChainGrows(start: int, tasks: seq<Task>)
    requires Chained(start, tasks) && tasks != []
    ensures start <= tasks[|tasks| - 1].startHandle < Top(start, tasks)
    decreases |tasks|
  {
    if |tasks| == 1 {
    } else {
      var front := tasks[..|tasks| - 1];
      ChainGrows(start, front);
      assert Follows(Upper(tasks[|tasks| - 2]), tasks[|tasks| - 1]);
    }
  }

  lemma ChainFront(start: int, tasks: seq<Task>)
    requires Chained(start, tasks) && tasks != []
    ensures var front, t := tasks[..|tasks| - 1], tasks[|tasks| - 1];
            && Chained(start, front) && Follows(Top(start, front), t) && start <= t.startHandle
            && (front == [] ==> t.startHandle == start) && start <= Top(start, front)
  {
    var front, t := tasks[..|tasks| - 1], tasks[|tasks| - 1];
    ChainGrows(start, tasks);
    if front != [] {
      assert Follows(Upper(tasks[|tasks| - 2]), t);
      ChainGrows(start, front);
    }
  }

  lemma ChainAppend(start: int, tasks: seq<Task>, next: int, more: seq<Task>)
    requires Chained(start, tasks) && Chained(next, more) && more != []
    requires if tasks == [] then next == start else Top(start, tasks) - 1 <= next <= Top(start, tasks)
    ensures Chained(start, tasks + more) && Top(start, tasks + more) == Top(next, more)
  {
  }

  lemma {:induction false} ScanAppend(order: seq<Handle>, tasks: seq<Task>, more: seq<Task>)
    ensures ScanOf(order, tasks + more) == ScanOf(order, tasks) + ScanOf(order, more)
    decreases |more|
  {
    if more == [] {
      assert tasks + more == tasks;
    } else {
      var front, t := more[..|more| - 1], more[|more| - 1];
      ScanAppend(order, tasks, front);
      var all := tasks + more;
      assert all[..|all| - 1] == tasks + front && all[|all| - 1] == t;
      var b := Between(order, t.startHandle, Upper(t));
      assert ScanOf(order, all) == ScanOf(order, tasks + front) + b;
      assert ScanOf(order, more) == ScanOf(order, front) + b;
    }
  }

  /** A task that goes on with the record of the last one scans one row more, if there is one. */
  lemma OverlapScan(order: seq<Handle>, start: int, top: int, t: Task)
    requires Sorted(order) && Follows(top, t) && start <= t.startHandle
    ensures var twice, all := t.startHandle < top && t.startHandle in order, Between(order, start, Upper(t));
            var scan := Between(order, start, top) + Between(order, t.startHandle, Upper(t));
            (!twice ==> scan == all) && (twice ==> |scan| > |all|)
  {
    var s := t.startHandle;
    BetweenSplit(order, start, top, Upper(t));
    BetweenSplit(order, s, top, Upper(t));
    var again := Between(order, s, top);
    if s < top && s in order {
      BetweenMembers(order, s, top);
      assert s in again;
    } else {
      BetweenEmpty(order, s, top);
      assert again + Between(order, top, Upper(t)) == Between(order, top, Upper(t));
    }
  }

  lemma RowTwiceFront(order: seq<Handle>, start: int, tasks: seq<Task>)
    requires tasks != []
    ensures var front, t := tasks[..|tasks| - 1], tasks[|tasks| - 1];
            RowTwice(order, tasks) <==>
              RowTwice(order, front) || (front != [] && t.startHandle < Top(start, front) && t.startHandle in order)
  {
    var front, n := tasks[..|tasks| - 1], |tasks| - 1;
    assert forall i :: 0 <= i < n ==> front[i] == tasks[i];
    if RowTwice(order, tasks) {
      var i, j :| 0 <= i < j < |tasks| && j == i + 1 && tasks[j].startHandle < Upper(tasks[i]) && tasks[j].startHandle in order;
      if j < n {
        assert front[j].startHandle < Upper(front[i]);
      }
    } else if front != [] {
      assert !(tasks[n].startHandle < Upper(tasks[n - 1]) && tasks[n].startHandle in order);
    }
  }

  lemma ScanStep(scan: seq<Handle>, all: seq<Handle>, b: seq<Handle>, all': seq<Handle>, before: bool, now: bool)
    requires (scan == all <==> !before) && |scan| >= |all|
    requires (!now ==> all + b == all') && (now ==> |all + b| > |all'|)
    ensures (scan + b == all' <==> !before && !now) && |scan + b| >= |all'|
  {
    assert scan == (scan + b)[..|scan|] && all == (all + b)[..|all|];
  }

  lemma {:induction false} ChainReads(order: seq<Handle>, start: int, tasks: seq<Task>, h: Handle)
    requires Sorted(order) && Chained(start, tasks)
    ensures h in ScanOf(order, tasks) <==> h in order && start <= h < Top(start, tasks)
    decreases |tasks|
  {
    if tasks == [] {
    } else {
      var front, t := tasks[..|tasks| - 1], tasks[|tasks| - 1];
      ChainFront(start, tasks);
      ChainReads(order, start, front, h);
      BetweenMembers(order, t.startHandle, Upper(t));
    }
  }

  /** A chain scans every row of its range, and each once if and only if no two of its tasks meet in a row. */
  lemma ChainScans(order: seq<Handle>, start: int, tasks: seq<Task>)
    requires Sorted(order) && Chained(start, tasks)
    ensures var scan, all := ScanOf(order, tasks), Between(order, start, Top(start, tasks));
            (scan == all <==> !RowTwice(order, tasks)) && forall h: Handle :: h in scan <==> h in all
  {
    ChainScansOnce(order, start, tasks);
    BetweenMembers(order, start, Top(start, tasks));
    forall h: Handle ensures h in ScanOf(order, tasks) <==> h in Between(order, start, Top(start, tasks)) {
      ChainReads(order, start, tasks, h);
    }
  }

  lemma {:induction false} ChainScansOnce(order: seq<Handle>, start: int, tasks: seq<Task>)
    requires Sorted(order) && Chained(start, tasks)
    ensures var scan, all := ScanOf(order, tasks), Between(order, start, Top(start, tasks));
            (scan == all <==> !RowTwice(order, tasks)) && |scan| >= |all|
    decreases |tasks|
  {
    if tasks == [] {
      BetweenEmpty(order, start, start);
    } else {
      var front, t := tasks[..|tasks| - 1], tasks[|tasks| - 1];
      ChainFront(start, tasks);
      ChainScansOnce(order, start, front);
      RowTwiceFront(order, start, tasks);
      var top := Top(start, front);
      OverlapScan(order, start, top, t);
      ScanStep(ScanOf(order, front), Between(order, start, top), Between(order, t.startHandle, Upper(t)),
               Between(order, start, Upper(t)), RowTwice(order, front), t.startHandle < top && t.startHandle in order);
    }
  }

  // ---------- the whole backfill ----------

  ghost predicate Table(rows: Rows, order: seq<Handle>, index: Entries) {
    Sorted(order) && ToSet(order) == rows.Keys && PlainOwn(index)
  }

  /** The handle that a task reports when it is done: the first past its range, if there is such a handle. */
  function EndOf(t: Task): int {
    if Upper(t) > MAX_HANDLE then MAX_HANDLE else Upper(t)
  }

  /** A round after some of its tasks: k of them, at the front, succeeded and cover [lo, front). */
  ghost predicate Progress(unique: bool, rows: Rows, order: seq<Handle>, index: Entries, lo: int, front: int, sent: seq<Task>,
                           k: nat, results: seq<Result>, index': Entries, scanned: seq<Handle>, done: set<Handle>) {
    var top := Top(lo, sent);
    && lo <= front <= top && k <= |results| == |sent|
    && PlainOwn(index') && Added(unique, rows, index, done, index')
    && RowsIn(rows, lo, front) <= done <= RowsIn(rows, lo, top)
    && (forall j :: 0 <= j < k ==> results[j].err == NoError)
    && (0 < k ==> lo <= results[k - 1].next == EndOf(sent[k - 1]) <= front)
    && (k == |results| ==> scanned == ScanOf(order, sent) && done == RowsIn(rows, lo, top) && front == top)
    && (k < |results| ==> results[k].err != NoError)
    && (k < |results| && results[k].err == KeyExists ==> !NoConflict(unique, rows, index, RowsIn(rows, lo, Upper(sent[k]))))
  }

  lemma MoreRows(rows: Rows, lo: int, front: int, start: int, top: int, reached: int, top': int, done: set<Handle>)
    requires lo <= front <= top <= top' && lo <= start <= top && reached <= top'
    requires RowsIn(rows, lo, front) <= done <= RowsIn(rows, lo, top)
    ensures RowsIn(rows, lo, front) <= done + RowsIn(rows, start, reached) <= RowsIn(rows, lo, top')
    ensures done == RowsIn(rows, lo, top) && reached == top' ==> done + RowsIn(rows, start, reached) == RowsIn(rows, lo, top')
  {
  }

  lemma ProgressStep(unique: bool, rows: Rows, order: seq<Handle>, index: Entries, lo: int, front: int, sent: seq<Task>, task: Task,
                     k: nat, results: seq<Result>, index1: Entries, scanned: seq<Handle>, done: set<Handle>,
                     e: Error, n: Handle, index2: Entries, recs: seq<Handle>)
    requires Sorted(order) && Follows(Top(lo, sent), task) && lo <= task.startHandle
    requires Progress(unique, rows, order, index, lo, front, sent, k, results, index1, scanned, done)
    requires e == NoError ==> n == GetNextHandle(task, n, true)
    requires e != NoError ==> task.startHandle <= n <= Upper(task)
    requires TaskProgress(unique, rows, order, index1, task.startHandle, Reached(task, n, e == NoError), index2, recs)
    requires e == KeyExists ==> !NoConflict(unique, rows, index1, RowsIn(rows, task.startHandle, Upper(task)))
    ensures var ok := e == NoError && k == |results|;
            Progress(unique, rows, order, index, lo, if ok then Upper(task) else front, sent + [task],
                     if ok then k + 1 else k, results + [Result(n, e)], index2, scanned + recs,
                     done + RowsIn(rows, task.startHandle, Reached(task, n, e == NoError)))
  {
    var top, top' := Top(lo, sent), Upper(task);
    var reached := Reached(task, n, e == NoError);
    AddedTwice(unique, rows, index, done, index1, RowsIn(rows, task.startHandle, reached), index2);
    MoreRows(rows, lo, front, task.startHandle, top, reached, top', done);
    assert (sent + [task])[..|sent|] == sent;
    if e == KeyExists && k == |results| {
      ConflictFromStart(unique, rows, index, done, index1, RowsIn(rows, task.startHandle, top'), RowsIn(rows, lo, top'));
    }
  }

  /** What the checks find: before batch b of task i of round r, and after a round in which no task failed. */
  datatype Checks = Checks(before: (nat, nat, nat) -> bool, after: nat -> bool)

  /** Task i of round r was stopped by a check. */
  ghost predicate Halted(c: Checks, r: nat, i: nat) {
    exists b :: !c.before(r, i, b)
  }

  /** One more worker of a round. */
  method AddTaskResult(unique: bool, rows: Rows, order: seq<Handle>, ghost index: Entries, ghost sent: seq<Task>, task: Task, batchCnt: nat,
                       c: Checks, r: nat, ghost lo: int, ghost front: int, ghost k: nat, results: seq<Result>, index1: Entries,
                       scanned: seq<Handle>, ghost done: set<Handle>)
    returns (index2: Entries, scanned': seq<Handle>, results': seq<Result>, ghost k': nat, ghost front': int, ghost done': set<Handle>)
    requires Sorted(order) && ToSet(order) == rows.Keys && 1 <= batchCnt && Follows(Top(lo, sent), task) && lo <= task.startHandle
    requires Progress(unique, rows, order, index, lo, front, sent, k, results, index1, scanned, done)
    ensures Progress(unique, rows, order, index, lo, front', sent + [task], k', results', index2, scanned', done')
    ensures |results'| == |results| + 1 && results' == results + [results'[|results|]]
    ensures results'[|results|].err == NotRunnable ==> Halted(c, r, |results|)
  {
    var i: nat := |results|;
    var e, n, grown, recs, batches := HandleBackfillTask(unique, rows, order, index1, task, batchCnt, (b: nat) => c.before(r, i, b));
    ProgressStep(unique, rows, order, index, lo, front, sent, task, k, results, index1, scanned, done, e, n, grown, recs);
    ghost var ok := e == NoError && k == |results|;
    k', front' := if ok then k + 1 else k, if ok then Upper(task) else front;
    done' := done + RowsIn(rows, task.startHandle, Reached(task, n, e == NoError));
    index2, scanned', results' := grown, scanned + recs, results + [Result(n, e)];
  }

  lemma TaskFollows(lo: int, tasks: seq<Task>, i: nat)
    requires Chained(lo, tasks) && i < |tasks|
    ensures Follows(Top(lo, tasks[..i]), tasks[i]) && lo <= tasks[i].startHandle
    ensures tasks[..i + 1] == tasks[..i] + [tasks[i]]
  {
    var upTo := tasks[..i + 1];
    assert upTo[..i] == tasks[..i];
    ChainFront(lo, upTo);
  }

  /**
    A round over `tasks`, failed or not: the first k of them succeeded, and `next` is where the last of
    these ends. The rows below `next` are done and have their entries; without a failure all are, and
    the tasks scanned what their ranges hold; a duplicate is really there.
   */
  ghost predicate RoundDone(unique: bool, rows: Rows, order: seq<Handle>, index: Entries, tasks: seq<Task>, k: nat, err: Error, next: Handle,
                            index': Entries, scanned: seq<Handle>, done: set<Handle>)
    requires tasks != []
  {
    var lo, hi := tasks[0].startHandle, Upper(tasks[|tasks| - 1]);
    && ResumesAt(tasks, k, err, next) && lo <= next <= hi
    && Added(unique, rows, index, done, index') && PlainOwn(index')
    && RowsIn(rows, lo, next) <= done <= RowsIn(rows, lo, hi)
    && (err == NoError ==> scanned == ScanOf(order, tasks) && done == RowsIn(rows, lo, hi))
    && (err == KeyExists ==> !NoConflict(unique, rows, index, RowsIn(rows, lo, Upper(tasks[k]))))
  }

  /** The resume point behind the first k tasks; all of them succeeded without an error, and a duplicate is found by the next one. */
  ghost predicate ResumesAt(tasks: seq<Task>, k: nat, err: Error, next: Handle) {
    && tasks != [] && k <= |tasks| && next == (if k == 0 then tasks[0].startHandle else EndOf(tasks[k - 1]))
    && (err == NoError ==> k == |tasks|) && (err == KeyExists ==> k < |tasks|)
  }

  /** The job is found not runnable: by a check before a batch of the first task that failed, or after the round. */
  ghost predicate Refused(c: Checks, r: nat, n: nat, k: nat) {
    if k < n then Halted(c, r, k) else !c.after(r)
  }

  /** The workers of a round, whatever happens to the others. */
  method RunTasks(unique: bool, rows: Rows, order: seq<Handle>, index: Entries, tasks: seq<Task>, batchCnt: nat, c: Checks, r: nat)
    returns (results: seq<Result>, index': Entries, scanned: seq<Handle>, ghost done: set<Handle>, ghost k: nat, ghost front: int)
    requires Table(rows, order, index) && 1 <= batchCnt && 0 < |tasks| && Chained(tasks[0].startHandle, tasks)
    ensures |results| == |tasks|
    ensures Progress(unique, rows, order, index, tasks[0].startHandle, front, tasks, k, results, index', scanned, done)
    ensures forall j :: 0 <= j < |results| && results[j].err == NotRunnable ==> Halted(c, r, j)
  {
    results, index', scanned, done := [], index, [], {};
    ghost var lo: int := tasks[0].startHandle;
    k, front := 0, lo;
    var i: nat := 0;
    while i < |tasks|
      invariant i <= |tasks| && |results| == i
      invariant forall j :: 0 <= j < i && results[j].err == NotRunnable ==> Halted(c, r, j)
      invariant Progress(unique, rows, order, index, lo, front, tasks[..i], k, results, index', scanned, done)
    {
      TaskFollows(lo, tasks, i);
      index', scanned, results, k, front, done :=
        AddTaskResult(unique, rows, order, index, tasks[..i], tasks[i], batchCnt, c, r, lo, front, k, results,
                      index', scanned, done);
      i := i + 1;
    }
    assert tasks[..i] == tasks;
  }

  /**
    Gives one task to each worker and waits for all of them; after a round in which none failed the job
    is checked once more.
   */
  method HandleReorgTasks(unique: bool, rows: Rows, order: seq<Handle>, index: Entries, tasks: seq<Task>,
                          batchCnt: nat, c: Checks, r: nat)
    returns (err: Error, next: Handle, index': Entries, scanned: seq<Handle>, ghost done: set<Handle>, ghost k: nat)
    requires Table(rows, order, index) && 1 <= batchCnt && 0 < |tasks| && Chained(tasks[0].startHandle, tasks)
    ensures RoundDone(unique, rows, order, index, tasks, k, err, next, index', scanned, done)
    ensures !c.after(r) ==> err != NoError
    ensures err == NotRunnable ==> Refused(c, r, |tasks|, k)
  {
    var results;
    ghost var front;
    results, index', scanned, done, k, front := RunTasks(unique, rows, order, index, tasks, batchCnt, c, r);
    SuccessesAt(results, k);
    next, err := WaitTaskResults(results, tasks[0].startHandle);
    if err == NoError && !c.after(r) {
      err := NotRunnable;
    }
  }

  /** The ranges that one round sends to its workers. */
  function RoundTasks(bs: seq<Bound>, n: nat): (tasks: seq<Task>)
    requires n == 0 || n < |bs|
    ensures |tasks| == n
  {
    if n == 0 then [] else RoundTasks(bs, n - 1) + [TaskOf(bs[n - 1], bs[n])]
  }

  lemma {:induction false} TaskAt(bs: seq<Bound>, n: nat, i: nat)
    requires i < n < |bs|
    ensures RoundTasks(bs, n)[i] == TaskOf(bs[i], bs[i + 1])
  {
    if i == n - 1 {
    } else {
      TaskAt(bs, n - 1, i);
    }
  }

  lemma RangeOfBorders(bs: seq<Bound>, start: Handle, end: Handle, i: nat)
    requires ValidSplit(bs, start, end) && i + 1 < |bs|
    ensures var t := TaskOf(bs[i], bs[i + 1]); t.startHandle < Upper(t) <= end + 1
  {
    assert Before(bs[i], bs[i + 1]) && (i + 1 < |bs| - 1 ==> Before(bs[i + 1], bs[|bs| - 1]));
  }

  lemma RoundChain(bs: seq<Bound>, start: Handle, end: Handle, n: nat)
    requires ValidSplit(bs, start, end) && 0 < n < |bs|
    ensures Chained(start, RoundTasks(bs, n)) && RoundTasks(bs, n)[0].startHandle == start
  {
    var tasks := RoundTasks(bs, n);
    RangeOfBorders(bs, start, end, 0);
    TaskAt(bs, n, 0);
    forall i, j | 0 <= i < j < n && j == i + 1 ensures Follows(Upper(tasks[i]), tasks[j]) {
      RangeOfBorders(bs, start, end, j);
      TaskAt(bs, n, i);
      TaskAt(bs, n, j);
    }
  }

  /** The tasks are a chain from `start`, and what comes next begins at `next`: where they stop, or in the record where they stop. */
  ghost predicate ChainTo(start: int, end: int, tasks: seq<Task>, next: int) {
    && Chained(start, tasks) && start <= next
    && (if tasks == [] then next == start else Top(start, tasks) - 1 <= next <= Top(start, tasks) <= end + 1)
    && (next > end ==> next == Top(start, tasks) == end + 1)
  }

  /** The ranges of a round are a chain up to the border where the next one starts. */
  lemma RoundIsChained(bs: seq<Bound>, start: Handle, end: Handle, n: nat)
    requires ValidSplit(bs, start, end) && 0 < n < |bs|
    ensures var tasks, next := RoundTasks(bs, n), NextStart(bs, n, end);
            tasks != [] && ChainTo(start, end, tasks, next) && (n == |bs| - 1 <==> next > end)
  {
    RoundChain(bs, start, end, n);
    RangeOfBorders(bs, start, end, n - 1);
    TaskAt(bs, n, n - 1);
    assert Before(bs[0], bs[n]);
    if n < |bs| - 1 {
      assert Before(bs[n], bs[|bs| - 1]);
    }
  }

  lemma ChainToAppend(start: int, end: int, tasks: seq<Task>, mid: int, more: seq<Task>, next: int)
    requires ChainTo(start, end, tasks, mid) && ChainTo(mid, end, more, next) && more != []
    ensures ChainTo(start, end, tasks + more, next)
  {
    ChainAppend(start, tasks, mid, more);
  }

  /** Two tasks of the chain share a handle, whether or not there is a row. */
  ghost predicate Overlaps(tasks: seq<Task>) {
    exists i, j :: 0 <= i < j < |tasks| && j == i + 1 && tasks[j].startHandle < Upper(tasks[i])
  }

  ghost predicate Tight(start: int, tasks: seq<Task>, next: int) {
    !Overlaps(tasks) && next == Top(start, tasks)
  }

  lemma ExactRound(bs: seq<Bound>, start: Handle, end: Handle, n: nat)
    requires ValidSplit(bs, start, end) && Exact(bs) && 0 < n < |bs|
    ensures Tight(start, RoundTasks(bs, n), NextStart(bs, n, end))
  {
    RoundIsChained(bs, start, end, n);
    forall i, j | 0 <= i < j < n && j == i + 1 ensures !(RoundTasks(bs, n)[j].startHandle < Upper(RoundTasks(bs, n)[i])) {
      TaskAt(bs, n, i);
      TaskAt(bs, n, j);
    }
    TaskAt(bs, n, n - 1);
  }

  lemma TightAppend(start: int, tasks: seq<Task>, mid: int, more: seq<Task>, next: int)
    requires Tight(start, tasks, mid) && Tight(mid, more, next) && more != [] && more[0].startHandle == mid
    ensures Tight(start, tasks + more, next)
  {
    var all, n := tasks + more, |tasks|;
    forall i, j | 0 <= i < j < |all| && j == i + 1 ensures all[j].startHandle >= Upper(all[i]) {
      if j < n {
        assert !(tasks[j].startHandle < Upper(tasks[i]));
      } else if i >= n {
        assert !(more[j - n].startHandle < Upper(more[i - n]));
      }
    }
  }

  /** A border inside the first row of a table: both ranges hold the row, and both workers scan it. */
  lemma RowScannedTwice(order: seq<Handle>, h: Handle, end: Handle)
    requires Sorted(order) && h in order && h < end
    ensures var bs := InsideFirst(0, h, end);
            && ValidSplit(bs, h, end) && InRange(bs, 0, h) && InRange(bs, 1, h)
            && ScanOf(order, RoundTasks(bs, 2)) != Between(order, h, end + 1)
  {
    var bs := InsideFirst(0, h, end);
    var tasks := RoundTasks(bs, 2);
    TaskAt(bs, 2, 0);
    TaskAt(bs, 2, 1);
    RoundIsChained(bs, h, end, 2);
    assert RowTwice(order, tasks);
    ChainScans(order, h, tasks);
  }

  /** How many ranges round `r` sends when it starts at `c`. */
  function Width(st: Store, r: nat, c: Handle, end: Handle): (n: nat)
    ensures n == 0 || n < |st.regions(r, c, end)|
  {
    var m := |st.regions(r, c, end)| - 1;
    if st.workerCnt(r) < m then st.workerCnt(r) else if m < 0 then 0 else m
  }

  function SentIn(st: Store, end: Handle, r: nat, c: Handle): seq<Task> {
    RoundTasks(st.regions(r, c, end), Width(st, r, c, end))
  }

  /** The ranges sent before round `r`. */
  function Sent(st: Store, start: Handle, end: Handle, r: nat): seq<Task>
    requires start <= end
  {
    if r == 0 then []
    else
      var c := Cursor(st, start, end, r - 1);
      if c > end then Sent(st, start, end, r - 1) else Sent(st, start, end, r - 1) + SentIn(st, end, r - 1, c)
  }

  lemma SentNext(st: Store, start: Handle, end: Handle, r: nat, c: Handle)
    requires ValidStore(st) && start <= end && Cursor(st, start, end, r) == c <= end
    ensures var bs, n, next := st.regions(r, c, end), Width(st, r, c, end), Cursor(st, start, end, r + 1);
            && ValidSplit(bs, c, end) && 0 < n < |bs| && next == NextStart(bs, n, end)
            && Sent(st, start, end, r + 1) == Sent(st, start, end, r) + RoundTasks(bs, n)
  {
    assert ValidRound(st, r, c, end);
  }

  lemma ChainedNext(st: Store, start: Handle, end: Handle, r: nat, c: Handle)
    requires ValidStore(st) && start <= end && Cursor(st, start, end, r) == c <= end
    requires ChainTo(start, end, Sent(st, start, end, r), c)
    ensures ChainTo(start, end, Sent(st, start, end, r + 1), Cursor(st, start, end, r + 1))
  {
    var bs, n := st.regions(r, c, end), Width(st, r, c, end);
    SentNext(st, start, end, r, c);
    RoundIsChained(bs, c, end, n);
    ChainToAppend(start, end, Sent(st, start, end, r), c, RoundTasks(bs, n), NextStart(bs, n, end));
  }

  /** Main result: the ranges of all rounds are one chain from the start up to where the next round starts. */
  lemma {:induction false} SentChained(st: Store, start: Handle, end: Handle, r: nat)
    requires ValidStore(st) && start <= end
    ensures ChainTo(start, end, Sent(st, start, end, r), Cursor(st, start, end, r))
  {
    if r == 0 {
    } else {
      SentChained(st, start, end, r - 1);
      var c := Cursor(st, start, end, r - 1);
      if c <= end { ChainedNext(st, start, end, r - 1, c); }
    }
  }

  lemma TightNext(st: Store, start: Handle, end: Handle, r: nat, c: Handle)
    requires ValidStore(st) && ExactStore(st) && start <= end && Cursor(st, start, end, r) == c <= end
    requires Tight(start, Sent(st, start, end, r), c)
    ensures Tight(start, Sent(st, start, end, r + 1), Cursor(st, start, end, r + 1))
  {
    var bs, n := st.regions(r, c, end), Width(st, r, c, end);
    SentNext(st, start, end, r, c);
    assert ExactAt(st, r, c, end);
    RoundIsChained(bs, c, end, n);
    ExactRound(bs, c, end, n);
    TightAppend(start, Sent(st, start, end, r), c, RoundTasks(bs, n), NextStart(bs, n, end));
  }

  /** On exact borders no two of them overlap. */
  lemma {:induction false} SentExact(st: Store, start: Handle, end: Handle, r: nat)
    requires ValidStore(st) && ExactStore(st) && start <= end
    ensures Tight(start, Sent(st, start, end, r), Cursor(st, start, end, r))
  {
    if r == 0 {
    } else {
      SentExact(st, start, end, r - 1);
      var c := Cursor(st, start, end, r - 1);
      if c > end {
        SentChained(st, start, end, r - 1);
      } else {
        TightNext(st, start, end, r - 1, c);
      }
    }
  }

  /** The tasks of a chain from `start` have all succeeded. */
  ghost predicate Filled(unique: bool, rows: Rows, order: seq<Handle>, index: Entries, start: int, sent: seq<Task>,
                         index': Entries, scanned: seq<Handle>) {
    && PlainOwn(index') && Added(unique, rows, index, RowsIn(rows, start, Top(start, sent)), index')
    && scanned == ScanOf(order, sent)
  }

  lemma FailedRound(unique: bool, rows: Rows, index: Entries, start: int, cur: int, front: int, next: int, low: int, hi: int, top: int,
                    index1: Entries, filled: set<Handle>, index2: Entries, e: Error)
    requires start <= cur <= front <= top && cur <= next <= hi <= top && RowsIn(rows, cur, next) <= filled <= RowsIn(rows, cur, hi)
    requires Added(unique, rows, index, RowsIn(rows, start, front), index1) && Added(unique, rows, index1, filled, index2)
    requires e == KeyExists ==> front <= low && !NoConflict(unique, rows, index1, RowsIn(rows, cur, low))
    ensures Added(unique, rows, index, RowsIn(rows, start, front) + filled, index2)
    ensures RowsIn(rows, start, next) <= RowsIn(rows, start, front) + filled <= RowsIn(rows, start, top)
    ensures e == KeyExists ==> !NoConflict(unique, rows, index, RowsIn(rows, start, low))
  {
    AddedTwice(unique, rows, index, RowsIn(rows, start, front), index1, filled, index2);
    if e == KeyExists {
      ConflictFromStart(unique, rows, index, RowsIn(rows, start, front), index1, RowsIn(rows, cur, low), RowsIn(rows, start, low));
    }
  }

  lemma NextRound(unique: bool, rows: Rows, index: Entries, start: int, cur: int, front: int, hi: int, index1: Entries, index2: Entries)
    requires start <= cur <= front <= hi
    requires Added(unique, rows, index, RowsIn(rows, start, front), index1) && Added(unique, rows, index1, RowsIn(rows, cur, hi), index2)
    ensures Added(unique, rows, index, RowsIn(rows, start, hi), index2)
  {
    AddedTwice(unique, rows, index, RowsIn(rows, start, front), index1, RowsIn(rows, cur, hi), index2);
    assert RowsIn(rows, start, front) + RowsIn(rows, cur, hi) == RowsIn(rows, start, hi);
  }

  /** What holds of the rounds so far, failed or not: as of one round. */
  ghost predicate RoundsDone(unique: bool, rows: Rows, order: seq<Handle>, index: Entries, start: Handle, end: Handle, sent: seq<Task>,
                             tasks: seq<Task>, k: nat, err: Error, next: Handle, index': Entries, scanned: seq<Handle>, done: set<Handle>) {
    && ResumesAt(tasks, k, err, next) && start <= next <= end + 1
    && Added(unique, rows, index, done, index') && RowsIn(rows, start, next) <= done <= RowsIn(rows, start, end + 1)
    && (err == NoError ==> Filled(unique, rows, order, index, start, sent, index', scanned))
    && (err == KeyExists ==> !NoConflict(unique, rows, index, RowsIn(rows, start, Upper(tasks[k]))))
  }

  lemma AfterRound(unique: bool, rows: Rows, order: seq<Handle>, index: Entries, start: Handle, end: Handle, sent: seq<Task>, cur: Handle,
                   index1: Entries, scanned: seq<Handle>, tasks: seq<Task>, k: nat,
                   err: Error, next: Handle, index2: Entries, recs: seq<Handle>, filled: set<Handle>)
    requires start <= cur <= Top(start, sent) <= Top(cur, tasks) <= end + 1 && Top(start, sent) - 1 <= cur
    requires tasks != [] && tasks[0].startHandle == cur && Chained(cur, tasks)
    requires Filled(unique, rows, order, index, start, sent, index1, scanned)
    requires RoundDone(unique, rows, order, index1, tasks, k, err, next, index2, recs, filled)
    ensures RoundsDone(unique, rows, order, index, start, end, sent + tasks, tasks, k, err, next, index2, scanned + recs,
                       RowsIn(rows, start, Top(start, sent)) + filled)
  {
    var front, hi := Top(start, sent), Top(cur, tasks);
    var low := if k < |tasks| then Upper(tasks[k]) else hi;
    if k < |tasks| { TaskFollows(cur, tasks, k); }
    FailedRound(unique, rows, index, start, cur, front, next, low, hi, end + 1, index1, filled, index2, err);
    if err == NoError {
      assert Top(start, sent + tasks) == hi;
      NextRound(unique, rows, index, start, cur, front, hi, index1, index2);
      ScanAppend(order, sent, tasks);
    }
  }

  lemma RoundFacts(st: Store, start: Handle, end: Handle, r: nat, c: Handle)
    requires ValidStore(st) && start <= end && Cursor(st, start, end, r) == c <= end
    ensures var sent, tasks := Sent(st, start, end, r), SentIn(st, end, r, c);
            && tasks != [] && tasks[0].startHandle == c && Chained(c, tasks)
            && start <= c <= Top(start, sent) <= Top(c, tasks) <= end + 1 && Top(start, sent) - 1 <= c
            && Sent(st, start, end, r + 1) == sent + tasks
    ensures var bs, n, next := st.regions(r, c, end), Width(st, r, c, end), Cursor(st, start, end, r + 1);
            0 < n < |bs| && if n < |bs| - 1 then next == bs[n].h <= end else next > end
  {
    SentChained(st, start, end, r);
    SentNext(st, start, end, r, c);
    RoundIsChained(st.regions(r, c, end), c, end, Width(st, r, c, end));
    ChainGrows(c, SentIn(st, end, r, c));
  }

  /** Round `r`, on top of the rounds before it. */
  method SendRangeTasks(unique: bool, rows: Rows, order: seq<Handle>, ghost index: Entries, st: Store, ghost start: Handle, end: Handle,
                        r: nat, cur: Handle, batchCnt: nat, c: Checks, index1: Entries, scanned: seq<Handle>)
    returns (err: Error, next: Handle, index2: Entries, scanned': seq<Handle>, remains: bool, cur': Handle,
             ghost done: set<Handle>, ghost k: nat)
    requires Table(rows, order, index) && 1 <= batchCnt && ValidStore(st)
    requires start <= end && Cursor(st, start, end, r) == cur <= end
    requires Filled(unique, rows, order, index, start, Sent(st, start, end, r), index1, scanned)
    ensures RoundsDone(unique, rows, order, index, start, end, Sent(st, start, end, r + 1), SentIn(st, end, r, cur), k,
                       err, next, index2, scanned', done)
    ensures if remains then Cursor(st, start, end, r + 1) == cur' <= end else Cursor(st, start, end, r + 1) > end
    ensures !c.after(r) ==> err != NoError
    ensures err == NotRunnable ==> Refused(c, r, |SentIn(st, end, r, cur)|, k)
  {
    RoundFacts(st, start, end, r, cur);
    var bs, n := st.regions(r, cur, end), Width(st, r, cur, end);
    var tasks := RoundTasks(bs, n);
    remains, cur' := n < |bs| - 1, bs[n].h;
    var recs;
    ghost var filled;
    err, next, index2, recs, filled, k := HandleReorgTasks(unique, rows, order, index1, tasks, batchCnt, c, r);
    ghost var sent := Sent(st, start, end, r);
    scanned', done := scanned + recs, RowsIn(rows, start, Top(start, sent)) + filled;
    AfterRound(unique, rows, order, index, start, end, sent, cur, index1, scanned, tasks, k, err, next, index2, recs, filled);
  }

  /** The rounds end by themselves, or the job is found not runnable after one of them. */
  ghost predicate Stops(st: Store, c: Checks, start: Handle, end: Handle, r: nat)
    requires start <= end
  {
    Cursor(st, start, end, r) > end || !c.after(r)
  }

  lemma NotTheLast(st: Store, c: Checks, start: Handle, end: Handle, r: nat, last: nat)
    requires start <= end && Cursor(st, start, end, r) <= end && r <= last && Stops(st, c, start, end, last)
    ensures c.after(r) ==> r < last
  {
  }

  /** The ranges of round `r`. */
  ghost function LastSent(st: Store, start: Handle, end: Handle, r: nat): seq<Task>
    requires start <= end && Cursor(st, start, end, r) <= end
  {
    SentIn(st, end, r, Cursor(st, start, end, r))
  }

  /** The loop over the rounds: split the table, send ranges to the workers, go on with what remains. */
  method RunRounds(unique: bool, rows: Rows, order: seq<Handle>, index: Entries, start: Handle, end: Handle,
                   batchCnt: nat, st: Store, c: Checks)
    returns (err: Error, resume: Handle, index': Entries, scanned: seq<Handle>, ghost done: set<Handle>, ghost r: nat, ghost k: nat)
    requires Table(rows, order, index) && start <= end && 1 <= batchCnt && ValidStore(st)
    requires exists r :: Stops(st, c, start, end, r)
    ensures Cursor(st, start, end, r) <= end && forall q :: 0 <= q < r ==> c.after(q)
    ensures RoundsDone(unique, rows, order, index, start, end, Sent(st, start, end, r + 1), LastSent(st, start, end, r), k,
                       err, resume, index', scanned, done)
    ensures err == NoError ==> Cursor(st, start, end, r + 1) > end && c.after(r)
    ensures err == NotRunnable ==> Refused(c, r, |LastSent(st, start, end, r)|, k)
  {
    index', scanned := index, [];
    var cur: Handle, round: nat := start, 0;
    r := 0;
    ghost var last: nat :| Stops(st, c, start, end, last);
    while true
      invariant start <= end && Cursor(st, start, end, r) == cur <= end && r == round <= last
      invariant forall q :: 0 <= q < r ==> c.after(q)
      invariant Filled(unique, rows, order, index, start, Sent(st, start, end, r), index', scanned)
      decreases last - r
    {
      NotTheLast(st, c, start, end, r, last);
      var remains, next;
      err, resume, index', scanned, remains, next, done, k :=
        SendRangeTasks(unique, rows, order, index, st, start, end, round, cur, batchCnt, c, index', scanned);
      if err != NoError || !remains { return; }
      cur, round, r := next, round + 1, r + 1;
    }
  }

  lemma AllRounds(unique: bool, rows: Rows, order: seq<Handle>, index: Entries, st: Store, start: Handle, end: Handle, rounds: nat,
                  index': Entries, scanned: seq<Handle>)
    requires Sorted(order) && ValidStore(st) && start <= end && Cursor(st, start, end, rounds) > end
    requires Filled(unique, rows, order, index, start, Sent(st, start, end, rounds), index', scanned)
    ensures var sent := Sent(st, start, end, rounds);
            && Chained(start, sent) && Top(start, sent) == end + 1
            && (scanned == Between(order, start, end + 1) <==> !RowTwice(order, sent))
            && (ExactStore(st) ==> scanned == Between(order, start, end + 1))
    ensures NoConflict(unique, rows, index, RowsIn(rows, start, end + 1))
  {
    var sent := Sent(st, start, end, rounds);
    SentChained(st, start, end, rounds);
    if ExactStore(st) { SentExact(st, start, end, rounds); }
    ChainScans(order, start, sent);
    AddedNoConflict(unique, rows, index, RowsIn(rows, start, end + 1), index');
  }

  /**
    The whole backfill of [start, end].  The regions may be split differently in every round,
    the number of workers may change, and any check may find the job no longer runnable.
    On success the ranges sent are a chain over [start, end] and every row has its entry; a row was
    scanned twice only where a border lies inside it.  A duplicate-key error means there is a
    duplicate; on any error the rows below `resume` have their entries, and `resume` is where the last
    of the tasks ends that succeeded without one before them that failed.
   */
  method AddPhysicalTableIndex(unique: bool, rows: Rows, order: seq<Handle>, index: Entries, start: Handle, end: Handle,
                               batchCnt: nat, st: Store, c: Checks)
    returns (err: Error, resume: Handle, index': Entries, scanned: seq<Handle>, ghost done: set<Handle>, ghost r: nat, ghost k: nat)
    requires Table(rows, order, index) && start <= end && 1 <= batchCnt && ValidStore(st)
    requires exists r :: Stops(st, c, start, end, r)
    ensures Cursor(st, start, end, r) <= end && ResumesAt(LastSent(st, start, end, r), k, err, resume)
    ensures start <= resume <= end + 1
    ensures Added(unique, rows, index, done, index')
    ensures RowsIn(rows, start, resume) <= done <= RowsIn(rows, start, end + 1)
    ensures err == NoError ==>
              var sent := Sent(st, start, end, r + 1);
              && Chained(start, sent) && Top(start, sent) == end + 1
              && scanned == ScanOf(order, sent) && done == RowsIn(rows, start, end + 1)
              && (scanned == Between(order, start, end + 1) <==> !RowTwice(order, sent))
    ensures err == NoError && ExactStore(st) ==> scanned == Between(order, start, end + 1)
    ensures err == KeyExists ==> !NoConflict(unique, rows, index, RowsIn(rows, start, Upper(LastSent(st, start, end, r)[k])))
    ensures err == NoError ==> NoConflict(unique, rows, index, RowsIn(rows, start, end + 1))
    ensures err == NotRunnable ==> Refused(c, r, |LastSent(st, start, end, r)|, k)
    ensures (forall q :: 0 <= q < r ==> c.after(q)) && (err == NoError ==> c.after(r))
  {
    err, resume, index', scanned, done, r, k := RunRounds(unique, rows, order, index, start, end, batchCnt, st, c);
    if err == NoError {
      AllRounds(unique, rows, order, index, st, start, end, r + 1, index', scanned);
      done := RowsIn(rows, start, end + 1);
    }
  }

  /** A row of `hs` has a duplicate that is in `hs`, too, or has its entry already. */
  ghost predicate Collides(unique: bool, rows: Rows, index: Entries, hs: set<Handle>) {
    exists g, h :: h in hs && Duplicated(unique, rows, g, h) && (g in hs || HasEntry(unique, rows, index, g))
  }

  /** Over entries that all belong to their rows, a conflict is a duplicate, told by the values of the rows. */
  lemma ConflictIsDuplicate(unique: bool, rows: Rows, index: Entries, hs: set<Handle>)
    requires hs <= rows.Keys
    requires forall k :: k in index ==> index[k] in rows && KeyAt(unique, rows, index[k]) == k
    ensures NoConflict(unique, rows, index, hs) <==> !Collides(unique, rows, index, hs)
  {
    if !NoConflict(unique, rows, index, hs) {
      if h :| h in hs && KeyAt(unique, rows, h) in index && index[KeyAt(unique, rows, h)] != h {
        SameKey(unique, rows, index[KeyAt(unique, rows, h)], h);
      } else {
        var g, h :| g in hs && h in hs && KeyAt(unique, rows, g) == KeyAt(unique, rows, h) && g != h;
        SameKey(unique, rows, g, h);
      }
    }
    if Collides(unique, rows, index, hs) {
      var g, h :| h in hs && Duplicated(unique, rows, g, h) && (g in hs || HasEntry(unique, rows, index, g));
      SameKey(unique, rows, g, h);
    }
  }

  /** Before the first entry: rows conflict if and only if two of them hold equal values without a NULL, under a unique index. */
  lemma FirstConflict(unique: bool, rows: Rows, hs: set<Handle>)
    requires hs <= rows.Keys
    ensures NoConflict(unique, rows, map[], hs) <==>
              !unique || forall g, h :: g in hs && h in hs && g != h && rows[g] == rows[h] ==> Null in rows[g]
  {
    ConflictIsDuplicate(unique, rows, map[], hs);
    if unique {
      if g, h :| g in hs && h in hs && g != h && rows[g] == rows[h] && Null !in rows[g] {
        assert Duplicated(unique, rows, g, h);
      }
    }
  }
}
