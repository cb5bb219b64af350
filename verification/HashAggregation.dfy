/**
  Parallel hash aggregation: partial workers aggregate the chunks they happen to get, every group is
  sent to the final worker its hash names, and final workers merge what arrives in whatever order.
 */
module HashAggregation {
  import opened Options
  import opened Sequences

  type Key = string

  /** What the aggregate functions of a query read in a row. */
  type Values = seq<int>

  datatype Row = Row(key: Key, arg: Values)

  type Chunk = seq<Row>

  /**
    The aggregate functions of a query: partial results, how rows and other partial results go into them,
    and what the rows of a group can hold.
   */
  datatype Agg<!P> = Agg(zero: P, update: (P, Values) -> P, merge: (P, P) -> P, possible: (Key, Values) -> bool)

  ghost predicate Fits<P>(a: Agg<P>, rows: seq<Row>) {
    forall r :: r in rows ==> a.possible(r.key, r.arg)
  }

  /** The partial result of all rows of a group. */
  function Sum<P>(a: Agg<P>, rows: seq<Row>, k: Key): P {
    if rows == [] then a.zero
    else if rows[0].key == k then a.merge(a.update(a.zero, rows[0].arg), Sum(a, rows[1..], k))
    else Sum(a, rows[1..], k)
  }

  ghost predicate MergeLaw<P>(a: Agg<P>, p: P, q: P, r: P) {
    && a.merge(a.zero, p) == p
    && a.merge(p, q) == a.merge(q, p)
    && a.merge(a.merge(p, q), r) == a.merge(p, a.merge(q, r))
  }

  ghost predicate RowLaw<P>(a: Agg<P>, p: P, v: Values) {
    a.update(p, v) == a.merge(a.update(a.zero, v), p)
  }

  /**
    Merging partial results made from rows of one group does not look at their order, and a row is merged
    like a partial result of its own. Nothing is asked of partial results of different groups.
   */
  ghost predicate Lawful<P>(a: Agg<P>) {
    (forall k, x, y, z :: MergesInGroup(a, k, x, y, z)) && (forall k, x, v :: UpdatesInGroup(a, k, x, v))
  }

  ghost predicate MergesInGroup<P>(a: Agg<P>, k: Key, x: seq<Row>, y: seq<Row>, z: seq<Row>) {
    Fits(a, x) && Fits(a, y) && Fits(a, z) ==> MergeLaw(a, Sum(a, x, k), Sum(a, y, k), Sum(a, z, k))
  }

  ghost predicate UpdatesInGroup<P>(a: Agg<P>, k: Key, x: seq<Row>, v: Values) {
    Fits(a, x) && a.possible(k, v) ==> RowLaw(a, Sum(a, x, k), v)
  }

  // ---------- what is computed ----------

  ghost predicate HasKey(rows: seq<Row>, k: Key) {
    exists i :: 0 <= i < |rows| && rows[i].key == k
  }

  lemma MergeLawAt<P>(a: Agg<P>, x: seq<Row>, y: seq<Row>, z: seq<Row>, k: Key)
    requires Lawful(a) && Fits(a, x) && Fits(a, y) && Fits(a, z)
    ensures MergeLaw(a, Sum(a, x, k), Sum(a, y, k), Sum(a, z, k))
  {
    assert MergesInGroup(a, k, x, y, z);
  }

  /** An empty result changes nothing, on either side. */
  lemma MergeZero<P>(a: Agg<P>, x: seq<Row>, k: Key)
    requires Lawful(a) && Fits(a, x)
    ensures a.merge(a.zero, Sum(a, x, k)) == Sum(a, x, k) == a.merge(Sum(a, x, k), a.zero)
  {
    MergeLawAt(a, x, [], [], k);
  }

  lemma SumOne<P>(a: Agg<P>, row: Row, k: Key)
    requires Lawful(a) && Fits(a, [row])
    ensures Sum(a, [row], k) == if row.key == k then a.update(a.zero, row.arg) else a.zero
  {
    assert [row][1..] == [] && Sum(a, [], k) == a.zero;
    if row.key == k {
      assert row in [row];
      assert UpdatesInGroup(a, k, [], row.arg);
    }
  }

  lemma {:induction false} SumConcat<P>(a: Agg<P>, x: seq<Row>, y: seq<Row>, k: Key)
    requires Lawful(a) && Fits(a, x) && Fits(a, y)
    ensures Sum(a, x + y, k) == a.merge(Sum(a, x, k), Sum(a, y, k))
    decreases |x|
  {
    if x == [] {
      assert x + y == y;
      MergeZero(a, y, k);
    } else {
      var rest := x[1..];
      assert x == [x[0]] + rest;
      FitsConcat(a, [x[0]], rest);
      SumConcat(a, rest, y, k);
      assert (x + y)[1..] == rest + y;
      if x[0].key == k {
        SumOne(a, x[0], k);
        MergeLawAt(a, [x[0]], rest, y, k);
      }
    }
  }

  lemma SumNext<P>(a: Agg<P>, rows: seq<Row>, row: Row, k: Key)
    requires Lawful(a) && Fits(a, rows) && Fits(a, [row])
    ensures Sum(a, rows + [row], k) == if row.key == k then a.update(Sum(a, rows, k), row.arg) else Sum(a, rows, k)
  {
    SumConcat(a, rows, [row], k);
    SumOne(a, row, k);
    MergeZero(a, rows, k);
    MergeLawAt(a, rows, [row], [], k);
    if row.key == k {
      assert row in [row];
      assert UpdatesInGroup(a, k, rows, row.arg);
    }
  }

  lemma {:induction false} SumAbsent<P>(a: Agg<P>, rows: seq<Row>, k: Key)
    requires !HasKey(rows, k)
    ensures Sum(a, rows, k) == a.zero
  {
    if rows == [] {
    } else {
      assert rows[0].key != k;
      assert forall i :: 0 <= i < |rows[1..]| ==> rows[1..][i] == rows[i + 1];
      SumAbsent(a, rows[1..], k);
    }
  }

  lemma SumOut<P>(a: Agg<P>, rows: seq<Row>, i: nat, k: Key)
    requires Lawful(a) && i < |rows| && Fits(a, rows)
    ensures Sum(a, rows, k) == Sum(a, [rows[i]] + (rows[..i] + rows[i + 1..]), k)
  {
    var x, r, y := rows[..i], [rows[i]], rows[i + 1..];
    assert rows == x + (r + y);
    SumConcat(a, x, r + y, k);
    SumConcat(a, r, y, k);
    SumConcat(a, r, x + y, k);
    SumConcat(a, x, y, k);
    MergeLawAt(a, x, r, y, k);
    MergeLawAt(a, r, x, y, k);
  }

  lemma Without<T>(s: seq<T>, i: nat)
    requires i < |s|
    ensures multiset(s[..i] + s[i + 1..]) == multiset(s) - multiset{s[i]}
  {
    assert s == s[..i] + [s[i]] + s[i + 1..];
  }

  lemma Counterpart<T>(x: seq<T>, y: seq<T>) returns (i: nat)
    requires x != [] && multiset(x) == multiset(y)
    ensures i < |y| && y[i] == x[0] && multiset(x[1..]) == multiset(y[..i] + y[i + 1..])
  {
    assert x[0] in multiset(y);
    i :| 0 <= i < |y| && y[i] == x[0];
    Rest(x);
    Without(y, i);
  }

  lemma Rest<T>(s: seq<T>)
    requires s != []
    ensures multiset(s[1..]) == multiset(s) - multiset{s[0]}
  {
    assert s == [s[0]] + s[1..];
  }

  lemma FitsPermutation<P>(a: Agg<P>, x: seq<Row>, y: seq<Row>)
    requires Fits(a, x) && multiset(x) == multiset(y)
    ensures Fits(a, y)
  {
    forall r | r in y ensures r in x {
      assert r in multiset(y);
    }
  }

  lemma {:induction false} FitsFlatten<P>(a: Agg<P>, ss: seq<seq<Row>>)
    ensures Fits(a, Flatten(ss)) <==> forall i :: 0 <= i < |ss| ==> Fits(a, ss[i])
    decreases |ss|
  {
    if ss == [] {
    } else {
      FitsFlatten(a, ss[1..]);
      FitsConcat(a, ss[0], Flatten(ss[1..]));
      assert forall i :: 0 < i < |ss| ==> ss[i] == ss[1..][i - 1];
      assert forall i :: 0 <= i < |ss[1..]| ==> ss[1..][i] == ss[i + 1];
    }
  }

  lemma FitsConcat<P>(a: Agg<P>, x: seq<Row>, y: seq<Row>)
    ensures Fits(a, x + y) <==> Fits(a, x) && Fits(a, y)
  {
    if Fits(a, x + y) {
      assert forall r :: r in x ==> r in x + y;
      assert forall r :: r in y ==> r in x + y;
    }
  }

  /** The result of a group does not depend on the order of the rows. */
  lemma {:induction false} SumPermutation<P(!new)>(a: Agg<P>, x: seq<Row>, y: seq<Row>, k: Key)
    requires Lawful(a) && multiset(x) == multiset(y) && Fits(a, x)
    ensures Sum(a, x, k) == Sum(a, y, k)
    decreases |x|
  {
    if x == [] {
      assert |multiset(y)| == 0;
    } else {
      var i := Counterpart(x, y);
      var rest := y[..i] + y[i + 1..];
      FitsPermutation(a, x, y);
      SumPermutation(a, x[1..], rest, k);
      SumOut(a, y, i, k);
      assert ([y[i]] + rest)[1..] == rest;
    }
  }

  lemma KeyPermutation(x: seq<Row>, y: seq<Row>, k: Key)
    requires multiset(x) == multiset(y) && HasKey(x, k)
    ensures HasKey(y, k)
  {
    var i :| 0 <= i < |x| && x[i].key == k;
    assert x[i] in multiset(y);
  }

  // ---------- maps of partial results ----------

  /** The map holds the groups of `rows` that `mine` selects, each with the result of all its rows. */
  ghost predicate Holds<P(!new)>(a: Agg<P>, m: map<Key, P>, rows: seq<Row>, mine: Key -> bool) {
    && Fits(a, rows)
    && (forall k :: k in m <==> mine(k) && HasKey(rows, k))
    && (forall k :: k in m ==> m[k] == Sum(a, rows, k))
  }

  function Everyone(): Key -> bool {
    k => true
  }

  // ---------- partial workers ----------

  /** The group keys of a chunk, in a buffer that may be longer and then ends with keys of earlier chunks. */
  method GetGroupKey(input: Chunk, groupKey: seq<Key>) returns (r: seq<Key>)
    ensures |r| == if |groupKey| < |input| then |input| else |groupKey|
    ensures forall i :: 0 <= i < |input| ==> r[i] == input[i].key
    ensures forall i :: |input| <= i < |r| ==> r[i] == groupKey[i]
  {
    r := groupKey;
    var i := 0;
    while i < |input|
      invariant 0 <= i <= |input| && |r| == if |groupKey| < i then i else |groupKey|
      invariant forall j :: 0 <= j < i ==> r[j] == input[j].key
      invariant forall j :: i <= j < |r| ==> r[j] == groupKey[j]
    {
      if i < |r| {
        r := r[i := input[i].key];
      } else {
        r := r + [input[i].key];
      }
      i := i + 1;
    }
  }

  /** Every key of the buffer gets a partial result, an empty one if it had none. */
  method GetPartialResult<P(!new)>(a: Agg<P>, groupKey: seq<Key>, mapper: map<Key, P>) returns (r: map<Key, P>)
    ensures forall k :: k in r <==> k in mapper || k in groupKey
    ensures forall k :: k in r ==> r[k] == if k in mapper then mapper[k] else a.zero
  {
    r := mapper;
    var i := 0;
    while i < |groupKey|
      invariant 0 <= i <= |groupKey|
      invariant forall k :: k in r <==> k in mapper || k in groupKey[..i]
      invariant forall k :: k in r ==> r[k] == if k in mapper then mapper[k] else a.zero
    {
      assert groupKey[..i + 1] == groupKey[..i] + [groupKey[i]];
      if groupKey[i] !in r {
        r := r[groupKey[i] := a.zero];
      }
      i := i + 1;
    }
    assert groupKey[..i] == groupKey;
  }

  lemma HasKeyNext(rows: seq<Row>, chk: Chunk, i: nat, k: Key)
    requires i < |chk|
    ensures HasKey(rows + chk[..i + 1], k) <==> HasKey(rows + chk[..i], k) || chk[i].key == k
  {
    var x, y := rows + chk[..i], rows + chk[..i + 1];
    assert y == x + [chk[i]];
    if HasKey(x, k) {
      var j :| 0 <= j < |x| && x[j].key == k;
      assert y[j] == x[j];
    }
    if chk[i].key == k { assert y[|x|].key == k; }
  }

  lemma HasKeyConcat(x: seq<Row>, y: seq<Row>, k: Key)
    ensures HasKey(x + y, k) <==> HasKey(x, k) || HasKey(y, k)
  {
    var s := x + y;
    if HasKey(s, k) {
      var i :| 0 <= i < |s| && s[i].key == k;
      if i >= |x| { assert y[i - |x|] == s[i]; }
    }
    if HasKey(x, k) {
      var i :| 0 <= i < |x| && x[i].key == k;
      assert s[i] == x[i];
    }
    if HasKey(y, k) {
      var i :| 0 <= i < |y| && y[i].key == k;
      assert s[|x| + i] == y[i];
    }
  }

  /** The rows of a chunk go into the partial results of their groups. */
  method UpdateRows<P(!new)>(a: Agg<P>, groupKey: seq<Key>, chk: Chunk, mapper: map<Key, P>, ghost rows: seq<Row>) returns (m: map<Key, P>)
    requires Lawful(a) && Fits(a, rows) && Fits(a, chk)
    requires |groupKey| >= |chk| && forall j :: 0 <= j < |chk| ==> groupKey[j] == chk[j].key
    requires forall k :: k in mapper <==> HasKey(rows + chk, k)
    requires forall k :: k in mapper ==> mapper[k] == Sum(a, rows + chk[..0], k)
    ensures forall k :: k in m <==> k in mapper
    ensures forall k :: k in m ==> m[k] == Sum(a, rows + chk, k)
  {
    m := mapper;
    var i := 0;
    while i < |chk|
      invariant 0 <= i <= |chk| && forall k :: k in m <==> k in mapper
      invariant forall k :: k in m ==> m[k] == Sum(a, rows + chk[..i], k)
    {
      var key := groupKey[i];
      Updated(a, m, rows, chk, i);
      m := m[key := a.update(m[key], chk[i].arg)];
      i := i + 1;
    }
    assert chk[..i] == chk;
  }

  class HashAggPartialWorker<P(!new)> {
    const aggFuncs: Agg<P>
    var groupKey: seq<Key>
    var partialResultsMap: map<Key, P>
    ghost var rows: seq<Row>

    /** The map is that of the rows so far, and the buffer holds no key that is not in it. */
    ghost predicate Valid()
      reads this
    {
      Lawful(aggFuncs) && Holds(aggFuncs, partialResultsMap, rows, Everyone()) && forall k :: k in groupKey ==> k in partialResultsMap
    }

    constructor (aggFuncs: Agg<P>)
      requires Lawful(aggFuncs)
      ensures Valid() && rows == [] && this.aggFuncs == aggFuncs
    {
      this.aggFuncs, groupKey, partialResultsMap, rows := aggFuncs, [], map[], [];
    }

    method UpdatePartialResult(chk: Chunk)
      requires Valid() && Fits(aggFuncs, chk)
      modifies this
      ensures Valid() && rows == old(rows) + chk
    {
      groupKey := GetGroupKey(chk, groupKey);
      ghost var before := partialResultsMap;
      var m := GetPartialResult(aggFuncs, groupKey, partialResultsMap);
      Allocated(aggFuncs, before, m, rows, chk, groupKey, old(groupKey));
      FitsConcat(aggFuncs, rows, chk);
      partialResultsMap := UpdateRows(aggFuncs, groupKey, chk, m, rows);
      rows := rows + chk;
    }

    /** Every group goes to the list of one final worker. */
    method ShuffleIntermData(hash: Key -> nat, finalConcurrency: nat) returns (groupKeysSlice: seq<seq<Key>>)
      requires finalConcurrency > 0
      ensures |groupKeysSlice| == finalConcurrency
      ensures forall f :: 0 <= f < finalConcurrency ==> Lists(groupKeysSlice[f], partialResultsMap, hash, finalConcurrency, f)
    {
      groupKeysSlice := seq(finalConcurrency, _ => []);
      var todo := partialResultsMap;
      while todo != map[]
        invariant |groupKeysSlice| == finalConcurrency && todo.Keys <= partialResultsMap.Keys
        invariant forall f :: 0 <= f < finalConcurrency ==>
                    Lists(groupKeysSlice[f], partialResultsMap - todo.Keys, hash, finalConcurrency, f)
        decreases |todo|
      {
        var k :| k in todo;
        var f := Owner(hash, finalConcurrency, k);
        groupKeysSlice := groupKeysSlice[f := groupKeysSlice[f] + [k]];
        todo := todo - {k};
      }
      assert partialResultsMap - todo.Keys == partialResultsMap;
    }
  }

  function Owner(hash: Key -> nat, n: nat, k: Key): (f: nat)
    requires n > 0
    ensures f < n
  {
    hash(k) % n
  }

  /** The list names every group of the map that belongs to the final worker, once. */
  ghost predicate Lists<P>(keys: seq<Key>, m: map<Key, P>, hash: Key -> nat, n: nat, f: nat)
    requires n > 0
  {
    Distinct(keys) && forall k :: k in keys <==> k in m && hash(k) % n == f
  }

  /** Keys left in the buffer by earlier chunks are in the map already, so no group is made up. */
  lemma Allocated<P(!new)>(a: Agg<P>, before: map<Key, P>, m: map<Key, P>, rows: seq<Row>, chk: Chunk, keys: seq<Key>, stale: seq<Key>)
    requires Holds(a, before, rows, Everyone()) && (forall k :: k in stale ==> k in before)
    requires |keys| >= |chk| && (forall i :: 0 <= i < |chk| ==> keys[i] == chk[i].key)
    requires forall i :: |chk| <= i < |keys| ==> i < |stale| && keys[i] == stale[i]
    requires forall k :: k in m <==> k in before || k in keys
    requires forall k :: k in m ==> m[k] == if k in before then before[k] else a.zero
    ensures forall k :: k in m <==> HasKey(rows + chk, k)
    ensures forall k :: k in m ==> m[k] == Sum(a, rows + chk[..0], k)
    ensures forall k :: k in keys ==> k in m
  {
    assert rows + chk[..0] == rows;
    forall k ensures k in m <==> HasKey(rows + chk, k) {
      HasKeyConcat(rows, chk, k);
      if k in keys {
        var i :| 0 <= i < |keys| && keys[i] == k;
        if i >= |chk| { assert stale[i] in stale; }
      }
      if HasKey(chk, k) {
        var i :| 0 <= i < |chk| && chk[i].key == k;
        assert keys[i] == k;
      }
    }
    forall k | k in m ensures m[k] == Sum(a, rows, k) {
      if k !in before { SumAbsent(a, rows, k); }
    }
  }

  lemma Updated<P(!new)>(a: Agg<P>, m: map<Key, P>, rows: seq<Row>, chk: Chunk, i: nat)
    requires Lawful(a) && i < |chk| && Fits(a, rows) && Fits(a, chk)
    requires forall k :: k in m <==> HasKey(rows + chk, k)
    requires forall k :: k in m ==> m[k] == Sum(a, rows + chk[..i], k)
    ensures chk[i].key in m
    ensures var r := m[chk[i].key := a.update(m[chk[i].key], chk[i].arg)];
            forall k :: k in r ==> r[k] == Sum(a, rows + chk[..i + 1], k)
  {
    assert (rows + chk)[|rows| + i] == chk[i];
    var r := m[chk[i].key := a.update(m[chk[i].key], chk[i].arg)];
    assert rows + chk[..i + 1] == (rows + chk[..i]) + [chk[i]];
    forall k | k in r ensures r[k] == Sum(a, rows + chk[..i + 1], k) {
      SumNext(a, rows + chk[..i], chk[i], k);
    }
  }

  // ---------- final workers ----------

  function Mine(hash: Key -> nat, n: nat, f: nat): Key -> bool
    requires n > 0
  {
    k => Owner(hash, n, k) == f
  }

  /** `m` is `before` with the results of `done` from `src` merged in, and empty results for `more`. */
  ghost predicate Merged<P>(a: Agg<P>, before: map<Key, P>, src: map<Key, P>, done: seq<Key>, more: seq<Key>, m: map<Key, P>)
    requires forall k :: k in done ==> k in src
  {
    && (forall k :: k in m <==> k in before || k in done || k in more)
    && (forall k :: k in m ==>
          var old_ := if k in before then before[k] else a.zero;
          m[k] == if k in done then a.merge(src[k], old_) else old_)
  }

  lemma MergeOne<P>(a: Agg<P>, before: map<Key, P>, src: map<Key, P>, done: seq<Key>, more: seq<Key>, m: map<Key, P>, k: Key)
    requires (forall k :: k in done ==> k in src) && Merged(a, before, src, done, more, m) && k in more && k !in done && k in src
    ensures Merged(a, before, src, done + [k], more, m[k := a.merge(src[k], m[k])])
  {
  }

  /** One batch of groups is merged. */
  method MergeBatch<P(!new)>(a: Agg<P>, done: seq<Key>, batch: seq<Key>, src: map<Key, P>, mapper: map<Key, P>, ghost before: map<Key, P>)
    returns (m: map<Key, P>)
    requires Distinct(done + batch) && forall k :: k in done + batch ==> k in src
    requires Merged(a, before, src, done, [], mapper)
    ensures Merged(a, before, src, done + batch, [], m)
  {
    m := GetPartialResult(a, batch, mapper);
    var i := 0;
    assert done + batch[..0] == done;
    while i < |batch|
      invariant 0 <= i <= |batch| && Merged(a, before, src, done + batch[..i], batch, m)
    {
      var k := batch[i];
      assert (done + batch)[|done| + i] == k;
      assert k !in done + batch[..i] by { DistinctAt(done + batch, |done| + i); assert (done + batch)[..|done| + i] == done + batch[..i]; }
      MergeOne(a, before, src, done + batch[..i], batch, m, k);
      assert done + batch[..i + 1] == (done + batch[..i]) + [k];
      m := m[k := a.merge(src[k], m[k])];
      i := i + 1;
    }
    assert batch[..i] == batch;
  }

  lemma DistinctAt<T>(s: seq<T>, i: nat)
    requires Distinct(s) && i < |s|
    ensures s[i] !in s[..i]
  {
  }

  lemma DistinctPrefix<T>(s: seq<T>, i: nat)
    requires Distinct(s) && i <= |s|
    ensures Distinct(s[..i])
  {
  }

  /** All groups are merged, in batches. */
  method MergeAll<P(!new)>(a: Agg<P>, groupKeys: seq<Key>, src: map<Key, P>, mapper: map<Key, P>, maxChunkSize: nat)
    returns (m: map<Key, P>)
    requires maxChunkSize > 0 && Distinct(groupKeys) && forall k :: k in groupKeys ==> k in src
    ensures Merged(a, mapper, src, groupKeys, [], m)
  {
    m := mapper;
    var cursor := 0;
    while cursor < |groupKeys|
      invariant 0 <= cursor <= |groupKeys| && Merged(a, mapper, src, groupKeys[..cursor], [], m)
    {
      var keyStart := cursor;
      cursor := if |groupKeys| - cursor < maxChunkSize then |groupKeys| else cursor + maxChunkSize;
      DistinctPrefix(groupKeys, cursor);
      assert groupKeys[..keyStart] + groupKeys[keyStart..cursor] == groupKeys[..cursor];
      m := MergeBatch(a, groupKeys[..keyStart], groupKeys[keyStart..cursor], src, m, mapper);
    }
    assert groupKeys[..cursor] == groupKeys;
  }

  /** After all groups of a worker are merged, the map is that of its rows too. */
  lemma MergedHolds<P(!new)>(a: Agg<P>, before: map<Key, P>, x: seq<Row>, src: map<Key, P>, y: seq<Row>, keys: seq<Key>,
                             m: map<Key, P>, mine: Key -> bool)
    requires Lawful(a) && Holds(a, before, x, mine) && Holds(a, src, y, Everyone())
    requires forall k :: k in keys <==> k in src && mine(k)
    requires Merged(a, before, src, keys, [], m)
    ensures Holds(a, m, x + y, mine)
  {
    forall k ensures k in m <==> mine(k) && HasKey(x + y, k) {
      HasKeyConcat(x, y, k);
    }
    forall k | k in m ensures m[k] == Sum(a, x + y, k) {
      SumConcat(a, x, y, k);
      HasKeyConcat(x, y, k);
      if k !in before { SumAbsent(a, x, k); }
      if k !in keys { SumAbsent(a, y, k); }
      MergeLawAt(a, x, y, [], k);
      MergeZero(a, x, k);
      MergeZero(a, y, k);
    }
  }

  class HashAggFinalWorker<P(!new)> {
    const aggFuncs: Agg<P>
    const hash: Key -> nat
    const n: nat
    const id: nat
    var partialResultMap: map<Key, P>
    var groupSet: set<Key>
    ghost var rows: seq<Row>

    /** The map is that of the rows of the workers heard so far, as far as their groups belong here. */
    ghost predicate Valid()
      reads this
    {
      n > 0 && Lawful(aggFuncs) && Holds(aggFuncs, partialResultMap, rows, Mine(hash, n, id)) && groupSet == partialResultMap.Keys
    }

    constructor (aggFuncs: Agg<P>, hash: Key -> nat, n: nat, id: nat)
      requires Lawful(aggFuncs) && n > 0
      ensures Valid() && rows == [] && this.aggFuncs == aggFuncs && this.hash == hash && this.n == n && this.id == id
    {
      this.aggFuncs, this.hash, this.n, this.id := aggFuncs, hash, n, id;
      partialResultMap, groupSet, rows := map[], {}, [];
    }

    /** The data of one partial worker, in batches. */
    method ConsumeIntermData(groupKeys: seq<Key>, input: map<Key, P>, ghost inputRows: seq<Row>, maxChunkSize: nat)
      requires Valid() && maxChunkSize > 0
      requires Holds(aggFuncs, input, inputRows, Everyone()) && Lists(groupKeys, input, hash, n, id)
      modifies this
      ensures Valid() && rows == old(rows) + inputRows
    {
      var m := MergeAll(aggFuncs, groupKeys, input, partialResultMap, maxChunkSize);
      MergedHolds(aggFuncs, partialResultMap, rows, input, inputRows, groupKeys, m, Mine(hash, n, id));
      partialResultMap, groupSet := m, groupSet + (set k | k in groupKeys);
      rows := rows + inputRows;
    }

    method GetFinalResult(capacity: nat) returns (chunks: seq<seq<(Key, P)>>)
      requires Valid() && capacity > 0
      ensures Bounded(chunks, capacity) && Output(Flatten(chunks), partialResultMap)
    {
      chunks := PutOut(partialResultMap, groupSet, capacity);
    }
  }

  ghost predicate Bounded<T>(chunks: seq<seq<T>>, capacity: nat) {
    forall i :: 0 <= i < |chunks| ==> |chunks[i]| <= capacity
  }

  /** A row joins the open chunk, which is sent when it is full. */
  method Append<T>(chunks: seq<seq<T>>, result: seq<T>, row: T, capacity: nat) returns (chunks': seq<seq<T>>, result': seq<T>)
    requires Bounded(chunks, capacity) && |result| < capacity
    ensures Bounded(chunks', capacity) && |result'| < capacity
    ensures Flatten(chunks') + result' == Flatten(chunks) + result + [row]
  {
    chunks', result' := chunks, result + [row];
    if |result'| == capacity {
      FlattenSnoc(chunks, result');
      chunks', result' := chunks + [result'], [];
      assert Flatten(chunks') + result' == Flatten(chunks');
    }
  }

  /** Every group is put out once, in chunks of at most the given size. */
  method PutOut<P(!new)>(m: map<Key, P>, groupSet: set<Key>, capacity: nat) returns (chunks: seq<seq<(Key, P)>>)
    requires groupSet == m.Keys && capacity > 0
    ensures Bounded(chunks, capacity) && Output(Flatten(chunks), m)
  {
    chunks := [];
    var result: seq<(Key, P)> := [];
    var todo := groupSet;
    while todo != {}
      invariant todo <= m.Keys && |result| < capacity && Bounded(chunks, capacity)
      invariant OutputOf(Flatten(chunks) + result, m, m.Keys - todo)
      decreases todo
    {
      var k :| k in todo;
      OutputNext(Flatten(chunks) + result, m, m.Keys - todo, k);
      assert m.Keys - (todo - {k}) == m.Keys - todo + {k};
      chunks, result := Append(chunks, result, (k, m[k]), capacity);
      todo := todo - {k};
    }
    assert m.Keys - todo == m.Keys;
    FlattenSnoc(chunks, result);
    chunks := chunks + [result];
  }

  /** The rows put out are the groups of the map, each once and with its result. */
  ghost predicate Output<P>(out: seq<(Key, P)>, m: map<Key, P>) {
    OutputOf(out, m, m.Keys)
  }

  ghost predicate OutputOf<P>(out: seq<(Key, P)>, m: map<Key, P>, done: set<Key>) {
    && |out| == |done|
    && (forall i :: 0 <= i < |out| ==> out[i].0 in done && out[i].0 in m && out[i].1 == m[out[i].0])
    && (forall i, j :: 0 <= i < j < |out| ==> out[i].0 != out[j].0)
  }

  lemma OutputNext<P>(out: seq<(Key, P)>, m: map<Key, P>, done: set<Key>, k: Key)
    requires OutputOf(out, m, done) && k !in done && k in m
    ensures OutputOf(out + [(k, m[k])], m, done + {k})
  {
  }

  // ---------- the sequential executor ----------

  /** The keys listed are those of the map, each once. */
  ghost predicate Names<P>(groupKeys: seq<Key>, m: map<Key, P>) {
    Distinct(groupKeys) && forall k :: k in groupKeys <==> k in m
  }

  method ExecuteChunk<P(!new)>(a: Agg<P>, childResult: Chunk, groupKeyBuffer: seq<Key>, m: map<Key, P>, keys: seq<Key>, ghost rows: seq<Row>)
    returns (partialResultMap: map<Key, P>, groupKeys: seq<Key>)
    requires Lawful(a) && Holds(a, m, rows, Everyone()) && Names(keys, m) && Fits(a, childResult)
    requires |groupKeyBuffer| >= |childResult| && forall i :: 0 <= i < |childResult| ==> groupKeyBuffer[i] == childResult[i].key
    ensures Holds(a, partialResultMap, rows + childResult, Everyone()) && Names(groupKeys, partialResultMap)
  {
    partialResultMap, groupKeys := m, keys;
    var j := 0;
    assert rows + childResult[..0] == rows;
    while j < |childResult|
      invariant 0 <= j <= |childResult| && Holds(a, partialResultMap, rows + childResult[..j], Everyone())
      invariant Names(groupKeys, partialResultMap)
    {
      var groupKey := groupKeyBuffer[j];
      RowHolds(a, partialResultMap, rows, childResult, j);
      var p := a.zero;
      if groupKey !in partialResultMap {
        groupKeys := groupKeys + [groupKey];
      } else {
        p := partialResultMap[groupKey];
      }
      partialResultMap := partialResultMap[groupKey := a.update(p, childResult[j].arg)];
      j := j + 1;
    }
    assert childResult[..j] == childResult;
  }

  /** The whole input in one thread; the groups in the order they were first met. */
  method Execute<P(!new)>(a: Agg<P>, children: seq<Chunk>) returns (partialResultMap: map<Key, P>, groupKeys: seq<Key>)
    requires Lawful(a) && Fits(a, Flatten(children))
    ensures Holds(a, partialResultMap, Flatten(children), Everyone()) && Names(groupKeys, partialResultMap)
  {
    partialResultMap, groupKeys := map[], [];
    FitsFlatten(a, children);
    var groupKeyBuffer: seq<Key> := [];
    var i := 0;
    assert children[..0] == [];
    while i < |children|
      invariant 0 <= i <= |children| && Holds(a, partialResultMap, Flatten(children[..i]), Everyone())
      invariant Names(groupKeys, partialResultMap)
    {
      ghost var rows := Flatten(children[..i]);
      groupKeyBuffer := GetGroupKey(children[i], groupKeyBuffer);
      partialResultMap, groupKeys := ExecuteChunk(a, children[i], groupKeyBuffer, partialResultMap, groupKeys, rows);
      FlattenSnoc(children[..i], children[i]);
      assert children[..i + 1] == children[..i] + [children[i]];
      i := i + 1;
    }
    assert children[..i] == children;
  }

  lemma RowHolds<P(!new)>(a: Agg<P>, m: map<Key, P>, rows: seq<Row>, chk: Chunk, j: nat)
    requires Lawful(a) && j < |chk| && Holds(a, m, rows + chk[..j], Everyone()) && Fits(a, chk)
    ensures var k := chk[j].key;
            Holds(a, m[k := a.update(if k in m then m[k] else a.zero, chk[j].arg)], rows + chk[..j + 1], Everyone())
  {
    var x := rows + chk[..j];
    assert rows + chk[..j + 1] == x + [chk[j]];
    var r := m[chk[j].key := a.update(if chk[j].key in m then m[chk[j].key] else a.zero, chk[j].arg)];
    forall k ensures k in r <==> HasKey(x + [chk[j]], k) {
      HasKeyNext(rows, chk, j, k);
    }
    forall k | k in r ensures r[k] == Sum(a, x + [chk[j]], k) {
      SumNext(a, x, chk[j], k);
      if k !in m { SumAbsent(a, x, k); }
    }
  }

  // ---------- parallel is sequential ----------

  lemma {:induction false} FlattenPermutation<T>(x: seq<seq<T>>, y: seq<seq<T>>)
    requires multiset(x) == multiset(y)
    ensures multiset(Flatten(x)) == multiset(Flatten(y))
    decreases |x|
  {
    if x == [] {
      assert |multiset(y)| == 0;
    } else {
      var i := Counterpart(x, y);
      FlattenPermutation(x[1..], y[..i] + y[i + 1..]);
      FlattenOut(y, i);
    }
  }

  lemma FlattenOut<T>(y: seq<seq<T>>, i: nat)
    requires i < |y|
    ensures multiset(Flatten(y)) == multiset(y[i]) + multiset(Flatten(y[..i] + y[i + 1..]))
  {
    var l, r := y[..i], y[i + 1..];
    FlattenConcat(l, r);
    FlattenConcat(l, [y[i]] + r);
    assert y == l + ([y[i]] + r) && ([y[i]] + r)[1..] == r;
    Rotate(Flatten(l), y[i], Flatten(r));
  }

  lemma Rotate<T>(x: seq<T>, y: seq<T>, z: seq<T>)
    ensures multiset(x + (y + z)) == multiset(y) + multiset(x + z)
  {
  }

  /** The rows each partial worker got. */
  function WorkerRows(dealt: seq<seq<Chunk>>): seq<seq<Row>> {
    if dealt == [] then [] else [Flatten(dealt[0])] + WorkerRows(dealt[1..])
  }

  lemma {:induction false} WorkerRowsFlatten(dealt: seq<seq<Chunk>>)
    ensures Flatten(WorkerRows(dealt)) == Flatten(Flatten(dealt))
    decreases |dealt|
  {
    if dealt == [] {
    } else {
      WorkerRowsFlatten(dealt[1..]);
      FlattenConcat(dealt[0], Flatten(dealt[1..]));
      var w := WorkerRows(dealt);
      assert w[0] == Flatten(dealt[0]) && w[1..] == WorkerRows(dealt[1..]);
    }
  }

  lemma {:induction false} SilentKeys(silent: seq<seq<Row>>, k: Key)
    requires forall i :: 0 <= i < |silent| ==> !HasKey(silent[i], k)
    ensures !HasKey(Flatten(silent), k)
    decreases |silent|
  {
    if silent == [] {
    } else {
      SilentKeys(silent[1..], k);
      HasKeyConcat(silent[0], Flatten(silent[1..]), k);
    }
  }

  /** Workers with no group for this final worker send nothing, and need not. */
  lemma SilentHolds<P(!new)>(a: Agg<P>, m: map<Key, P>, rows: seq<Row>, silent: seq<seq<Row>>, mine: Key -> bool)
    requires Lawful(a) && Holds(a, m, rows, mine) && Fits(a, Flatten(silent))
    requires forall i, k :: 0 <= i < |silent| && mine(k) ==> !HasKey(silent[i], k)
    ensures Holds(a, m, rows + Flatten(silent), mine)
  {
    forall k | mine(k) ensures !HasKey(Flatten(silent), k) {
      SilentKeys(silent, k);
    }
    forall k ensures k in m <==> mine(k) && HasKey(rows + Flatten(silent), k) {
      HasKeyConcat(rows, Flatten(silent), k);
    }
    forall k | k in m ensures m[k] == Sum(a, rows + Flatten(silent), k) {
      SumConcat(a, rows, Flatten(silent), k);
      SumAbsent(a, Flatten(silent), k);
      MergeZero(a, rows, k);
    }
  }

  // ---------- the whole pipeline ----------

  /** What a partial worker has for the final workers: its map, and the groups of each. */
  datatype Shuffled<!P> = Shuffled(groupKeys: seq<seq<Key>>, results: map<Key, P>)

  ghost predicate ShuffledOf<P(!new)>(a: Agg<P>, hash: Key -> nat, n: nat, d: Shuffled<P>, rows: seq<Row>)
    requires n > 0
  {
    && Holds(a, d.results, rows, Everyone()) && |d.groupKeys| == n
    && forall f :: 0 <= f < n ==> Lists(d.groupKeys[f], d.results, hash, n, f)
  }

  /** A partial worker, from its first chunk to the shuffle. */
  method RunPartialWorker<P(!new)>(a: Agg<P>, hash: Key -> nat, n: nat, chunks: seq<Chunk>) returns (d: Shuffled<P>)
    requires Lawful(a) && n > 0 && Fits(a, Flatten(chunks))
    ensures ShuffledOf(a, hash, n, d, Flatten(chunks))
  {
    FitsFlatten(a, chunks);
    var w := new HashAggPartialWorker(a);
    var i := 0;
    while i < |chunks|
      invariant 0 <= i <= |chunks| && w.Valid() && w.aggFuncs == a && w.rows == Flatten(chunks[..i]) && fresh(w)
    {
      w.UpdatePartialResult(chunks[i]);
      FlattenSnoc(chunks[..i], chunks[i]);
      assert chunks[..i + 1] == chunks[..i] + [chunks[i]];
      i := i + 1;
    }
    assert chunks[..i] == chunks;
    var groupKeysSlice := w.ShuffleIntermData(hash, n);
    d := Shuffled(groupKeysSlice, w.partialResultsMap);
  }

  lemma HoldsPermutation<P(!new)>(a: Agg<P>, m: map<Key, P>, x: seq<Row>, y: seq<Row>, mine: Key -> bool)
    requires Lawful(a) && Holds(a, m, x, mine) && multiset(x) == multiset(y)
    ensures Holds(a, m, y, mine)
  {
    FitsPermutation(a, x, y);
    forall k ensures k in m <==> mine(k) && HasKey(y, k) {
      if HasKey(x, k) { KeyPermutation(x, y, k); }
      if HasKey(y, k) { KeyPermutation(y, x, k); }
    }
    forall k | k in m ensures m[k] == Sum(a, y, k) {
      SumPermutation(a, x, y, k);
    }
  }

  /** The data is spread over what has arrived, what will never be sent, and what is still on its way. */
  ghost predicate Spread(hash: Key -> nat, n: nat, f: nat, all: seq<seq<Row>>, arrived: seq<seq<Row>>, silent: seq<seq<Row>>, coming: seq<seq<Row>>)
    requires n > 0
  {
    && multiset(arrived) + multiset(silent) + multiset(coming) == multiset(all)
    && forall i, k :: 0 <= i < |silent| && Owner(hash, n, k) == f ==> !HasKey(silent[i], k)
  }

  lemma OneArrives(hash: Key -> nat, n: nat, f: nat, all: seq<seq<Row>>, arrived: seq<seq<Row>>, silent: seq<seq<Row>>,
                   coming: seq<seq<Row>>, i: nat)
    requires n > 0 && Spread(hash, n, f, all, arrived, silent, coming) && i < |coming|
    ensures Spread(hash, n, f, all, arrived + [coming[i]], silent, coming[..i] + coming[i + 1..])
  {
    Without(coming, i);
  }

  /** A worker with no group for `f` sends it nothing. */
  lemma OneIsSilent<P(!new)>(a: Agg<P>, hash: Key -> nat, n: nat, f: nat, all: seq<seq<Row>>, arrived: seq<seq<Row>>, silent: seq<seq<Row>>,
                             coming: seq<seq<Row>>, i: nat, d: Shuffled<P>)
    requires n > 0 && f < n && Spread(hash, n, f, all, arrived, silent, coming) && i < |coming|
    requires ShuffledOf(a, hash, n, d, coming[i]) && d.groupKeys[f] == []
    ensures Spread(hash, n, f, all, arrived, silent + [coming[i]], coming[..i] + coming[i + 1..])
  {
    Without(coming, i);
    forall k | Owner(hash, n, k) == f ensures !HasKey(coming[i], k) {
      assert k !in d.groupKeys[f];
    }
  }

  ghost predicate Inbox<P(!new)>(a: Agg<P>, hash: Key -> nat, n: nat, data: seq<Shuffled<P>>, rows: seq<seq<Row>>)
    requires n > 0
  {
    |rows| == |data| && forall i :: 0 <= i < |data| ==> ShuffledOf(a, hash, n, data[i], rows[i])
  }

  lemma InboxWithout<P(!new)>(a: Agg<P>, hash: Key -> nat, n: nat, data: seq<Shuffled<P>>, rows: seq<seq<Row>>, i: nat)
    requires n > 0 && Inbox(a, hash, n, data, rows) && i < |data|
    ensures Inbox(a, hash, n, data[..i] + data[i + 1..], rows[..i] + rows[i + 1..])
  {
    var data', rows' := data[..i] + data[i + 1..], rows[..i] + rows[i + 1..];
    forall j | 0 <= j < |data'| ensures ShuffledOf(a, hash, n, data'[j], rows'[j]) {
      var j' := if j < i then j else j + 1;
      assert data'[j] == data[j'] && rows'[j] == rows[j'];
    }
  }

  lemma AllArrived<P(!new)>(a: Agg<P>, hash: Key -> nat, n: nat, f: nat, all: seq<seq<Row>>, arrived: seq<seq<Row>>, silent: seq<seq<Row>>,
                            m: map<Key, P>)
    requires Lawful(a) && n > 0 && Spread(hash, n, f, all, arrived, silent, []) && Holds(a, m, Flatten(arrived), Mine(hash, n, f))
    requires Fits(a, Flatten(all))
    ensures Holds(a, m, Flatten(all), Mine(hash, n, f))
  {
    FlattenConcat(arrived, silent);
    assert multiset(arrived + silent) == multiset(all);
    FlattenPermutation(arrived + silent, all);
    FitsPermutation(a, Flatten(all), Flatten(arrived + silent));
    FitsConcat(a, Flatten(arrived), Flatten(silent));
    SilentHolds(a, m, Flatten(arrived), silent, Mine(hash, n, f));
    HoldsPermutation(a, m, Flatten(arrived + silent), Flatten(all), Mine(hash, n, f));
  }

  /** A final worker: it takes the data of the partial workers in any order, then puts its groups out. */
  method RunFinalWorker<P(!new)>(a: Agg<P>, hash: Key -> nat, n: nat, f: nat, data: seq<Shuffled<P>>, ghost rows: seq<seq<Row>>,
                                 maxChunkSize: nat, capacity: nat)
    returns (chunks: seq<seq<(Key, P)>>, ghost m: map<Key, P>)
    requires Lawful(a) && n > 0 && f < n && maxChunkSize > 0 && capacity > 0 && Inbox(a, hash, n, data, rows)
    ensures Bounded(chunks, capacity) && Output(Flatten(chunks), m) && Holds(a, m, Flatten(rows), Mine(hash, n, f))
  {
    var w := new HashAggFinalWorker(a, hash, n, f);
    var inbox := data;
    ghost var arrived: seq<seq<Row>>, silent: seq<seq<Row>>, coming := [], [], rows;
    while inbox != []
      invariant w.Valid() && w.aggFuncs == a && w.hash == hash && w.n == n && w.id == f && fresh(w)
      invariant Inbox(a, hash, n, inbox, coming) && w.rows == Flatten(arrived)
      invariant Spread(hash, n, f, rows, arrived, silent, coming)
      decreases |inbox|
    {
      var i: nat :| i < |inbox|;
      var d := inbox[i];
      assert ShuffledOf(a, hash, n, d, coming[i]);
      InboxWithout(a, hash, n, inbox, coming, i);
      if d.groupKeys[f] != [] {
        OneArrives(hash, n, f, rows, arrived, silent, coming, i);
        FlattenSnoc(arrived, coming[i]);
        w.ConsumeIntermData(d.groupKeys[f], d.results, coming[i], maxChunkSize);
        arrived := arrived + [coming[i]];
      } else {
        OneIsSilent(a, hash, n, f, rows, arrived, silent, coming, i, d);
        silent := silent + [coming[i]];
      }
      inbox, coming := inbox[..i] + inbox[i + 1..], coming[..i] + coming[i + 1..];
    }
    m := w.partialResultMap;
    FitsFlatten(a, rows);
    AllArrived(a, hash, n, f, rows, arrived, silent, m);
    chunks := w.GetFinalResult(capacity);
  }

  // ---------- the output of all final workers ----------

  /** The groups of the final workers before `f`. */
  ghost function OwnedBefore<P>(s: map<Key, P>, hash: Key -> nat, n: nat, f: nat): set<Key>
    requires n > 0
  {
    set k | k in s && Owner(hash, n, k) < f
  }

  /** The map of a final worker is the part of the sequential one that it owns. */
  lemma PartOfWhole<P(!new)>(a: Agg<P>, hash: Key -> nat, n: nat, f: nat, x: seq<Row>, y: seq<Row>, m: map<Key, P>, s: map<Key, P>)
    requires Lawful(a) && n > 0 && multiset(x) == multiset(y)
    requires Holds(a, m, x, Mine(hash, n, f)) && Holds(a, s, y, Everyone())
    ensures (forall k :: k in m <==> k in s && Owner(hash, n, k) == f) && (forall k :: k in m ==> m[k] == s[k])
  {
    HoldsPermutation(a, m, x, y, Mine(hash, n, f));
  }

  lemma OwnedNext<P>(s: map<Key, P>, hash: Key -> nat, n: nat, f: nat, m: map<Key, P>)
    requires n > 0 && forall k :: k in m <==> k in s && Owner(hash, n, k) == f
    ensures OwnedBefore(s, hash, n, f + 1) == OwnedBefore(s, hash, n, f) + m.Keys && OwnedBefore(s, hash, n, f) !! m.Keys
  {
  }

  lemma OutputJoin<P>(x: seq<(Key, P)>, s: map<Key, P>, d: set<Key>, y: seq<(Key, P)>, m: map<Key, P>)
    requires OutputOf(x, s, d) && Output(y, m) && d !! m.Keys && forall k :: k in m ==> k in s && m[k] == s[k]
    ensures OutputOf(x + y, s, d + m.Keys)
  {
    var out := x + y;
    assert forall i :: |x| <= i < |out| ==> out[i] == y[i - |x|];
    forall i, j | 0 <= i < j < |out| ensures out[i].0 != out[j].0 {
      if i < |x| <= j {
        assert out[i].0 in d && out[j].0 in m.Keys;
      }
    }
  }

  /** The groups of one more final worker, after those of the workers before it. */
  lemma OneMoreOutput<P(!new)>(a: Agg<P>, hash: Key -> nat, n: nat, f: nat, x: seq<Row>, y: seq<Row>, m: map<Key, P>, s: map<Key, P>,
                               out: seq<seq<(Key, P)>>, chunks: seq<seq<(Key, P)>>)
    requires Lawful(a) && n > 0 && multiset(x) == multiset(y)
    requires Holds(a, m, x, Mine(hash, n, f)) && Holds(a, s, y, Everyone())
    requires OutputOf(Flatten(out), s, OwnedBefore(s, hash, n, f)) && Output(Flatten(chunks), m)
    ensures OutputOf(Flatten(out + chunks), s, OwnedBefore(s, hash, n, f + 1))
  {
    PartOfWhole(a, hash, n, f, x, y, m, s);
    OwnedNext(s, hash, n, f, m);
    OutputJoin(Flatten(out), s, OwnedBefore(s, hash, n, f), Flatten(chunks), m);
    FlattenConcat(out, chunks);
  }

  lemma AllOwned<P>(s: map<Key, P>, hash: Key -> nat, n: nat)
    requires n > 0
    ensures OwnedBefore(s, hash, n, 0) == {} && OwnedBefore(s, hash, n, n) == s.Keys
  {
  }

  /** One more final worker puts out its groups. */
  method AddFinalWorker<P(!new)>(a: Agg<P>, hash: Key -> nat, n: nat, f: nat, data: seq<Shuffled<P>>, ghost rows: seq<seq<Row>>,
                                 maxChunkSize: nat, capacity: nat, ghost y: seq<Row>, ghost s: map<Key, P>, out: seq<seq<(Key, P)>>)
    returns (out': seq<seq<(Key, P)>>)
    requires Lawful(a) && f < n && maxChunkSize > 0 && capacity > 0 && Inbox(a, hash, n, data, rows)
    requires multiset(Flatten(rows)) == multiset(y) && Holds(a, s, y, Everyone())
    requires Bounded(out, capacity) && OutputOf(Flatten(out), s, OwnedBefore(s, hash, n, f))
    ensures Bounded(out', capacity) && OutputOf(Flatten(out'), s, OwnedBefore(s, hash, n, f + 1))
  {
    var chunks, m := RunFinalWorker(a, hash, n, f, data, rows, maxChunkSize, capacity);
    OneMoreOutput(a, hash, n, f, Flatten(rows), y, m, s, out, chunks);
    out' := out + chunks;
  }

  method RunFinalWorkers<P(!new)>(a: Agg<P>, hash: Key -> nat, n: nat, data: seq<Shuffled<P>>, ghost rows: seq<seq<Row>>,
                                  maxChunkSize: nat, capacity: nat, ghost y: seq<Row>, ghost s: map<Key, P>)
    returns (out: seq<seq<(Key, P)>>)
    requires Lawful(a) && n > 0 && maxChunkSize > 0 && capacity > 0 && Inbox(a, hash, n, data, rows)
    requires multiset(Flatten(rows)) == multiset(y) && Holds(a, s, y, Everyone())
    ensures Bounded(out, capacity) && Output(Flatten(out), s)
  {
    AllOwned(s, hash, n);
    out := [];
    var f: nat := 0;
    while f < n
      invariant f <= n && Bounded(out, capacity) && OutputOf(Flatten(out), s, OwnedBefore(s, hash, n, f))
    {
      out := AddFinalWorker(a, hash, n, f, data, rows, maxChunkSize, capacity, y, s, out);
      f := f + 1;
    }
  }

  lemma {:induction false} WorkerRowsLength(dealt: seq<seq<Chunk>>)
    ensures |WorkerRows(dealt)| == |dealt|
  {
    if dealt == [] {
    } else {
      WorkerRowsLength(dealt[1..]);
    }
  }

  lemma {:induction false} WorkerRowsAt(dealt: seq<seq<Chunk>>, p: nat)
    requires p < |dealt| == |WorkerRows(dealt)|
    ensures WorkerRows(dealt)[p] == Flatten(dealt[p])
    decreases |dealt|
  {
    if p == 0 {
    } else {
      WorkerRowsAt(dealt[1..], p - 1);
    }
  }

  method RunPartialWorkers<P(!new)>(a: Agg<P>, hash: Key -> nat, n: nat, dealt: seq<seq<Chunk>>) returns (data: seq<Shuffled<P>>)
    requires Lawful(a) && n > 0 && forall p :: 0 <= p < |dealt| ==> Fits(a, Flatten(dealt[p]))
    ensures Inbox(a, hash, n, data, WorkerRows(dealt))
  {
    data := [];
    var p := 0;
    while p < |dealt|
      invariant 0 <= p <= |dealt| && |data| == p && forall q :: 0 <= q < p ==> ShuffledOf(a, hash, n, data[q], Flatten(dealt[q]))
    {
      var d := RunPartialWorker(a, hash, n, dealt[p]);
      data := data + [d];
      p := p + 1;
    }
    WorkerRowsLength(dealt);
    forall q | 0 <= q < |dealt| ensures ShuffledOf(a, hash, n, data[q], WorkerRows(dealt)[q]) {
      WorkerRowsAt(dealt, q);
    }
  }

  lemma DealtRows(input: seq<Chunk>, dealt: seq<seq<Chunk>>)
    requires multiset(Flatten(dealt)) == multiset(input)
    ensures multiset(Flatten(WorkerRows(dealt))) == multiset(Flatten(input))
  {
    WorkerRowsFlatten(dealt);
    FlattenPermutation(Flatten(dealt), input);
  }

  lemma DealtFits<P>(a: Agg<P>, input: seq<Chunk>, dealt: seq<seq<Chunk>>)
    requires Fits(a, Flatten(input)) && multiset(Flatten(WorkerRows(dealt))) == multiset(Flatten(input))
    ensures forall p :: 0 <= p < |dealt| ==> Fits(a, Flatten(dealt[p]))
  {
    FitsPermutation(a, Flatten(input), Flatten(WorkerRows(dealt)));
    FitsFlatten(a, WorkerRows(dealt));
    WorkerRowsLength(dealt);
    forall p | 0 <= p < |dealt| ensures Fits(a, Flatten(dealt[p])) {
      WorkerRowsAt(dealt, p);
    }
  }

  /**
    Whatever chunks went to which worker, and in whatever order their data arrived at the final
    worker `f`, it ends with exactly those groups of the sequential executor that it owns, and the
    same results.
   */
  lemma ParallelIsSequential<P(!new)>(a: Agg<P>, hash: Key -> nat, n: nat, f: nat, input: seq<Chunk>, dealt: seq<seq<Chunk>>,
                                      arrived: seq<seq<Row>>, silent: seq<seq<Row>>, m: map<Key, P>, s: map<Key, P>)
    requires Lawful(a) && n > 0
    requires multiset(Flatten(dealt)) == multiset(input) && multiset(arrived + silent) == multiset(WorkerRows(dealt))
    requires forall i, k :: 0 <= i < |silent| && Owner(hash, n, k) == f ==> !HasKey(silent[i], k)
    requires Holds(a, m, Flatten(arrived), Mine(hash, n, f)) && Holds(a, s, Flatten(input), Everyone())
    ensures forall k :: k in m <==> k in s && Owner(hash, n, k) == f
    ensures forall k :: k in m ==> m[k] == s[k]
  {
    assert multiset(arrived) + multiset(silent) == multiset(arrived + silent);
    DealtRows(input, dealt);
    FitsPermutation(a, Flatten(input), Flatten(WorkerRows(dealt)));
    AllArrived(a, hash, n, f, WorkerRows(dealt), arrived, silent, m);
    PartOfWhole(a, hash, n, f, Flatten(WorkerRows(dealt)), Flatten(input), m, s);
  }

  /**
    Main result: the whole parallel execution. The chunks of the input go to the partial workers in
    any way, and what they make of them reaches the final workers in any order; what these put out is
    what the sequential executor ends with, every group once and with the same result.
   */
  method ParallelExec<P(!new)>(a: Agg<P>, hash: Key -> nat, n: nat, ghost input: seq<Chunk>, dealt: seq<seq<Chunk>>,
                               maxChunkSize: nat, capacity: nat, ghost s: map<Key, P>)
    returns (out: seq<seq<(Key, P)>>)
    requires Lawful(a) && n > 0 && maxChunkSize > 0 && capacity > 0
    requires multiset(Flatten(dealt)) == multiset(input) && Holds(a, s, Flatten(input), Everyone())
    ensures Bounded(out, capacity) && Output(Flatten(out), s)
  {
    DealtRows(input, dealt);
    DealtFits(a, input, dealt);
    var data := RunPartialWorkers(a, hash, n, dealt);
    out := RunFinalWorkers(a, hash, n, data, WorkerRows(dealt), maxChunkSize, capacity, Flatten(input), s);
  }

  lemma {:induction false} AtMostOnce<T>(s: seq<T>, v: T)
    requires Distinct(s)
    ensures multiset(s)[v] <= 1
  {
    if s == [] {
    } else {
      var rest := s[1..];
      AtMostOnce(rest, v);
      assert s == [s[0]] + rest && (s[0] == v ==> v !in rest);
    }
  }

  lemma DistinctPermutation<T>(x: seq<T>, y: seq<T>)
    requires Distinct(x) && multiset(x) == multiset(y)
    ensures Distinct(y)
  {
    forall i, j | 0 <= i < j < |y| ensures y[i] != y[j] {
      AtMostOnce(x, y[j]);
      assert y == y[..j] + [y[j]] + y[j + 1..];
      assert y[i] in y[..j];
    }
  }

  /** The rows may reach the reader in any order. */
  lemma OutputPermutation<P>(x: seq<(Key, P)>, y: seq<(Key, P)>, s: map<Key, P>)
    requires Output(x, s) && multiset(x) == multiset(y)
    ensures Output(y, s)
  {
    assert |x| == |multiset(x)| == |y|;
    DistinctPermutation(x, y);
    forall i | 0 <= i < |y| ensures y[i].0 in s && y[i].1 == s[y[i].0] {
      assert y[i] in multiset(x);
    }
  }

  // ---------- which functions are lawful ----------

  function At(v: Values, i: nat): int {
    if i < |v| then v[i] else 0
  }

  /** Laws that hold of all partial results hold of those of one group. */
  lemma EverywhereLawful<P(!new)>(a: Agg<P>)
    requires (forall p, q, r :: MergeLaw(a, p, q, r)) && (forall p, v :: RowLaw(a, p, v))
    ensures Lawful(a)
  {
  }

  function SumAndCount(i: nat): Agg<(int, int)> {
    Agg((0, 0), (p: (int, int), v: Values) => (p.0 + At(v, i), p.1 + 1),
        (p: (int, int), q: (int, int)) => (p.0 + q.0, p.1 + q.1), (k: Key, v: Values) => true)
  }

  lemma SumAndCountLawful(i: nat)
    ensures Lawful(SumAndCount(i)) && forall rows :: Fits(SumAndCount(i), rows)
  {
    var a := SumAndCount(i);
    forall p: (int, int), q: (int, int), r: (int, int) ensures MergeLaw(a, p, q, r) {
    }
    forall p: (int, int), v: Values ensures RowLaw(a, p, v) {
    }
    EverywhereLawful(a);
  }

  ghost function GroupRows(rows: seq<Row>, k: Key): seq<Row> {
    if rows == [] then [] else (if rows[0].key == k then [rows[0]] else []) + GroupRows(rows[1..], k)
  }

  ghost function Total(i: nat, rows: seq<Row>): int {
    if rows == [] then 0 else At(rows[0].arg, i) + Total(i, rows[1..])
  }

  /** The result of a group is the sum and the number of its rows. */
  lemma {:induction false} SumAndCountMeans(i: nat, rows: seq<Row>, k: Key)
    ensures Sum(SumAndCount(i), rows, k) == (Total(i, GroupRows(rows, k)), |GroupRows(rows, k)|)
    decreases |rows|
  {
    if rows == [] {
    } else {
      SumAndCountMeans(i, rows[1..], k);
      if rows[0].key == k {
        assert ([rows[0]] + GroupRows(rows[1..], k))[1..] == GroupRows(rows[1..], k);
      } else {
        assert GroupRows(rows, k) == GroupRows(rows[1..], k);
      }
    }
  }

  /** The first value met; a query puts out its group columns in this way, and there all rows of a group agree. */
  function FirstRow(i: nat, column: Key -> int): Agg<Option<int>> {
    Agg(None, (p: Option<int>, v: Values) => if p.Some? then p else Some(At(v, i)),
        (src: Option<int>, dst: Option<int>) => if dst.Some? then dst else src, (k: Key, v: Values) => At(v, i) == column(k))
  }

  lemma {:induction false} FirstRowOfGroup(i: nat, column: Key -> int, rows: seq<Row>, k: Key)
    requires Fits(FirstRow(i, column), rows)
    ensures Sum(FirstRow(i, column), rows, k) == if HasKey(rows, k) then Some(column(k)) else None
    decreases |rows|
  {
    if rows == [] {
    } else {
      assert rows[0] in rows;
      FirstRowOfGroup(i, column, rows[1..], k);
      assert rows == [rows[0]] + rows[1..];
      HasKeyConcat([rows[0]], rows[1..], k);
      assert HasKey([rows[0]], k) <==> rows[0].key == k;
    }
  }

  lemma FirstRowLawful(i: nat, column: Key -> int)
    ensures Lawful(FirstRow(i, column))
  {
    var a := FirstRow(i, column);
    forall k, x, y, z ensures MergesInGroup(a, k, x, y, z) {
      if Fits(a, x) && Fits(a, y) && Fits(a, z) {
        FirstRowOfGroup(i, column, x, k);
        FirstRowOfGroup(i, column, y, k);
        FirstRowOfGroup(i, column, z, k);
      }
    }
    forall k, x, v ensures UpdatesInGroup(a, k, x, v) {
      if Fits(a, x) { FirstRowOfGroup(i, column, x, k); }
    }
  }

  /** Two functions of one query. */
  function Both<P, Q>(a: Agg<P>, b: Agg<Q>): Agg<(P, Q)> {
    Agg((a.zero, b.zero), (p: (P, Q), v: Values) => (a.update(p.0, v), b.update(p.1, v)),
        (p: (P, Q), q: (P, Q)) => (a.merge(p.0, q.0), b.merge(p.1, q.1)),
        (k: Key, v: Values) => a.possible(k, v) && b.possible(k, v))
  }

  lemma {:induction false} SumBoth<P, Q>(a: Agg<P>, b: Agg<Q>, rows: seq<Row>, k: Key)
    ensures Sum(Both(a, b), rows, k) == (Sum(a, rows, k), Sum(b, rows, k))
    decreases |rows|
  {
    if rows == [] {
    } else {
      SumBoth(a, b, rows[1..], k);
    }
  }

  lemma FitsBoth<P, Q>(a: Agg<P>, b: Agg<Q>, rows: seq<Row>)
    requires Fits(Both(a, b), rows)
    ensures Fits(a, rows) && Fits(b, rows)
  {
    forall r | r in rows ensures a.possible(r.key, r.arg) && b.possible(r.key, r.arg) {
      assert Both(a, b).possible(r.key, r.arg);
    }
  }

  /** A query with several lawful functions is lawful. */
  lemma BothLawful<P, Q>(a: Agg<P>, b: Agg<Q>)
    requires Lawful(a) && Lawful(b)
    ensures Lawful(Both(a, b))
  {
    var c := Both(a, b);
    forall k, x, y, z ensures MergesInGroup(c, k, x, y, z) {
      if Fits(c, x) && Fits(c, y) && Fits(c, z) { BothMerge(a, b, x, y, z, k); }
    }
    forall k, x, v ensures UpdatesInGroup(c, k, x, v) {
      if Fits(c, x) && c.possible(k, v) {
        FitsBoth(a, b, x);
        SumBoth(a, b, x, k);
        assert UpdatesInGroup(a, k, x, v) && UpdatesInGroup(b, k, x, v);
      }
    }
  }

  lemma BothMerge<P, Q>(a: Agg<P>, b: Agg<Q>, x: seq<Row>, y: seq<Row>, z: seq<Row>, k: Key)
    requires Lawful(a) && Lawful(b) && Fits(Both(a, b), x) && Fits(Both(a, b), y) && Fits(Both(a, b), z)
    ensures var c := Both(a, b); MergeLaw(c, Sum(c, x, k), Sum(c, y, k), Sum(c, z, k))
  {
    FitsBoth(a, b, x);
    FitsBoth(a, b, y);
    FitsBoth(a, b, z);
    SumBoth(a, b, x, k);
    SumBoth(a, b, y, k);
    SumBoth(a, b, z, k);
    MergeLawAt(a, x, y, z, k);
    MergeLawAt(b, x, y, z, k);
  }

  function Concat(i: nat): Agg<seq<int>> {
    Agg([], (p: seq<int>, v: Values) => p + [At(v, i)], (src: seq<int>, dst: seq<int>) => dst + src, (k: Key, v: Values) => true)
  }

  /** A concatenation of the values of a group is not: two workers with one row each, and two orders of arrival. */
  lemma ConcatIsNot(k: Key)
    ensures var a, x, y := Concat(0), [Row(k, [1])], [Row(k, [2])];
            && a.merge(Sum(a, y, k), a.merge(Sum(a, x, k), a.zero)) == [1, 2]
            && a.merge(Sum(a, x, k), a.merge(Sum(a, y, k), a.zero)) == [2, 1]
            && !Lawful(a)
  {
    var a, x, y := Concat(0), [Row(k, [1])], [Row(k, [2])];
    assert x[1..] == [] && y[1..] == [];
    assert Sum(a, x, k) == [1] && Sum(a, y, k) == [2];
    var p, q := [1] + [2], [2] + [1];
    assert p[0] != q[0];
    assert Fits(a, x) && Fits(a, y);
    assert !MergesInGroup(a, k, x, y, x);
  }
}
