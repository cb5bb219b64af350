/**
  The slow queries a server remembers: a heap of the slowest ones, with the fastest of them on top,
  and a queue of the most recent ones.
 */
module SlowQueries {
  datatype Info = Info(id: int, start: int, duration: int, isInternal: bool)

  // ---------- heaps ----------

  function Parent(i: nat): (p: nat)
    requires i > 0
    ensures p < i
  {
    (i - 1) / 2
  }

  predicate Le(s: seq<Info>, i: nat)
    requires 0 < i < |s|
  {
    s[Parent(i)].duration <= s[i].duration
  }

  /** The heap order for all nodes whose parent is at `lo` or behind, among the first `n`. */
  ghost predicate HeapFrom(s: seq<Info>, lo: nat, n: nat)
    requires n <= |s|
  {
    forall i :: 0 < i < n && Parent(i) >= lo ==> Le(s, i)
  }

  ghost predicate Heap(s: seq<Info>) {
    HeapFrom(s, 0, |s|)
  }

  lemma {:induction false} TopIsLeast(s: seq<Info>, i: nat)
    requires Heap(s) && i < |s|
    ensures s[0].duration <= s[i].duration
    decreases i
  {
    if i == 0 {
    } else {
      assert Le(s, i);
      TopIsLeast(s, Parent(i));
    }
  }

  function Swap(s: seq<Info>, i: nat, j: nat): (r: seq<Info>)
    requires i < |s| && j < |s|
    ensures |r| == |s| && multiset(r) == multiset(s)
    ensures r[i] == s[j] && r[j] == s[i] && forall k :: 0 <= k < |s| && k != i && k != j ==> r[k] == s[k]
  {
    s[i := s[j]][j := s[i]]
  }

  /** The heap order holds but at `j`, and skipping `j` keeps it. */
  ghost predicate HeapButUp(s: seq<Info>, j: nat)
    requires j < |s|
  {
    && (forall i :: 0 < i < |s| && i != j ==> Le(s, i))
    && (forall i :: 0 < i < |s| && Parent(i) == j && j > 0 ==> s[Parent(j)].duration <= s[i].duration)
  }

  lemma UpStep(s: seq<Info>, j: nat)
    requires 0 < j < |s| && HeapButUp(s, j) && s[j].duration < s[Parent(j)].duration
    ensures HeapButUp(Swap(s, Parent(j), j), Parent(j))
  {
    var p, r := Parent(j), Swap(s, Parent(j), j);
    forall i | 0 < i < |r| && i != p ensures Le(r, i) {
      assert i != j ==> Le(s, i);
    }
    forall i | 0 < i < |r| && Parent(i) == p && p > 0 ensures r[Parent(p)].duration <= r[i].duration {
      assert Le(s, p) && (i != j ==> Le(s, i));
    }
  }

  /** The heap order holds from `lo` on but below `i`, and skipping `i` keeps it. */
  ghost predicate HeapButDown(s: seq<Info>, lo: nat, i: nat, n: nat)
    requires n <= |s| && i < |s|
  {
    && (forall k :: 0 < k < n && Parent(k) >= lo && Parent(k) != i ==> Le(s, k))
    && (forall k :: 0 < k < n && Parent(k) == i && i > 0 && Parent(i) >= lo ==> s[Parent(i)].duration <= s[k].duration)
  }

  lemma DownStep(s: seq<Info>, lo: nat, i: nat, j: nat, n: nat)
    requires lo <= i < j < n <= |s| && Parent(j) == i && HeapButDown(s, lo, i, n) && s[j].duration < s[i].duration
    requires forall k :: 0 < k < n && Parent(k) == i ==> s[j].duration <= s[k].duration
    ensures HeapButDown(Swap(s, i, j), lo, j, n)
  {
    var r := Swap(s, i, j);
    forall k | 0 < k < n && Parent(k) >= lo && Parent(k) != j ensures Le(r, k) {
      if k != i && Parent(k) != i { assert Le(s, k); }
    }
    forall k | 0 < k < n && Parent(k) == j && Parent(j) >= lo ensures r[Parent(j)].duration <= r[k].duration {
      assert Le(s, k);
    }
  }

  // ---------- the heap of the slowest queries ----------

  ghost predicate SameRest(s: seq<Info>, r: seq<Info>, n: nat) {
    |s| == |r| && n <= |s| && multiset(r) == multiset(s) && forall k :: n <= k < |s| ==> r[k] == s[k]
  }

  method Up(h: seq<Info>, j0: nat) returns (r: seq<Info>)
    requires j0 < |h| && HeapButUp(h, j0)
    ensures Heap(r) && SameRest(h, r, |h|)
  {
    r := h;
    var j := j0;
    while true
      invariant 0 <= j < |r| == |h| && HeapButUp(r, j) && SameRest(h, r, |h|)
      decreases j
    {
      if j == 0 || !(r[j].duration < r[Parent(j)].duration) {
        break;
      }
      UpStep(r, j);
      r := Swap(r, Parent(j), j);
      j := Parent(j);
    }
    assert j > 0 ==> Le(r, j);
  }

  /** The least child of `i`. */
  method LeastChild(r: seq<Info>, i: nat, n: nat) returns (j: nat)
    requires n <= |r| && 2 * i + 1 < n
    ensures i < j < n && Parent(j) == i
    ensures forall k :: 0 < k < n && Parent(k) == i ==> r[j].duration <= r[k].duration
  {
    j := 2 * i + 1;
    if j + 1 < n && r[j + 1].duration < r[j].duration {
      j := j + 1;
    }
    assert forall k :: 0 < k && Parent(k) == i ==> k == 2 * i + 1 || k == 2 * i + 2;
  }

  lemma DownDone(s: seq<Info>, lo: nat, i: nat, n: nat)
    requires lo <= i < n <= |s| && HeapButDown(s, lo, i, n)
    requires forall k :: 0 < k < n && Parent(k) == i ==> s[i].duration <= s[k].duration
    ensures HeapFrom(s, lo, n)
  {
    forall k | 0 < k < n && Parent(k) >= lo ensures Le(s, k) {
    }
  }

  method Down(h: seq<Info>, i0: nat, n: nat) returns (r: seq<Info>)
    requires i0 < n <= |h| && HeapButDown(h, i0, i0, n)
    ensures SameRest(h, r, n) && HeapFrom(r, i0, n)
  {
    r := h;
    var i := i0;
    while 2 * i + 1 < n
      invariant i0 <= i < n <= |r| == |h| && HeapButDown(r, i0, i, n) && SameRest(h, r, n)
      decreases n - i
    {
      var j := LeastChild(r, i, n);
      if !(r[j].duration < r[i].duration) {
        DownDone(r, i0, i, n);
        return;
      }
      DownStep(r, i0, i, j, n);
      r := Swap(r, i, j);
      i := j;
    }
    DownDone(r, i0, i, n);
  }

  /**
    The heap; `survivors` are what was in it after the last expiry, `since` what has been offered to it
    since then, and `rest` what of these it has left out.
   */
  class SlowQueryHeap {
    var data: seq<Info>
    ghost var survivors: multiset<Info>
    ghost var since: seq<Info>
    ghost var rest: multiset<Info>

    constructor ()
      ensures Valid(0) && data == [] && survivors == multiset{} && since == [] && rest == multiset{}
    {
      data, survivors, since, rest := [], multiset{}, [], multiset{};
    }

    ghost function All(): multiset<Info>
      reads this
    {
      survivors + multiset(since)
    }

    /** It keeps the n slowest of all. */
    ghost predicate Valid(n: nat)
      reads this
    {
      Heap(data) && Slowest(multiset(data), rest, n) && multiset(data) + rest == All()
    }

    method Push(x: Info)
      requires Heap(data)
      modifies this`data
      ensures Heap(data) && multiset(data) == multiset(old(data)) + multiset{x}
    {
      var h := data + [x];
      forall i | 0 < i < |h| - 1 ensures Le(h, i) {
        assert Le(data, i);
      }
      data := Up(h, |h| - 1);
    }

    method Pop() returns (x: Info)
      requires Heap(data) && data != []
      modifies this`data
      ensures Heap(data) && x == old(data)[0] && multiset(data) == multiset(old(data)) - multiset{x}
    {
      var n := |data| - 1;
      var h := Swap(data, 0, n);
      if n > 0 {
        PopStep(data);
        h := Down(h, 0, n);
      }
      x := h[n];
      CutLast(h);
      HeapPrefix(h, n);
      data := h[..n];
    }

    method Init()
      modifies this`data
      ensures Heap(data) && |data| == |old(data)| && multiset(data) == multiset(old(data))
    {
      var h, n := data, |data|;
      var i := n / 2 - 1;
      while i >= 0
        invariant -1 <= i && (n > 0 ==> i < n)
        invariant |h| == n && multiset(h) == multiset(data) && HeapFrom(h, i + 1, n)
        invariant data == old(data)
      {
        assert HeapButDown(h, i, i, n);
        h := Down(h, i, n);
        i := i - 1;
      }
      data := h;
    }

    method DropExpired(now: int, period: int)
      requires Heap(data)
      modifies this`data
      ensures Heap(data) && |data| <= |old(data)| && LivePart(multiset(old(data)), now, period, multiset(data))
    {
      LiveOnesPart(data, now, period);
      var h, idx := Compact(data, now, period);
      if |h| == idx {
        AllLive(data, now, period);
        assert h[..idx] == h;
        data := h;
        return;
      }
      data := h[..idx];
      Init();
    }

    /** Expired queries go, and those left out before are forgotten. */
    method RemoveExpired(now: int, period: int, ghost n: nat)
      requires Valid(n)
      modifies this
      ensures Valid(n) && LivePart(multiset(old(data)), now, period, multiset(data))
      ensures survivors == multiset(data) && since == [] && rest == multiset{}
    {
      DropExpired(now, period);
      survivors, since, rest := multiset(data), [], multiset{};
      NothingLeftOut(data, n);
    }

    /** The slowest queries, slowest first. Sorting the data keeps the heap. */
    method Query(count: nat, ghost n: nat) returns (ret: seq<Info>)
      requires Valid(n)
      modifies this`data
      ensures Valid(n) && Sorted(data) && multiset(data) == multiset(old(data))
      ensures IsTop(ret, multiset(data), count) && (count <= n ==> IsTop(ret, All(), count))
    {
      var sorted;
      sorted, ret := SortAndTake(data, count);
      if count <= n { TopOfKept(ret, multiset(data), rest, n, count); }
      data := sorted;
    }

    /** The step of topNSlowQueries.Append for this heap; `others` are the queries it has not kept. */
    method Offer(info: Info, topN: nat, ghost others: multiset<Info>) returns (ghost others': multiset<Info>)
      requires Heap(data) && topN > 0 && Slowest(multiset(data), others, topN)
      modifies this`data
      ensures Heap(data) && Slowest(multiset(data), others', topN)
      ensures multiset(data) + others' == multiset(old(data)) + others + multiset{info}
    {
      if |data| < topN {
        AddToFew(multiset(data), others, topN, info);
        Push(info);
        others' := others;
        return;
      }
      TopIsLeastOfAll(data);
      if info.duration > data[0].duration {
        ReplaceLeast(multiset(data), others, topN, data[0], info);
        var x := Pop();
        Push(info);
        others' := others + multiset{x};
      } else {
        KeepAll(multiset(data), others, topN, data[0], info);
        others' := others + multiset{info};
      }
    }

    /** One more query: the n slowest of all are kept, whatever came in which order. */
    method Add(info: Info, topN: nat)
      requires Valid(topN) && topN > 0
      modifies this
      ensures Valid(topN) && since == old(since) + [info] && survivors == old(survivors)
    {
      ghost var rest' := Offer(info, topN, rest);
      assert multiset(since + [info]) == multiset(since) + multiset{info};
      since, rest := since + [info], rest';
    }
  }

  lemma TopIsLeastOfAll(s: seq<Info>)
    requires Heap(s) && s != []
    ensures Least(multiset(s), s[0])
  {
    forall y | y in multiset(s) ensures s[0].duration <= y.duration {
      var i :| 0 <= i < |s| && s[i] == y;
      TopIsLeast(s, i);
    }
  }

  lemma CutLast(s: seq<Info>)
    requires s != []
    ensures multiset(s[..|s| - 1]) == multiset(s) - multiset{s[|s| - 1]}
  {
    assert s == s[..|s| - 1] + [s[|s| - 1]];
  }

  lemma HeapPrefix(s: seq<Info>, n: nat)
    requires n <= |s| && HeapFrom(s, 0, n)
    ensures Heap(s[..n])
  {
    forall i | 0 < i < n ensures Le(s[..n], i) {
      assert Le(s, i);
    }
  }

  lemma PopStep(s: seq<Info>)
    requires Heap(s) && |s| > 1
    ensures HeapButDown(Swap(s, 0, |s| - 1), 0, 0, |s| - 1)
  {
    var r := Swap(s, 0, |s| - 1);
    forall k | 0 < k < |s| - 1 && Parent(k) != 0 ensures Le(r, k) {
      assert Le(s, k);
    }
  }

  // ---------- expiry ----------

  predicate Live(x: Info, now: int, period: int) {
    x.start + period > now
  }

  function LiveOnes(s: seq<Info>, now: int, period: int): seq<Info> {
    if s == [] then []
    else LiveOnes(s[..|s| - 1], now, period) + (if Live(s[|s| - 1], now, period) then [s[|s| - 1]] else [])
  }

  /** The live ones move to the front, in order. */
  method Compact(data: seq<Info>, now: int, period: int) returns (h: seq<Info>, idx: nat)
    ensures |h| == |data| && idx <= |h| && h[..idx] == LiveOnes(data, now, period)
  {
    h, idx := data, 0;
    var i := 0;
    while i < |h|
      invariant 0 <= idx <= i <= |h| == |data| && h[i..] == data[i..] && h[..idx] == LiveOnes(data[..i], now, period)
    {
      assert h[i] == data[i] && data[..i + 1][..i] == data[..i];
      if Live(h[i], now, period) {
        ghost var before := h;
        h := h[idx := h[i]];
        assert h[..idx + 1] == before[..idx] + [data[i]];
        assert h[i + 1..] == before[i + 1..] == data[i + 1..];
        idx := idx + 1;
      }
      i := i + 1;
    }
    assert data[..i] == data;
  }

  lemma {:induction false} AllLive(s: seq<Info>, now: int, period: int)
    ensures |LiveOnes(s, now, period)| <= |s|
    ensures |LiveOnes(s, now, period)| == |s| ==> LiveOnes(s, now, period) == s
    decreases |s|
  {
    if s == [] {
    } else {
      AllLive(s[..|s| - 1], now, period);
      assert s == s[..|s| - 1] + [s[|s| - 1]];
    }
  }

  /** Those that began less than a period ago, each as often as before. */
  ghost predicate LivePart(m: multiset<Info>, now: int, period: int, r: multiset<Info>) {
    forall x :: r[x] == if now - x.start < period then m[x] else 0
  }

  lemma {:induction false} LiveOnesPart(s: seq<Info>, now: int, period: int)
    ensures LivePart(multiset(s), now, period, multiset(LiveOnes(s, now, period)))
    decreases |s|
  {
    if s == [] {
    } else {
      var front, x := s[..|s| - 1], s[|s| - 1];
      LiveOnesPart(front, now, period);
      assert s == front + [x];
      assert multiset(s) == multiset(front) + multiset{x};
      assert multiset(LiveOnes(s, now, period)) == multiset(LiveOnes(front, now, period)) + if Live(x, now, period) then multiset{x} else multiset{};
    }
  }

  // ---------- sorting ----------

  ghost predicate Sorted(s: seq<Info>) {
    forall i, j :: 0 <= i < j < |s| ==> s[i].duration <= s[j].duration
  }

  function Insert(s: seq<Info>, x: Info): seq<Info> {
    if s == [] || s[|s| - 1].duration <= x.duration then s + [x] else Insert(s[..|s| - 1], x) + [s[|s| - 1]]
  }

  lemma {:induction false} InsertElements(s: seq<Info>, x: Info)
    ensures multiset(Insert(s, x)) == multiset(s) + multiset{x}
    decreases |s|
  {
    if s == [] || s[|s| - 1].duration <= x.duration {
    } else {
      InsertElements(s[..|s| - 1], x);
      assert s == s[..|s| - 1] + [s[|s| - 1]];
    }
  }

  ghost predicate AtMost(s: seq<Info>, d: int) {
    forall i :: 0 <= i < |s| ==> s[i].duration <= d
  }

  lemma {:induction false} InsertAtMost(s: seq<Info>, x: Info, d: int)
    requires AtMost(s, d) && x.duration <= d
    ensures AtMost(Insert(s, x), d)
    decreases |s|
  {
    if s == [] || s[|s| - 1].duration <= x.duration {
    } else {
      InsertAtMost(s[..|s| - 1], x, d);
    }
  }

  lemma {:induction false} InsertSorted(s: seq<Info>, x: Info)
    requires Sorted(s)
    ensures Sorted(Insert(s, x))
    decreases |s|
  {
    if s == [] || s[|s| - 1].duration <= x.duration {
    } else {
      InsertSorted(s[..|s| - 1], x);
      InsertAtMost(s[..|s| - 1], x, s[|s| - 1].duration);
    }
  }

  /** sort.Sort: some order of the same elements by duration. */
  method Sort(s: seq<Info>) returns (r: seq<Info>)
    ensures Sorted(r) && multiset(r) == multiset(s)
  {
    r := [];
    var i := 0;
    while i < |s|
      invariant 0 <= i <= |s| && Sorted(r) && multiset(r) == multiset(s[..i])
    {
      InsertSorted(r, s[i]);
      InsertElements(r, s[i]);
      assert s[..i + 1] == s[..i] + [s[i]];
      r := Insert(r, s[i]);
      i := i + 1;
    }
    assert s[..i] == s;
  }

  /** A sorted sequence is a heap. */
  lemma SortedIsHeap(s: seq<Info>)
    requires Sorted(s)
    ensures Heap(s)
  {
    forall i | 0 < i < |s| ensures Le(s, i) {
    }
  }

  function Reversed(s: seq<Info>): (r: seq<Info>)
    ensures |r| == |s|
    ensures forall i :: 0 <= i < |s| ==> r[i] == s[|s| - 1 - i]
  {
    seq(|s|, i requires 0 <= i < |s| => s[|s| - 1 - i])
  }

  function LastN(s: seq<Info>, count: nat): seq<Info> {
    if count >= |s| then s else s[|s| - count..]
  }

  method TakeLastN(data: seq<Info>, count: nat) returns (ret: seq<Info>)
    ensures ret == Reversed(LastN(data, count))
  {
    var n := if count > |data| then |data| else count;
    ret := [];
    var i := |data| - 1;
    while i >= 0 && |ret| < n
      invariant -1 <= i < |data| && |ret| == |data| - 1 - i && |ret| <= n
      invariant forall k :: 0 <= k < |ret| ==> ret[k] == data[|data| - 1 - k]
    {
      ret := ret + [data[i]];
      i := i - 1;
    }
    assert |LastN(data, count)| == n == |ret|;
  }

  // ---------- the slowest ----------

  /** `kept` are the n slowest, `rest` the others: there are others only if n are kept, and none is slower. */
  ghost predicate Slowest(kept: multiset<Info>, rest: multiset<Info>, n: nat) {
    && |kept| <= n && (rest == multiset{} || |kept| == n)
    && forall x, y :: x in kept && y in rest ==> y.duration <= x.duration
  }

  ghost predicate Least(kept: multiset<Info>, m: Info) {
    m in kept && forall y :: y in kept ==> m.duration <= y.duration
  }

  lemma AddToFew(kept: multiset<Info>, rest: multiset<Info>, n: nat, x: Info)
    requires Slowest(kept, rest, n) && |kept| < n
    ensures Slowest(kept + multiset{x}, rest, n)
  {
  }

  lemma ReplaceLeast(kept: multiset<Info>, rest: multiset<Info>, n: nat, m: Info, x: Info)
    requires Slowest(kept, rest, n) && Least(kept, m) && |kept| == n && x.duration > m.duration
    ensures Slowest((kept - multiset{m}) + multiset{x}, rest + multiset{m}, n)
    ensures ((kept - multiset{m}) + multiset{x}) + (rest + multiset{m}) == kept + rest + multiset{x}
  {
    var k := (kept - multiset{m}) + multiset{x};
    forall y | y in k ensures m.duration <= y.duration {
      assert y in kept || y == x;
    }
    forall y, z | y in k && z in rest + multiset{m} ensures z.duration <= y.duration {
      assert z == m || z in rest;
      assert z in rest ==> z.duration <= m.duration;
    }
  }

  lemma KeepAll(kept: multiset<Info>, rest: multiset<Info>, n: nat, m: Info, x: Info)
    requires Slowest(kept, rest, n) && Least(kept, m) && |kept| == n && x.duration <= m.duration
    ensures Slowest(kept, rest + multiset{x}, n)
  {
  }

  /**
    Expiry keeps the n slowest of all live queries if and only if no live query has been left out
    before, or nothing kept has expired and n are kept: queries once left out do not come back.
   */
  lemma ExpiryForgets(kept: multiset<Info>, rest: multiset<Info>, n: nat, now: int, period: int, kept': multiset<Info>, rest': multiset<Info>)
    requires Slowest(kept, rest, n) && LivePart(kept, now, period, kept') && LivePart(rest, now, period, rest')
    ensures Slowest(kept', rest', n) <==> rest' == multiset{} || (|kept| == n && forall x :: x in kept ==> Live(x, now, period))
  {
    assert kept' <= kept;
    assert kept == kept' + (kept - kept');
    if forall x :: x in kept ==> Live(x, now, period) {
      assert kept' == kept;
    } else {
      var x :| x in kept && !Live(x, now, period);
      assert x in kept - kept';
    }
    forall x, y | x in kept' && y in rest' ensures y.duration <= x.duration {
      assert x in kept && y in rest;
    }
  }

  /** The n slowest of `all`, slowest first. */
  ghost predicate IsTop(ret: seq<Info>, all: multiset<Info>, n: nat) {
    && multiset(ret) <= all && Slowest(multiset(ret), all - multiset(ret), n)
    && forall i, j :: 0 <= i < j < |ret| ==> ret[i].duration >= ret[j].duration
  }

  lemma {:induction false} ReversedElements(s: seq<Info>)
    ensures multiset(Reversed(s)) == multiset(s)
    decreases |s|
  {
    if s == [] {
    } else {
      var r := s[..|s| - 1];
      ReversedElements(r);
      assert s == r + [s[|s| - 1]];
      assert Reversed(s) == [s[|s| - 1]] + Reversed(r);
    }
  }

  lemma SplitSorted(s: seq<Info>, k: nat, n: nat)
    requires Sorted(s) && k <= |s| && |s| - k <= n && (k == 0 || |s| - k == n)
    ensures Slowest(multiset(s[k..]), multiset(s[..k]), n)
  {
    forall x: Info, y: Info | x in multiset(s[k..]) && y in multiset(s[..k]) ensures y.duration <= x.duration {
      var i :| 0 <= i < |s[k..]| && s[k..][i] == x;
      var j :| 0 <= j < |s[..k]| && s[..k][j] == y;
      assert s[j] == y && s[k + i] == x;
    }
  }

  lemma Minus(s: seq<Info>, k: nat)
    requires k <= |s|
    ensures multiset(s[k..]) <= multiset(s) && multiset(s) - multiset(s[k..]) == multiset(s[..k])
  {
    assert s == s[..k] + s[k..];
  }

  lemma ReversedDescends(s: seq<Info>)
    requires Sorted(s)
    ensures forall i, j :: 0 <= i < j < |s| ==> Reversed(s)[i].duration >= Reversed(s)[j].duration
  {
  }

  lemma TopOfSorted(s: seq<Info>, n: nat)
    requires Sorted(s)
    ensures IsTop(Reversed(LastN(s, n)), multiset(s), n)
  {
    var k := if n >= |s| then 0 else |s| - n;
    assert LastN(s, n) == s[k..];
    SplitSorted(s, k, n);
    Minus(s, k);
    ReversedElements(s[k..]);
    ReversedDescends(s[k..]);
  }

  method SortAndTake(data: seq<Info>, count: nat) returns (sorted: seq<Info>, ret: seq<Info>)
    ensures Heap(sorted) && Sorted(sorted) && multiset(sorted) == multiset(data) && IsTop(ret, multiset(data), count)
  {
    sorted := Sort(data);
    SortedIsHeap(sorted);
    TopOfSorted(sorted, count);
    ret := TakeLastN(sorted, count);
  }

  /** The last entries after one more. */
  lemma LastNext(h: seq<Info>, x: Info, size: nat)
    ensures var r := LastN(h, size); LastN(h + [x], size) == if |r| < size then r + [x] else (r + [x])[1..]
  {
    var r := LastN(h, size);
    if size > |h| {
    } else if size == |h| {
      assert (h + [x])[1..] == LastN(h + [x], size);
    } else {
      assert |r| == size && (r + [x])[1..] == (h + [x])[|h| + 1 - size..];
    }
  }

  lemma NothingLeftOut(s: seq<Info>, n: nat)
    requires |s| <= n
    ensures Slowest(multiset(s), multiset{}, n)
  {
  }

  // ---------- the slowest of everything ----------

  /** The n slowest that are kept hold the slowest ones of all. */
  lemma TopOfKept(ret: seq<Info>, kept: multiset<Info>, rest: multiset<Info>, n: nat, count: nat)
    requires IsTop(ret, kept, count) && Slowest(kept, rest, n) && count <= n
    ensures IsTop(ret, kept + rest, count)
  {
    var r := multiset(ret);
    assert kept == r + (kept - r);
    assert (kept + rest) - r == (kept - r) + rest;
    if rest != multiset{} {
      assert |kept| == |r| + |kept - r|;
    }
    forall x, y | x in r && y in (kept - r) + rest ensures y.duration <= x.duration {
      assert y in kept - r || y in rest;
      assert x in kept;
    }
  }

  lemma SlowerIsTaken(r: multiset<Info>, all: multiset<Info>, count: nat, x: Info, z: Info)
    requires Slowest(r, all - r, count) && x in r && x.duration < z.duration
    ensures all[z] <= r[z]
  {
    assert z !in all - r;
  }

  /** A query that one of two heaps has left out is no slower than any of the slowest of both. */
  lemma LeftOutOfBoth(r: multiset<Info>, kept: multiset<Info>, rest: multiset<Info>, others: multiset<Info>, n: nat, count: nat, x: Info, y: Info)
    requires Slowest(kept, rest, n) && count <= n && r <= kept + others && Slowest(r, (kept + others) - r, count)
    requires x in r && y in rest
    ensures y.duration <= x.duration
  {
    if x.duration < y.duration {
      forall z | z in kept ensures kept[z] <= r[z] {
        SlowerIsTaken(r, kept + others, count, x, z);
      }
      assert x !in kept;
      assert kept + multiset{x} <= r;
      Fits(kept + multiset{x}, r);
    }
  }

  lemma Fits(a: multiset<Info>, b: multiset<Info>)
    requires a <= b
    ensures |a| <= |b|
  {
    assert b == a + (b - a);
  }

  lemma TopOfBoth(ret: seq<Info>, a: multiset<Info>, aRest: multiset<Info>, b: multiset<Info>, bRest: multiset<Info>, n: nat, count: nat)
    requires IsTop(ret, a + b, count) && Slowest(a, aRest, n) && Slowest(b, bRest, n) && count <= n
    ensures IsTop(ret, (a + aRest) + (b + bRest), count)
  {
    var r := multiset(ret);
    var others := ((a + aRest) + (b + bRest)) - r;
    assert others == (((a + b) - r) + aRest) + bRest;
    forall x, y | x in r && y in others ensures y.duration <= x.duration {
      if y in aRest {
        LeftOutOfBoth(r, a, aRest, b, n, count, x, y);
      } else if y in bRest {
        assert a + b == b + a;
        LeftOutOfBoth(r, b, bRest, a, n, count, x, y);
      } else {
        assert y in (a + b) - r;
      }
    }
    if |r| < count {
      assert a + b == r by { assert (a + b) - r == multiset{}; }
      Fits(a, r);
      Fits(b, r);
    }
  }

  /** The queries of one kind, each as often as it came. */
  ghost predicate KindPart(all: multiset<Info>, isInternal: bool, part: multiset<Info>) {
    forall x :: part[x] == if x.isInternal == isInternal then all[x] else 0
  }

  lemma PrefixNext(a: seq<Info>, s: seq<Info>, i: nat)
    requires i < |s|
    ensures (a + s[..i]) + [s[i]] == a + s[..i + 1]
  {
    assert s[..i + 1] == s[..i] + [s[i]];
  }

  lemma OneMore(s: seq<Info>, part: seq<Info>, x: Info, isInternal: bool)
    requires KindPart(multiset(s), isInternal, multiset(part))
    ensures KindPart(multiset(s + [x]), isInternal, multiset(if x.isInternal == isInternal then part + [x] else part))
  {
  }

  // ---------- topNSlowQueries ----------

  datatype Kind = ShowDefault | ShowInternal | ShowAll

  class TopNSlowQueries {
    const topN: nat
    const period: int
    const size: nat
    const user: SlowQueryHeap
    const internal: SlowQueryHeap
    var recent: seq<Info>
    ghost var before: seq<Info>
    ghost var since: seq<Info>

    /**
      The queue holds the last of all queries, before and since the last expiry, and each heap the
      slowest of its kind since then.
     */
    ghost predicate Valid()
      reads this, user, internal
    {
      && user != internal && recent == LastN(before + since, size)
      && user.Valid(topN) && KindPart(multiset(since), false, multiset(user.since))
      && internal.Valid(topN) && KindPart(multiset(since), true, multiset(internal.since))
    }

    constructor (topN: nat, period: int, queueSize: nat)
      ensures Valid() && before == [] && since == [] && user.survivors == multiset{} && internal.survivors == multiset{}
      ensures this.topN == topN && this.period == period && this.size == queueSize
      ensures fresh(user) && fresh(internal)
    {
      this.topN, this.period, this.size := topN, period, queueSize;
      user := new SlowQueryHeap();
      internal := new SlowQueryHeap();
      recent, before, since := [], [], [];
    }

    method Enqueue(info: Info)
      requires recent == LastN(before + since, size)
      modifies this`recent, this`since
      ensures recent == LastN(before + since, size) && since == old(since) + [info]
    {
      LastNext(before + since, info, size);
      assert before + (since + [info]) == before + since + [info];
      since := since + [info];
      if |recent| < size {
        recent := recent + [info];
      } else {
        recent := (recent + [info])[1..];
      }
    }

    method Append(info: Info)
      requires Valid() && topN > 0
      modifies this, user, internal
      ensures Valid() && before == old(before) && since == old(since) + [info]
      ensures user.survivors == old(user.survivors) && internal.survivors == old(internal.survivors)
    {
      OneMore(since, user.since, info, false);
      OneMore(since, internal.since, info, true);
      Enqueue(info);
      if info.isInternal {
        internal.Add(info, topN);
      } else {
        user.Add(info, topN);
      }
    }

    /** Queries as they come in, one after the other. */
    method AppendAll(infos: seq<Info>)
      requires Valid() && topN > 0
      modifies this, user, internal
      ensures Valid() && before == old(before) && since == old(since) + infos
      ensures user.survivors == old(user.survivors) && internal.survivors == old(internal.survivors)
    {
      var i := 0;
      while i < |infos|
        invariant 0 <= i <= |infos| && Valid() && before == old(before) && since == old(since) + infos[..i]
        invariant user.survivors == old(user.survivors) && internal.survivors == old(internal.survivors)
      {
        PrefixNext(old(since), infos, i);
        Append(infos[i]);
        i := i + 1;
      }
      assert infos[..i] == infos;
    }

    method RemoveExpired(now: int)
      requires Valid()
      modifies this, user, internal
      ensures Valid() && recent == old(recent) && before == old(before + since) && since == []
      ensures LivePart(multiset(old(user.data)), now, period, user.survivors)
      ensures LivePart(multiset(old(internal.data)), now, period, internal.survivors)
    {
      user.RemoveExpired(now, period, topN);
      internal.RemoveExpired(now, period, topN);
      before, since := before + since, [];
      assert before + since == before;
    }

    method QueryRecent(count: nat) returns (ret: seq<Info>)
      requires Valid()
      ensures ret == Reversed(LastN(LastN(before + since, size), count))
    {
      if |recent| == 0 {
        return [];
      }
      ret := TakeLastN(recent, count);
    }

    /** Up to N of them: the slowest queries of all since the last expiry, not only of those that are kept. */
    method QueryTop(count: nat, kind: Kind) returns (ret: seq<Info>)
      requires Valid()
      modifies user, internal
      ensures Valid() && multiset(user.data) == multiset(old(user.data)) && multiset(internal.data) == multiset(old(internal.data))
      ensures user.survivors == old(user.survivors) && internal.survivors == old(internal.survivors)
      ensures kind.ShowDefault? ==> IsTop(ret, multiset(user.data), count) && (count <= topN ==> IsTop(ret, user.All(), count))
      ensures kind.ShowInternal? ==>
                IsTop(ret, multiset(internal.data), count) && (count <= topN ==> IsTop(ret, internal.All(), count))
      ensures kind.ShowAll? ==>
                && IsTop(ret, multiset(user.data) + multiset(internal.data), count)
                && (count <= topN ==> IsTop(ret, user.All() + internal.All(), count))
    {
      match kind
      case ShowDefault => ret := user.Query(count, topN);
      case ShowInternal => ret := internal.Query(count, topN);
      case ShowAll =>
        var tmp := user.data + internal.data;
        tmp, ret := SortAndTake(tmp, count);
        if count <= topN { TopOfBoth(ret, multiset(user.data), user.rest, multiset(internal.data), internal.rest, topN, count); }
    }
  }

  /** Any queries, then a question: the answer is the slowest of all that came in, and the most recent. */
  method Observe(topN: nat, period: int, size: nat, queries: seq<Info>, count: nat)
    returns (slowest: seq<Info>, recent: seq<Info>, ghost users: multiset<Info>)
    requires 0 < topN && count <= topN
    ensures KindPart(multiset(queries), false, users) && IsTop(slowest, users, count)
    ensures recent == Reversed(LastN(LastN(queries, size), count))
  {
    var q := new TopNSlowQueries(topN, period, size);
    q.AppendAll(queries);
    assert q.before + q.since == queries;
    recent := q.QueryRecent(count);
    slowest := q.QueryTop(count, ShowDefault);
    users := q.user.All();
  }

  lemma OnlyTheSlower(kept: multiset<Info>, rest: multiset<Info>, a: Info, b: Info)
    requires Slowest(kept, rest, 1) && kept + rest == multiset{a} + multiset{b} && a.duration > b.duration
    ensures kept == multiset{a}
  {
    assert |kept + rest| == |kept| + |rest| == 2;
    assert |kept| == 1;
    var x :| x in kept;
    assert kept == multiset{x} + (kept - multiset{x});
    assert kept == multiset{x};
    assert x in kept + rest && a in kept + rest;
    assert x == a || a in rest;
  }

  lemma SlowerOfTwo(since: seq<Info>, part: seq<Info>, survivors: multiset<Info>, kept: multiset<Info>, rest: multiset<Info>, a: Info, b: Info)
    requires since == [a, b] && !a.isInternal && !b.isInternal && a.duration > b.duration
    requires KindPart(multiset(since), false, multiset(part)) && survivors == multiset{} && kept + rest == survivors + multiset(part)
    requires Slowest(kept, rest, 1)
    ensures kept == multiset{a}
  {
    assert multiset(since) == multiset{a} + multiset{b};
    forall x ensures multiset(part)[x] == multiset(since)[x] {
      assert x in multiset(since) ==> x == a || x == b;
    }
    assert multiset(part) == multiset(since);
    OnlyTheSlower(kept, rest, a, b);
  }

  /** Two queries, and room for one. */
  method TwoQueries(a: Info, b: Info) returns (q: TopNSlowQueries)
    requires !a.isInternal && !b.isInternal && a.duration > b.duration
    ensures fresh(q) && fresh(q.user) && fresh(q.internal) && q.Valid() && q.topN == 1 && q.period == 7
    ensures q.before == [] && q.since == [a, b] && multiset(q.user.data) == multiset{a}
  {
    q := new TopNSlowQueries(1, 7, 30);
    q.AppendAll([a, b]);
    SlowerOfTwo(q.since, q.user.since, q.user.survivors, multiset(q.user.data), q.user.rest, a, b);
  }

  /** With room for one: the slower query expires, the other is still live, and the answer is empty. */
  method ForgottenQuery() returns (q: TopNSlowQueries, answer: seq<Info>)
    ensures fresh(q) && q.topN == 1 && q.before == [Info(1, 0, 10, false), Info(2, 5, 3, false)] && q.since == []
    ensures Live(Info(2, 5, 3, false), 8, q.period) && answer == []
  {
    q := TwoQueries(Info(1, 0, 10, false), Info(2, 5, 3, false));
    q.RemoveExpired(8);
    NothingSurvives(Info(1, 0, 10, false), q.user.survivors, q.user.since, multiset(q.user.data), q.user.rest);
    answer := q.QueryTop(1, ShowDefault);
    EmptyTop(answer, multiset(q.user.data), 1);
  }

  lemma NothingSurvives(a: Info, survivors: multiset<Info>, since: seq<Info>, kept: multiset<Info>, rest: multiset<Info>)
    requires !Live(a, 8, 7) && LivePart(multiset{a}, 8, 7, survivors) && KindPart(multiset([]), false, multiset(since))
    requires kept + rest == survivors + multiset(since)
    ensures kept == multiset{}
  {
    forall x ensures kept[x] == 0 {
      assert (kept + rest)[x] == survivors[x] + multiset(since)[x];
    }
  }

  lemma EmptyTop(ret: seq<Info>, all: multiset<Info>, n: nat)
    requires IsTop(ret, all, n) && all == multiset{}
    ensures ret == []
  {
    assert |ret| == |multiset(ret)| == 0;
  }
}
