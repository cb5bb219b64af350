/**
  Row handles as key ranges, down to the bytes: the order-preserving encoding of integers, the key
  behind all keys with a prefix, and the ranges that read a list of handles.
 */
module HandleRanges {
  type byte = x: int | 0 <= x < 256

  type Key = seq<byte>

  const MIN_INT64: int := -0x8000_0000_0000_0000
  const MAX_INT64: int := 0x7fff_ffff_ffff_ffff

  type int64 = x: int | MIN_INT64 <= x <= MAX_INT64

  // ---------- the order of keys ----------

  predicate Less(a: Key, b: Key) {
    b != [] && (a == [] || a[0] < b[0] || (a[0] == b[0] && Less(a[1..], b[1..])))
  }

  predicate LessEq(a: Key, b: Key) {
    a == b || Less(a, b)
  }

  lemma {:induction false} LessTransitive(a: Key, b: Key, c: Key)
    requires Less(a, b) && Less(b, c)
    ensures Less(a, c)
    decreases |a|
  {
    if a != [] && a[0] == b[0] == c[0] {
      LessTransitive(a[1..], b[1..], c[1..]);
    }
  }

  lemma {:induction false} LessTotal(a: Key, b: Key)
    ensures (Less(a, b) || a == b || Less(b, a)) && !(Less(a, b) && Less(b, a)) && !Less(a, a)
    decreases |a|
  {
    if a == [] {
    } else {
      LessTotal(a[1..], a[1..]);
      if b != [] && a[0] == b[0] {
        LessTotal(a[1..], b[1..]);
        assert a == [a[0]] + a[1..] && b == [b[0]] + b[1..];
      }
    }
  }

  lemma {:induction false} LessConcat(a: Key, b: Key, x: Key, y: Key)
    requires |a| == |b|
    ensures Less(a + x, b + y) <==> Less(a, b) || (a == b && Less(x, y))
    decreases |a|
  {
    if a == [] {
      assert a + x == x && b + y == y;
    } else {
      LessConcat(a[1..], b[1..], x, y);
      assert (a + x)[1..] == a[1..] + x && (b + y)[1..] == b[1..] + y;
      assert a == [a[0]] + a[1..] && b == [b[0]] + b[1..];
    }
  }

  lemma LessWithPrefix(p: Key, a: Key, b: Key)
    ensures Less(p + a, p + b) <==> Less(a, b)
  {
    LessConcat(p, p, a, b);
    LessTotal(p, p);
  }

  lemma LessSnoc(a: Key, b: Key, x: byte, y: byte)
    requires |a| == |b|
    ensures Less(a + [x], b + [y]) <==> Less(a, b) || (a == b && x < y)
  {
    LessConcat(a, b, [x], [y]);
  }

  // ---------- big-endian numbers ----------

  function BigEndian(u: nat, n: nat): (k: Key)
    ensures |k| == n
  {
    if n == 0 then [] else BigEndian(u / 256, n - 1) + [u % 256]
  }

  function Number(k: Key): nat {
    if k == [] then 0 else Number(k[..|k| - 1]) * 256 + k[|k| - 1]
  }

  function Power(n: nat): (p: nat)
    ensures p > 0
  {
    if n == 0 then 1 else 256 * Power(n - 1)
  }

  lemma {:induction false} NumberBound(k: Key)
    ensures Number(k) < Power(|k|)
    decreases |k|
  {
    if k == [] {
    } else {
      NumberBound(k[..|k| - 1]);
    }
  }

  lemma {:induction false} NumberRoundTrip(u: nat, n: nat)
    requires u < Power(n)
    ensures Number(BigEndian(u, n)) == u
    decreases n
  {
    if n == 0 {
    } else {
      assert u / 256 < Power(n - 1);
      NumberRoundTrip(u / 256, n - 1);
      var k := BigEndian(u, n);
      assert k[..n - 1] == BigEndian(u / 256, n - 1);
    }
  }

  /** Keys of one length are ordered as the numbers they spell. */
  lemma {:induction false} NumberOrder(a: Key, b: Key)
    requires |a| == |b|
    ensures (Less(a, b) <==> Number(a) < Number(b)) && (a == b <==> Number(a) == Number(b))
    decreases |a|
  {
    if a == [] {
    } else {
      var a', x, b', y := a[..|a| - 1], a[|a| - 1], b[..|b| - 1], b[|b| - 1];
      NumberOrder(a', b');
      LessSnoc(a', b', x, y);
      assert a == a' + [x] && b == b' + [y];
    }
  }

  // ---------- EncodeInt ----------

  /** The bits of `v` as an unsigned number, with the sign bit turned over. */
  function EncodeIntToCmpUint(v: int64): (u: nat)
    ensures u == v + 0x8000_0000_0000_0000 && u < 0x1_0000_0000_0000_0000
  {
    var bits := if v >= 0 then v else v + 0x1_0000_0000_0000_0000;
    if bits >= 0x8000_0000_0000_0000 then bits - 0x8000_0000_0000_0000 else bits + 0x8000_0000_0000_0000
  }

  function EncodeInt(v: int64): (k: Key)
    ensures |k| == 8
  {
    BigEndian(EncodeIntToCmpUint(v), 8)
  }

  lemma Power8()
    ensures Power(8) == 0x1_0000_0000_0000_0000
  {
    assert Power(4) == 0x1_0000_0000 by {
      assert Power(1) == 256 && Power(2) == 0x1_0000 && Power(3) == 0x100_0000;
    }
    assert Power(5) == 0x100_0000_0000 && Power(6) == 0x1_0000_0000_0000 && Power(7) == 0x100_0000_0000_0000;
  }

  lemma EncodedNumber(v: int64)
    ensures Number(EncodeInt(v)) == v + 0x8000_0000_0000_0000
  {
    Power8();
    NumberRoundTrip(EncodeIntToCmpUint(v), 8);
  }

  /** Encoded integers are ordered as the integers are. */
  lemma EncodeIntOrder(v: int64, w: int64)
    ensures (Less(EncodeInt(v), EncodeInt(w)) <==> v < w) && (EncodeInt(v) == EncodeInt(w) <==> v == w)
  {
    EncodedNumber(v);
    EncodedNumber(w);
    NumberOrder(EncodeInt(v), EncodeInt(w));
  }

  // ---------- PrefixNext ----------

  predicate AllOnes(k: Key) {
    forall i :: 0 <= i < |k| ==> k[i] == 255
  }

  function Incremented(k: Key): (r: Key)
    requires !AllOnes(k)
    ensures |r| == |k| && Number(r) == Number(k) + 1
    decreases |k|
  {
    var n := |k| - 1;
    if k[n] < 255 then
      assert (k[..n] + [k[n] + 1])[..n] == k[..n];
      k[..n] + [k[n] + 1]
    else
      var r := Incremented(k[..n]);
      assert (r + [0])[..n] == r;
      r + [0]
  }

  function Next(k: Key): Key {
    if AllOnes(k) then k + [0] else Incremented(k)
  }

  method PrefixNext(k: Key) returns (buf: Key)
    ensures buf == Next(k)
  {
    buf := k;
    var i := |k| - 1;
    while i >= 0
      invariant -1 <= i < |k| == |buf|
      invariant forall j :: i < j < |k| ==> k[j] == 255 && buf[j] == 0
      invariant forall j :: 0 <= j <= i ==> buf[j] == k[j]
    {
      buf := buf[i := (buf[i] as int + 1) % 256];
      if buf[i] != 0 {
        break;
      }
      i := i - 1;
    }
    if i == -1 {
      buf := k + [0];
    } else {
      CarriedIn(k, buf, i);
    }
  }

  lemma {:induction false} CarriedIn(k: Key, buf: Key, i: nat)
    requires i < |k| == |buf| && k[i] < 255 && buf[i] == k[i] + 1
    requires forall j :: i < j < |k| ==> k[j] == 255 && buf[j] == 0
    requires forall j :: 0 <= j < i ==> buf[j] == k[j]
    ensures !AllOnes(k) && buf == Incremented(k)
    decreases |k|
  {
    var n := |k| - 1;
    assert buf == buf[..n] + [buf[n]];
    if i < n {
      CarriedIn(k[..n], buf[..n], i);
    } else {
      assert buf[..n] == k[..n];
    }
  }

  lemma {:induction false} LessLonger(a: Key, b: Key, c: Key)
    requires |a| == |b|
    ensures (Less(a + c, b) <==> Less(a, b)) && (Less(b, a + c) <==> Less(b, a) || (b == a && c != []))
    decreases |a|
  {
    if a == [] {
      assert a + c == c;
    } else {
      LessLonger(a[1..], b[1..], c);
      assert (a + c)[1..] == a[1..] + c;
      assert a == [a[0]] + a[1..] && b == [b[0]] + b[1..];
    }
  }

  /** Among keys no shorter than `k`, those from `k` up to its next are those with the prefix `k`. */
  lemma NextIsBehindPrefix(k: Key, x: Key)
    requires !AllOnes(k) && |x| >= |k|
    ensures LessEq(k, x) && Less(x, Next(k)) <==> k <= x
  {
    var a, c := x[..|k|], x[|k|..];
    assert x == a + c;
    LessLonger(a, k, c);
    LessLonger(a, Next(k), c);
    NumberOrder(a, k);
    NumberOrder(a, Next(k));
    NumberOrder(k, a);
    if k == a && c == [] { assert x == k; }
  }

  /** Between a key and the key with a zero behind it there is only the key. */
  lemma {:induction false} NothingBefore(k: Key, x: Key)
    ensures LessEq(k, x) && Less(x, k + [0]) <==> x == k
    decreases |k|
  {
    if k == [] {
    } else {
      assert (k + [0])[1..] == k[1..] + [0];
      LessTotal(k, k);
      if x != [] {
        NothingBefore(k[1..], x[1..]);
        assert k == [k[0]] + k[1..] && x == [x[0]] + x[1..];
      }
    }
  }

  /** Where the carry stops. */
  ghost predicate Carry(k: Key, r: Key, i: nat) {
    && i < |k| == |r| && k[i] < 255 && r[i] == k[i] + 1
    && (forall j :: i < j < |k| ==> k[j] == 255 && r[j] == 0)
    && (forall j :: 0 <= j < i ==> r[j] == k[j])
  }

  lemma {:induction false} CarryOf(k: Key) returns (i: nat)
    requires !AllOnes(k)
    ensures Carry(k, Incremented(k), i)
    decreases |k|
  {
    i := |k| - 1;
    if k[i] == 255 {
      i := CarryOf(k[..i]);
    }
  }

  lemma {:induction false} NothingAboveOnes(ones: Key, x: Key)
    requires AllOnes(ones) && |x| <= |ones|
    ensures !Less(ones, x)
    decreases |x|
  {
    if x == [] {
    } else {
      assert ones[0] == 255;
      NothingAboveOnes(ones[1..], x[1..]);
    }
  }

  lemma {:induction false} BelowZeros(zeros: Key, x: Key)
    requires forall i :: 0 <= i < |zeros| ==> zeros[i] == 0
    ensures Less(x, zeros) <==> x < zeros
    decreases |x|
  {
    if x == [] {
    } else if zeros != [] {
      assert zeros[0] == 0;
      BelowZeros(zeros[1..], x[1..]);
      assert x == [x[0]] + x[1..] && zeros == [zeros[0]] + zeros[1..];
    }
  }

  /** At the byte where the carry stops. */
  lemma CarryHere(k: Key, next: Key, x: Key)
    requires Carry(k, next, 0) && 0 < |x| < |k|
    ensures LessEq(k, x) && Less(x, next) <==> x < next && !(x <= k)
  {
    NothingAboveOnes(k[1..], x[1..]);
    BelowZeros(next[1..], x[1..]);
    assert x == [x[0]] + x[1..] && next == [next[0]] + next[1..];
  }

  lemma {:induction false} ShorterInRange(k: Key, next: Key, x: Key, i: nat)
    requires Carry(k, next, i) && |x| < |k|
    ensures LessEq(k, x) && Less(x, next) <==> x < next && !(x <= k)
    decreases i
  {
    if x == [] {
    } else if i == 0 {
      CarryHere(k, next, x);
    } else {
      ShorterInRange(k[1..], next[1..], x[1..], i - 1);
      assert x == [x[0]] + x[1..] && next == [next[0]] + next[1..] && k == [k[0]] + k[1..];
    }
  }

  /**
    What lies between a key and its next one, for every key: the keys with the prefix, and the proper
    prefixes of the next key that are not prefixes of the key; behind a key of all ones, the key alone.
   */
  lemma BetweenKeyAndNext(k: Key, x: Key)
    ensures LessEq(k, x) && Less(x, Next(k)) <==>
              if AllOnes(k) then x == k else k <= x || (x < Next(k) && !(x <= k))
  {
    if AllOnes(k) {
      NothingBefore(k, x);
    } else if |x| < |k| {
      var i := CarryOf(k);
      ShorterInRange(k, Next(k), x, i);
    } else {
      NextIsBehindPrefix(k, x);
    }
  }

  ghost predicate ReadsPrefix(k: Key) {
    forall x: Key :: (LessEq(k, x) && Less(x, Next(k))) <==> k <= x
  }

  /** The range up to the next key is the range of the prefix if and only if the last byte is below 255. */
  lemma NextIsPrefixEnd(k: Key)
    ensures ReadsPrefix(k) <==> k != [] && k[|k| - 1] < 255
  {
    if AllOnes(k) {
      BetweenKeyAndNext(k, k + [1]);
      assert k <= k + [1];
    } else if k[|k| - 1] == 255 {
      var i := CarryOf(k);
      var x := Next(k)[..i + 1];
      BetweenKeyAndNext(k, x);
      assert x[i] == k[i] + 1 && x < Next(k);
    } else {
      forall x: Key ensures LessEq(k, x) && Less(x, Next(k)) <==> k <= x {
        BetweenKeyAndNext(k, x);
        assert x < Next(k) ==> x <= k;
      }
    }
  }

  /** A shorter key can be in between without the prefix. */
  lemma ShorterKeyBetween()
    ensures var k: Key, x: Key := [1, 255], [2]; LessEq(k, x) && Less(x, Next(k)) && !(k <= x)
  {
    var k: Key, x: Key := [1, 255], [2];
    assert k[1] == 255 && k[..1] == [1] && !AllOnes(k) && !AllOnes(k[..1]);
    assert Incremented(k[..1]) == [2];
    assert Next(k) == [2, 0];
    assert x[1..] == [] && Next(k)[1..] == [0];
  }

  /** Behind a key of all ones, keys with the prefix are left out. */
  lemma OnesLoseKeys()
    ensures var k: Key, x: Key := [255], [255, 1]; k <= x && !Less(x, Next(k))
  {
    var k: Key, x: Key := [255], [255, 1];
    BetweenKeyAndNext(k, x);
    assert AllOnes(k) && x[..1] == k;
    LessTotal(k, x);
    assert x[1..] == [1] && k[1..] == [];
  }

  // ---------- handles ----------

  datatype KeyRange = KeyRange(startKey: Key, endKey: Key)

  predicate Contains(r: KeyRange, x: Key) {
    LessEq(r.startKey, x) && Less(x, r.endKey)
  }

  /** t, the table, _r */
  function RecordPrefix(tid: int64): Key {
    [116] + EncodeInt(tid) + [95, 114]
  }

  function RowKey(tid: int64, handle: int64): Key {
    RecordPrefix(tid) + EncodeInt(handle)
  }

  /** A row key spells its parts: t, the table, _r, the handle. */
  lemma RowKeyDecodes(tid: int64, handle: int64)
    ensures var k := RowKey(tid, handle);
            && |k| == 19 && k[0] == 116 && k[9..11] == [95, 114]
            && Number(k[1..9]) == tid + 0x8000_0000_0000_0000 && Number(k[11..]) == handle + 0x8000_0000_0000_0000
  {
    var k := RowKey(tid, handle);
    assert k[1..9] == EncodeInt(tid) && k[11..] == EncodeInt(handle);
    EncodedNumber(tid);
    EncodedNumber(handle);
  }

  /** Row keys are ordered by table and then by handle. */
  lemma RowKeyOrder(tid: int64, h: int64, tid': int64, h': int64)
    ensures Less(RowKey(tid, h), RowKey(tid', h')) <==> tid < tid' || (tid == tid' && h < h')
  {
    var t, t', r := [116] + EncodeInt(tid), [116] + EncodeInt(tid'), [95, 114];
    EncodeIntOrder(tid, tid');
    EncodeIntOrder(h, h');
    assert RowKey(tid, h) == t + (r + EncodeInt(h)) && RowKey(tid', h') == t' + (r + EncodeInt(h'));
    LessConcat(t, t', r + EncodeInt(h), r + EncodeInt(h'));
    LessConcat([116], [116], EncodeInt(tid), EncodeInt(tid'));
    LessConcat(r, r, EncodeInt(h), EncodeInt(h'));
    assert t[1..] == EncodeInt(tid) && t'[1..] == EncodeInt(tid');
    LessTotal(r, r);
  }

  /** The range that reads one handle. */
  function OneRange(tid: int64, h: int64): KeyRange {
    KeyRange(RowKey(tid, h), RecordPrefix(tid) + Next(EncodeInt(h)))
  }

  /** The range from one handle to another. */
  function RangeOf(tid: int64, lo: int64, hi: int64): KeyRange {
    KeyRange(RowKey(tid, lo), RecordPrefix(tid) + Next(EncodeInt(hi)))
  }

  lemma {:induction false} AllOnesNumber(k: Key)
    ensures AllOnes(k) <==> Number(k) == Power(|k|) - 1
    decreases |k|
  {
    if k == [] {
    } else {
      var n := |k| - 1;
      AllOnesNumber(k[..n]);
      NumberBound(k[..n]);
      assert AllOnes(k) <==> AllOnes(k[..n]) && k[n] == 255;
    }
  }

  /** What follows an encoded handle is the next handle; only the greatest one is all ones. */
  lemma NextHandle(h: int64)
    ensures AllOnes(EncodeInt(h)) <==> h == MAX_INT64
    ensures h < MAX_INT64 ==> Next(EncodeInt(h)) == EncodeInt(h + 1)
    ensures h == MAX_INT64 ==> Next(EncodeInt(h)) == EncodeInt(h) + [0]
  {
    Power8();
    EncodedNumber(h);
    AllOnesNumber(EncodeInt(h));
    if h < MAX_INT64 {
      EncodedNumber(h + 1);
      NumberOrder(Next(EncodeInt(h)), EncodeInt(h + 1));
    }
  }

  /**
    The range of one handle: its row key, what it is a prefix of, and keys cut off from the next row
    key; for the greatest handle, its row key alone.
   */
  lemma OneRangeReads(tid: int64, h: int64, x: Key)
    ensures Contains(OneRange(tid, h), x) <==>
              if h == MAX_INT64 then x == RowKey(tid, h)
              else RowKey(tid, h) <= x || (x < RowKey(tid, h + 1) && !(x <= RowKey(tid, h)))
  {
    var p, k := RecordPrefix(tid), EncodeInt(h);
    NextHandle(h);
    if h < MAX_INT64 {
      NextOfRow(p, k);
      BetweenKeyAndNext(p + k, x);
    } else {
      NothingBefore(p + k, x);
      assert p + (k + [0]) == (p + k) + [0];
    }
  }

  lemma NotAllOnes(p: Key, k: Key)
    requires !AllOnes(k)
    ensures !AllOnes(p + k)
  {
    var i :| 0 <= i < |k| && k[i] != 255;
    assert (p + k)[|p| + i] == k[i];
  }

  lemma NextOfRow(p: Key, k: Key)
    requires !AllOnes(k)
    ensures !AllOnes(p + k) && Next(p + k) == p + Next(k)
  {
    NotAllOnes(p, k);
    NextOfConcat(p, k);
  }

  lemma CarryInRow(p: Key, k: Key, r: Key, i: nat)
    requires Carry(k, r, i)
    ensures Carry(p + k, p + r, |p| + i)
  {
  }

  lemma NextOfConcat(p: Key, k: Key)
    requires !AllOnes(k) && !AllOnes(p + k)
    ensures Incremented(p + k) == p + Incremented(k)
  {
    var i := CarryOf(k);
    CarryInRow(p, k, Incremented(k), i);
    CarriedIn(p + k, p + Incremented(k), |p| + i);
  }

  // ---------- runs of handles ----------

  ghost predicate Consecutive(hs: seq<int64>) {
    forall i, j :: 0 <= i && j == i + 1 && j < |hs| ==> hs[j] == hs[i] as int + 1
  }

  /** How many handles from the front follow each other. */
  function RunLength(hs: seq<int64>): (n: nat)
    requires hs != []
    ensures 1 <= n <= |hs|
  {
    if |hs| > 1 && hs[1] == hs[0] as int + 1 then 1 + RunLength(hs[1..]) else 1
  }

  /** The first and the last handle of every maximal run. */
  function Runs(hs: seq<int64>): seq<(int64, int64)>
    decreases |hs|
  {
    if hs == [] then [] else [(hs[0], hs[RunLength(hs) - 1])] + Runs(hs[RunLength(hs)..])
  }

  function Encoded(tid: int64, runs: seq<(int64, int64)>): (r: seq<KeyRange>)
    ensures |r| == |runs|
  {
    seq(|runs|, i requires 0 <= i < |runs| => RangeOf(tid, runs[i].0, runs[i].1))
  }

  /** One range for each maximal run of handles that follow each other. */
  function Ranges(tid: int64, hs: seq<int64>): seq<KeyRange> {
    Encoded(tid, Runs(hs))
  }

  lemma {:induction false} RunIsConsecutive(hs: seq<int64>, i: nat)
    requires hs != [] && i < RunLength(hs)
    ensures hs[i] == hs[0] + i
    decreases |hs|
  {
    if i == 0 {
    } else {
      RunIsConsecutive(hs[1..], i - 1);
      assert hs[i] == hs[1..][i - 1];
    }
  }

  lemma {:induction false} RunEnds(hs: seq<int64>)
    requires hs != [] && RunLength(hs) < |hs|
    ensures hs[RunLength(hs)] != hs[RunLength(hs) - 1] as int + 1
    decreases |hs|
  {
    if |hs| > 1 && hs[1] == hs[0] as int + 1 {
      RunEnds(hs[1..]);
      var n := RunLength(hs[1..]);
      assert hs[1..][n] == hs[n + 1] && hs[1..][n - 1] == hs[n];
    }
  }

  /** Handles are taken as long as each follows the one before, without running over the greatest. */
  method FindRunEnd(handles: seq<int64>, i: nat) returns (j: nat)
    requires i < |handles|
    ensures i < j <= |handles| && RunLength(handles[i..]) == j - i
  {
    j := i + 1;
    while j < |handles| && handles[j - 1] != MAX_INT64
      invariant i < j <= |handles| && RunLength(handles[i..]) == j - i - 1 + RunLength(handles[j - 1..])
    {
      assert handles[j - 1..][1..] == handles[j..];
      if handles[j] != handles[j - 1] + 1 {
        break;
      }
      j := j + 1;
    }
  }

  lemma EncodedFront(tid: int64, run: (int64, int64), runs: seq<(int64, int64)>)
    ensures Encoded(tid, [run] + runs) == [RangeOf(tid, run.0, run.1)] + Encoded(tid, runs)
  {
  }

  lemma FirstRange(tid: int64, hs: seq<int64>, n: nat)
    requires hs != [] && n == RunLength(hs)
    ensures Ranges(tid, hs) == [RangeOf(tid, hs[0], hs[n - 1])] + Ranges(tid, hs[n..])
  {
    EncodedFront(tid, (hs[0], hs[n - 1]), Runs(hs[n..]));
  }

  lemma RangesFrom(tid: int64, s: seq<int64>, t: seq<int64>, lo: int64, hi: int64, n: nat)
    requires s != [] && n == RunLength(s) && t == s[n..] && lo == s[0] && hi == s[n - 1]
    ensures Ranges(tid, s) == [RangeOf(tid, lo, hi)] + Ranges(tid, t)
  {
    FirstRange(tid, s, n);
  }

  method EncodeRange(tid: int64, lo: int64, hi: int64) returns (r: KeyRange)
    ensures r == RangeOf(tid, lo, hi)
  {
    var low, high := EncodeInt(lo), EncodeInt(hi);
    high := PrefixNext(high);
    r := KeyRange(RecordPrefix(tid) + low, RecordPrefix(tid) + high);
  }

  method TableHandlesToKVRanges(tid: int64, handles: seq<int64>) returns (krs: seq<KeyRange>)
    ensures krs == Ranges(tid, handles)
  {
    krs := [];
    var i := 0;
    ghost var rest := Ranges(tid, handles[0..]);
    assert handles[0..] == handles;
    while i < |handles|
      invariant 0 <= i <= |handles| && rest == Ranges(tid, handles[i..]) && krs + rest == Ranges(tid, handles)
    {
      var j := FindRunEnd(handles, i);
      assert handles[i..][j - i..] == handles[j..];
      RangesFrom(tid, handles[i..], handles[j..], handles[i], handles[j - 1], j - i);
      var r := EncodeRange(tid, handles[i], handles[j - 1]);
      Shift(krs, r, Ranges(tid, handles[j..]));
      rest := Ranges(tid, handles[j..]);
      krs := krs + [r];
      i := j;
    }
  }

  lemma Shift(a: seq<KeyRange>, r: KeyRange, b: seq<KeyRange>)
    ensures a + ([r] + b) == (a + [r]) + b
  {
  }

  // ---------- what the ranges read ----------

  ghost predicate Covers(rs: seq<KeyRange>, x: Key) {
    exists i :: 0 <= i < |rs| && Contains(rs[i], x)
  }

  ghost predicate Any(hs: seq<int64>, p: int64 -> bool) {
    exists i :: 0 <= i < |hs| && p(hs[i])
  }

  function Reads(tid: int64, x: Key): int64 -> bool {
    (h: int64) => Contains(OneRange(tid, h), x)
  }

  ghost predicate ReadsOne(tid: int64, hs: seq<int64>, x: Key) {
    Any(hs, Reads(tid, x))
  }

  lemma RowOrder(tid: int64, a: int64, b: int64)
    requires a < b
    ensures Less(RowKey(tid, a), RowKey(tid, b)) && LessEq(OneRange(tid, a).endKey, RowKey(tid, b))
  {
    var p := RecordPrefix(tid);
    EncodeIntOrder(a, b);
    NextHandle(a);
    EncodeIntOrder(a + 1, b);
    LessWithPrefix(p, EncodeInt(a), EncodeInt(b));
    LessWithPrefix(p, EncodeInt(a + 1), EncodeInt(b));
  }

  lemma LessEqLess(a: Key, b: Key, c: Key)
    ensures LessEq(a, b) && Less(b, c) ==> Less(a, c)
    ensures Less(a, b) && LessEq(b, c) ==> Less(a, c)
    ensures LessEq(a, b) && LessEq(b, c) ==> LessEq(a, c)
  {
    if Less(a, b) && Less(b, c) {
      LessTransitive(a, b, c);
    }
  }

  /** A range of several handles is the range of the first and the range of the others. */
  lemma RangeSplits(tid: int64, lo: int64, hi: int64, x: Key)
    requires lo < hi
    ensures Contains(RangeOf(tid, lo, hi), x) <==> Contains(OneRange(tid, lo), x) || Contains(RangeOf(tid, lo + 1, hi), x)
  {
    var a, b, c := RowKey(tid, lo), RowKey(tid, lo + 1), RangeOf(tid, lo, hi).endKey;
    NextHandle(lo);
    assert OneRange(tid, lo) == KeyRange(a, b);
    RowOrder(tid, lo, lo + 1);
    EndIsBehind(tid, lo + 1, hi);
    SplitAt(a, b, c, x);
  }

  lemma SplitAt(a: Key, b: Key, c: Key, x: Key)
    requires LessEq(a, b) && LessEq(b, c)
    ensures LessEq(a, x) && Less(x, c) <==> (LessEq(a, x) && Less(x, b)) || (LessEq(b, x) && Less(x, c))
  {
    LessTotal(b, x);
    LessEqLess(a, b, x);
    LessEqLess(x, b, c);
  }

  lemma EndIsBehind(tid: int64, lo: int64, hi: int64)
    requires lo <= hi
    ensures LessEq(RowKey(tid, lo), RangeOf(tid, lo, hi).endKey)
  {
    var p := RecordPrefix(tid);
    NextHandle(hi);
    if hi < MAX_INT64 {
      RowOrder(tid, lo, hi + 1);
    } else {
      LessLonger(EncodeInt(hi), EncodeInt(hi), [0]);
      EncodeIntOrder(lo, hi);
      LessWithPrefix(p, EncodeInt(lo), EncodeInt(hi));
      LessWithPrefix(p, EncodeInt(hi), EncodeInt(hi) + [0]);
      LessEqLess(RowKey(tid, lo), RowKey(tid, hi), p + (EncodeInt(hi) + [0]));
    }
  }

  /** The range of one of the handles from `lo` to `hi` holds the key. */
  ghost predicate OneReads(tid: int64, lo: int64, hi: int64, x: Key) {
    exists h: int64 :: lo <= h <= hi && Reads(tid, x)(h)
  }

  lemma OneReadsFirst(tid: int64, lo: int64, hi: int64, x: Key)
    requires lo < hi
    ensures OneReads(tid, lo, hi, x) <==> Reads(tid, x)(lo) || OneReads(tid, lo + 1, hi, x)
  {
    if OneReads(tid, lo, hi, x) && !Reads(tid, x)(lo) {
      var h: int64 :| lo <= h <= hi && Reads(tid, x)(h);
      assert lo + 1 <= h;
    }
  }

  /** A range of several handles reads what their ranges read one by one. */
  lemma {:induction false} RangeIsUnion(tid: int64, lo: int64, hi: int64, x: Key)
    requires lo <= hi
    ensures Contains(RangeOf(tid, lo, hi), x) <==> OneReads(tid, lo, hi, x)
    decreases hi - lo
  {
    if lo == hi {
      assert Reads(tid, x)(lo) == Contains(RangeOf(tid, lo, hi), x);
    } else {
      RangeIsUnion(tid, lo + 1, hi, x);
      OneReadsFirst(tid, lo, hi, x);
      RangeSplits(tid, lo, hi, x);
    }
  }

  lemma {:induction false} ConsecutiveAt(run: seq<int64>, i: nat)
    requires i < |run| && Consecutive(run)
    ensures run[i] == run[0] + i
  {
    if i == 0 {
    } else {
      ConsecutiveAt(run, i - 1);
      assert run[i] == run[i - 1] as int + 1;
    }
  }

  lemma RunReads(tid: int64, run: seq<int64>, x: Key)
    requires run != [] && Consecutive(run)
    ensures run[|run| - 1] == run[0] + |run| - 1
    ensures Contains(RangeOf(tid, run[0], run[|run| - 1]), x) <==> ReadsOne(tid, run, x)
  {
    var lo, hi := run[0], run[|run| - 1];
    ConsecutiveAt(run, |run| - 1);
    RangeIsUnion(tid, lo, hi, x);
    RunIsRange(run, Reads(tid, x));
  }

  lemma RunIsRange(run: seq<int64>, p: int64 -> bool)
    requires run != [] && Consecutive(run)
    ensures Any(run, p) <==> exists h: int64 :: run[0] <= h <= run[|run| - 1] && p(h)
  {
    forall i: nat | i < |run| ensures run[i] == run[0] + i {
      ConsecutiveAt(run, i);
    }
    if h: int64 :| run[0] <= h <= run[|run| - 1] && p(h) {
      assert run[h - run[0]] == h;
    }
    if Any(run, p) {
      var i :| 0 <= i < |run| && p(run[i]);
      assert run[0] <= run[i] <= run[|run| - 1];
    }
  }

  lemma AnySplit(hs: seq<int64>, n: nat, p: int64 -> bool)
    requires n <= |hs|
    ensures Any(hs, p) <==> Any(hs[..n], p) || Any(hs[n..], p)
  {
    if Any(hs, p) {
      var i :| 0 <= i < |hs| && p(hs[i]);
      if i < n { assert hs[..n][i] == hs[i]; } else { assert hs[n..][i - n] == hs[i]; }
    }
    if Any(hs[..n], p) {
      var i :| 0 <= i < n && p(hs[..n][i]);
      assert hs[i] == hs[..n][i];
    }
    if Any(hs[n..], p) {
      var i :| 0 <= i < |hs| - n && p(hs[n..][i]);
      assert hs[n + i] == hs[n..][i];
    }
  }

  lemma CoversFront(r: KeyRange, rs: seq<KeyRange>, x: Key)
    ensures Covers([r] + rs, x) <==> Contains(r, x) || Covers(rs, x)
  {
    var all := [r] + rs;
    if Covers(rs, x) {
      var i :| 0 <= i < |rs| && Contains(rs[i], x);
      assert all[i + 1] == rs[i];
    }
    if Contains(r, x) { assert all[0] == r; }
    if Covers(all, x) {
      var i :| 0 <= i < |all| && Contains(all[i], x);
      if i > 0 { assert all[i] == rs[i - 1]; }
    }
  }

  lemma RunOf(hs: seq<int64>)
    requires hs != []
    ensures var run := hs[..RunLength(hs)]; run != [] && Consecutive(run) && run[|run| - 1] == hs[RunLength(hs) - 1]
  {
    var n := RunLength(hs);
    forall i, j | 0 <= i && j == i + 1 && j < n ensures hs[j] == hs[i] as int + 1 {
      RunIsConsecutive(hs, i);
      RunIsConsecutive(hs, j);
    }
  }

  /** For every list of handles and every key: the merged ranges read it if and only if some handle's own range does. */
  lemma {:induction false} MergingKeepsKeys(tid: int64, hs: seq<int64>, x: Key)
    ensures Covers(Ranges(tid, hs), x) <==> ReadsOne(tid, hs, x)
    decreases |hs|
  {
    if hs == [] {
    } else {
      var n := RunLength(hs);
      RunOf(hs);
      RunReads(tid, hs[..n], x);
      MergingKeepsKeys(tid, hs[n..], x);
      AnySplit(hs, n, Reads(tid, x));
      FirstRange(tid, hs, n);
      CoversFront(RangeOf(tid, hs[0], hs[n - 1]), Ranges(tid, hs[n..]), x);
    }
  }

  /** The row of a handle is read if and only if the handle is listed. */
  lemma RangesReadHandles(tid: int64, hs: seq<int64>, h: int64)
    ensures Covers(Ranges(tid, hs), RowKey(tid, h)) <==> h in hs
  {
    var x := RowKey(tid, h);
    MergingKeepsKeys(tid, hs, x);
    forall i | 0 <= i < |hs| ensures Contains(OneRange(tid, hs[i]), x) <==> hs[i] == h {
      OneRangeReads(tid, hs[i], x);
      EncodeIntOrder(hs[i], h);
      assert |x| == |RowKey(tid, hs[i])|;
      assert RowKey(tid, hs[i]) <= x ==> RowKey(tid, hs[i]) == x;
      if RowKey(tid, hs[i]) == x {
        assert EncodeInt(hs[i]) == x[|RecordPrefix(tid)|..] == EncodeInt(h);
      }
    }
  }

  // ---------- order and number of the ranges ----------

  ghost predicate Increasing(hs: seq<int64>) {
    forall i, j :: 0 <= i && j == i + 1 && j < |hs| ==> hs[i] < hs[j]
  }

  /** The ranges come one after the other and do not overlap. */
  ghost predicate Disjoint(rs: seq<KeyRange>) {
    forall i, j :: 0 <= i && j == i + 1 && j < |rs| ==> LessEq(rs[i].endKey, rs[j].startKey)
  }

  lemma StartOfRanges(tid: int64, hs: seq<int64>)
    requires hs != []
    ensures Ranges(tid, hs) != [] && Ranges(tid, hs)[0].startKey == RowKey(tid, hs[0])
  {
  }

  lemma DisjointFront(r: KeyRange, rs: seq<KeyRange>)
    ensures Disjoint([r] + rs) <==> Disjoint(rs) && (rs != [] ==> LessEq(r.endKey, rs[0].startKey))
  {
    var all := [r] + rs;
    if Disjoint(all) {
      forall i, j | 0 <= i && j == i + 1 && j < |rs| ensures LessEq(rs[i].endKey, rs[j].startKey) {
        assert all[i + 1] == rs[i] && all[j + 1] == rs[j];
      }
      if rs != [] { assert all[0] == r && all[1] == rs[0]; }
    } else {
      var i, j :| 0 <= i && j == i + 1 && j < |all| && !LessEq(all[i].endKey, all[j].startKey);
      if i > 0 { assert all[i] == rs[i - 1] && all[j] == rs[j - 1]; }
    }
  }

  lemma IncreasingSplit(hs: seq<int64>, n: nat)
    requires 0 < n < |hs|
    ensures Increasing(hs) <==> Increasing(hs[..n]) && hs[n - 1] < hs[n] && Increasing(hs[n..])
  {
    var a, b := hs[..n], hs[n..];
    if Increasing(hs) {
      forall i, j | 0 <= i && j == i + 1 && j < |b| ensures b[i] < b[j] {
        assert b[i] == hs[n + i] && b[j] == hs[n + j];
      }
    } else {
      var i, j :| 0 <= i && j == i + 1 && j < |hs| && hs[i] >= hs[j];
      if j < n {
        assert a[i] == hs[i] && a[j] == hs[j];
      } else if i >= n {
        assert b[i - n] == hs[i] && b[j - n] == hs[j];
      }
    }
  }

  /** The end of one handle's range against the start of another's: at or before it exactly when the handle is smaller. */
  lemma EndBeforeStart(tid: int64, a: int64, b: int64)
    ensures LessEq(OneRange(tid, a).endKey, RowKey(tid, b)) <==> a < b
  {
    if a < b {
      RowOrder(tid, a, b);
    } else {
      var x, y, e := RowKey(tid, b), RowKey(tid, a), OneRange(tid, a).endKey;
      if b < a { RowOrder(tid, b, a); }
      OneRangeReads(tid, a, y);
      LessEqLess(x, y, e);
      LessTotal(e, x);
    }
  }

  lemma FirstGap(tid: int64, hs: seq<int64>, n: nat)
    requires hs != [] && n == RunLength(hs) < |hs|
    ensures Increasing(hs) <==> hs[n - 1] < hs[n] && Increasing(hs[n..])
    ensures Disjoint(Ranges(tid, hs)) <==> hs[n - 1] < hs[n] && Disjoint(Ranges(tid, hs[n..]))
  {
    RunOf(hs);
    RunIncreases(hs[..n]);
    IncreasingSplit(hs, n);
    FirstRange(tid, hs, n);
    DisjointFront(RangeOf(tid, hs[0], hs[n - 1]), Ranges(tid, hs[n..]));
    StartOfRanges(tid, hs[n..]);
    EndBeforeStart(tid, hs[n - 1], hs[n]);
  }

  /** The ranges are in order and apart if and only if the handles are strictly increasing. */
  lemma {:induction false} SortedHandles(tid: int64, hs: seq<int64>)
    ensures Disjoint(Ranges(tid, hs)) <==> Increasing(hs)
    decreases |hs|
  {
    if hs == [] {
    } else {
      var n := RunLength(hs);
      if n == |hs| {
        RunOf(hs);
        assert hs[..n] == hs;
        RunIncreases(hs);
      } else {
        SortedHandles(tid, hs[n..]);
        FirstGap(tid, hs, n);
      }
    }
  }

  lemma RunIncreases(run: seq<int64>)
    requires Consecutive(run)
    ensures Increasing(run)
  {
  }

  /** All keys of a range are row keys of its table, or at least begin like them. */
  lemma {:induction false} RangeStaysInTable(p: Key, a: Key, b: Key, x: Key)
    requires LessEq(p + a, x) && Less(x, p + b)
    ensures p <= x
    decreases |p|
  {
    if p == [] {
    } else {
      assert (p + a)[1..] == p[1..] + a && (p + b)[1..] == p[1..] + b;
      assert x != [] && x[0] == p[0];
      assert p + a == x ==> p[1..] + a == x[1..];
      RangeStaysInTable(p[1..], a, b, x[1..]);
      assert p == [p[0]] + p[1..] && x == [x[0]] + x[1..];
    }
  }

  // ---------- no smaller set of ranges will do ----------

  /** The first handles of the runs. */
  function Starts(hs: seq<int64>): seq<int64>
    decreases |hs|
  {
    if hs == [] then [] else [hs[0]] + Starts(hs[RunLength(hs)..])
  }

  lemma {:induction false} StartsCount(tid: int64, hs: seq<int64>)
    ensures |Starts(hs)| == |Ranges(tid, hs)|
    decreases |hs|
  {
    if hs == [] {
    } else {
      StartsCount(tid, hs[RunLength(hs)..]);
    }
  }

  lemma {:induction false} IncreasingAll(hs: seq<int64>, i: nat, j: nat)
    requires Increasing(hs) && i < j < |hs|
    ensures hs[i] < hs[j]
    decreases j
  {
    if i < j - 1 {
      IncreasingAll(hs, i, j - 1);
    }
  }

  lemma NotBefore(hs: seq<int64>, n: nat, b: int)
    requires Increasing(hs) && 0 < n < |hs| && RunLength(hs) == n && b >= hs[n]
    ensures b - 1 !in hs[..n]
  {
    RunEnds(hs);
    assert hs[n - 1] < hs[n];
    forall i | 0 <= i < n ensures hs[..n][i] < b - 1 {
      if i < n - 1 { IncreasingAll(hs, i, n - 1); }
    }
  }

  lemma InPart(hs: seq<int64>, n: nat, h: int)
    requires n <= |hs| && h in hs
    ensures h in hs[..n] || h in hs[n..]
  {
    var i :| 0 <= i < |hs| && hs[i] == h;
    if i < n { assert hs[..n][i] == h; } else { assert hs[n..][i - n] == h; }
  }

  ghost predicate Opens(hs: seq<int64>, b: int64) {
    hs != [] && b in hs && b >= hs[0] && b as int - 1 !in hs
  }

  lemma FirstOpens(hs: seq<int64>)
    requires Increasing(hs) && hs != []
    ensures Opens(hs, hs[0])
  {
    forall i | 0 < i < |hs| ensures hs[0] < hs[i] { IncreasingAll(hs, 0, i); }
  }

  lemma LaterOpens(hs: seq<int64>, b: int64)
    requires Increasing(hs) && hs != [] && Opens(hs[RunLength(hs)..], b)
    ensures Opens(hs, b)
  {
    var n := RunLength(hs);
    IncreasingAll(hs, 0, n);
    NotBefore(hs, n, b);
    if b as int - 1 in hs { InPart(hs, n, b - 1); }
  }

  /** A run starts where the handle before is not listed. */
  lemma {:induction false} StartGap(hs: seq<int64>, k: nat)
    requires Increasing(hs) && k < |Starts(hs)|
    ensures Opens(hs, Starts(hs)[k])
    decreases |hs|
  {
    if k == 0 {
      FirstOpens(hs);
    } else {
      IncreasingSplit(hs, RunLength(hs));
      StartGap(hs[RunLength(hs)..], k - 1);
      LaterOpens(hs, Starts(hs)[k]);
    }
  }

  lemma {:induction false} StartsIncrease(hs: seq<int64>, i: nat, k: nat)
    requires Increasing(hs) && i < k < |Starts(hs)|
    ensures Starts(hs)[i] < Starts(hs)[k]
    decreases |hs|
  {
    var n := RunLength(hs);
    IncreasingSplit(hs, n);
    if i == 0 {
      StartGap(hs[n..], k - 1);
      IncreasingAll(hs, 0, n);
    } else {
      StartsIncrease(hs[n..], i - 1, k - 1);
    }
  }

  /** A range that reads two handles reads the one before the second. */
  lemma ReadsBetween(tid: int64, a: int64, b: int64, r: KeyRange)
    requires a < b && Contains(r, RowKey(tid, a)) && Contains(r, RowKey(tid, b))
    ensures Contains(r, RowKey(tid, b - 1))
  {
    var x, y, z := RowKey(tid, a), RowKey(tid, b - 1), RowKey(tid, b);
    RowOrder(tid, b - 1, b);
    if a < b - 1 { RowOrder(tid, a, b - 1); }
    LessEqLess(r.startKey, x, y);
    LessEqLess(y, z, r.endKey);
  }

  /** Two starts are never in one range that reads listed handles only. */
  lemma StartsApart(tid: int64, hs: seq<int64>, i: nat, k: nat, r: KeyRange)
    requires Increasing(hs) && i < k < |Starts(hs)|
    requires forall h: int64 :: Contains(r, RowKey(tid, h)) ==> h in hs
    ensures !(Contains(r, RowKey(tid, Starts(hs)[i])) && Contains(r, RowKey(tid, Starts(hs)[k])))
  {
    var a, b := Starts(hs)[i], Starts(hs)[k];
    StartsIncrease(hs, i, k);
    StartGap(hs, k);
    if Contains(r, RowKey(tid, a)) && Contains(r, RowKey(tid, b)) {
      ReadsBetween(tid, a, b, r);
    }
  }

  /** Numbers below n that are all different are no more than n. */
  lemma {:induction false} Pigeonhole(f: seq<nat>, n: nat)
    requires (forall i :: 0 <= i < |f| ==> f[i] < n) && (forall i, j :: 0 <= i < j < |f| ==> f[i] != f[j])
    ensures |f| <= n
    decreases n
  {
    if n == 0 {
      assert f == [];
    } else if exists i :: 0 <= i < |f| && f[i] == n - 1 {
      var i :| 0 <= i < |f| && f[i] == n - 1;
      var g := f[..i] + f[i + 1..];
      forall j | 0 <= j < |g| ensures g[j] == f[if j < i then j else j + 1] && g[j] < n - 1 {
        var j' := if j < i then j else j + 1;
        assert g[j] == f[j'] && (j' < i || i < j');
      }
      Pigeonhole(g, n - 1);
    } else {
      Pigeonhole(f, n - 1);
    }
  }

  lemma {:induction false} Assign(tid: int64, hs: seq<int64>, rs: seq<KeyRange>, n: nat) returns (f: seq<nat>)
    requires Increasing(hs) && n <= |Starts(hs)|
    requires forall h: int64 :: Covers(rs, RowKey(tid, h)) <==> h in hs
    ensures |f| == n && forall i :: 0 <= i < n ==> f[i] < |rs| && Contains(rs[f[i]], RowKey(tid, Starts(hs)[i]))
    decreases n
  {
    f := [];
    if n == 0 {
    } else {
      f := Assign(tid, hs, rs, n - 1);
      StartGap(hs, n - 1);
      var j :| 0 <= j < |rs| && Contains(rs[j], RowKey(tid, Starts(hs)[n - 1]));
      f := f + [j];
    }
  }

  /** Any ranges that read exactly these handles are at least as many. */
  lemma FewestRanges(tid: int64, hs: seq<int64>, rs: seq<KeyRange>)
    requires Increasing(hs) && forall h: int64 :: Covers(rs, RowKey(tid, h)) <==> h in hs
    ensures |Ranges(tid, hs)| <= |rs|
  {
    StartsCount(tid, hs);
    var f := Assign(tid, hs, rs, |Starts(hs)|);
    forall i, j | 0 <= i < j < |f| ensures f[i] != f[j] {
      assert forall h: int64 :: Contains(rs[f[i]], RowKey(tid, h)) ==> Covers(rs, RowKey(tid, h));
      StartsApart(tid, hs, i, j, rs[f[i]]);
    }
    Pigeonhole(f, |rs|);
  }
}
