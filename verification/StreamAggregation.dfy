/**
  Stream aggregation: rows arrive in chunks, already sorted by the group keys, and every maximal run
  of rows with equal keys is one group. A group may span any number of chunks.

  A partial result is modelled by the rows that were fed to it, so that equal partial results mean
  equal results for every aggregate function.
 */
module StreamAggregation {
  import opened Options
  import opened Sequences

  datatype Value = Value(isNull: bool, raw: int)

  type Row = seq<Value>

  type Chunk = seq<Row>

  type Group = seq<Row>

  // ---------- groups ----------

  predicate SameValue(a: Value, b: Value) {
    if a.isNull || b.isNull then a.isNull && b.isNull else a.raw == b.raw
  }

  predicate Same(a: Row, b: Row) {
    |a| == |b| && forall k :: 0 <= k < |a| ==> SameValue(a[k], b[k])
  }

  /** What a column holds: nothing, or a number. */
  function Meaning(v: Value): Option<int> {
    if v.isNull then None else Some(v.raw)
  }

  /** Rows are of one group if their columns hold the same; nulls are all alike, and like no number. */
  lemma SameMeans(a: Row, b: Row)
    ensures Same(a, b) <==> |a| == |b| && forall k :: 0 <= k < |a| ==> Meaning(a[k]) == Meaning(b[k])
  {
  }

  /** The key kept across chunks is made from the values as they are stored, whether null or not. */
  function Key(r: Row): seq<int> {
    seq(|r|, k requires 0 <= k < |r| => r[k].raw)
  }

  /** The maximal runs of rows of the same group. */
  function Segments(rows: seq<Row>): (gs: seq<Group>)
    ensures rows != [] ==> gs != [] && gs[0] != []
    ensures forall i :: 0 <= i < |gs| ==> gs[i] != []
  {
    if rows == [] then [] else Join([[rows[0]]], Segments(rows[1..]), |rows| > 1 && Same(rows[0], rows[1]))
  }

  /** Two lists of groups, one after the other; `same` tells whether the border runs through a group. */
  function Join(gs: seq<Group>, hs: seq<Group>, same: bool): seq<Group> {
    if gs != [] && hs != [] && same then gs[..|gs| - 1] + [gs[|gs| - 1] + hs[0]] + hs[1..] else gs + hs
  }

  lemma JoinFlatten(gs: seq<Group>, hs: seq<Group>, same: bool)
    ensures Flatten(Join(gs, hs, same)) == Flatten(gs) + Flatten(hs)
  {
    if gs != [] && hs != [] && same {
      var a, g, h, b := gs[..|gs| - 1], gs[|gs| - 1], hs[0], hs[1..];
      calc {
        Flatten(Join(gs, hs, same));
        { assert Join(gs, hs, same) == a + ([g + h] + b); FlattenConcat(a, [g + h] + b); }
        Flatten(a) + Flatten([g + h] + b);
        { FlattenConcat([g + h], b); FlattenOne(g + h); }
        Flatten(a) + ((g + h) + Flatten(b));
        (Flatten(a) + g) + (h + Flatten(b));
        { FlattenConcat(a, [g]); FlattenOne(g); assert gs == a + [g]; }
        Flatten(gs) + Flatten(hs);
      }
    } else {
      FlattenConcat(gs, hs);
    }
  }

  lemma {:induction false} JoinAssoc(a: seq<Group>, b: seq<Group>, c: seq<Group>, x: bool, y: bool)
    requires b != []
    ensures Join(Join(a, b, x), c, y) == Join(a, Join(b, c, y), x)
  {
    var l, r := Join(Join(a, b, x), c, y), Join(a, Join(b, c, y), x);
    if a != [] && c != [] && x && y && |b| == 1 {
      assert (a[|a| - 1] + b[0]) + c[0] == a[|a| - 1] + (b[0] + c[0]);
    }
    assert l == r;
  }

  /** Groups of a concatenation: only the border matters. */
  lemma {:induction false} SegmentsConcat(a: seq<Row>, b: seq<Row>)
    requires a != [] && b != []
    ensures Segments(a + b) == Join(Segments(a), Segments(b), Same(a[|a| - 1], b[0]))
    decreases |a|
  {
    var s := a + b;
    assert s[1..] == a[1..] + b;
    if |a| == 1 {
      assert a[1..] == [] && s[1..] == b;
      assert Segments(a) == [[a[0]]];
    } else {
      SegmentsConcat(a[1..], b);
      assert a[1..][|a| - 2] == a[|a| - 1];
      JoinAssoc([[a[0]]], Segments(a[1..]), Segments(b), Same(a[0], a[1]), Same(a[|a| - 1], b[0]));
    }
  }

  /** What makes the segments the groups: nothing is lost, rows of a group agree, neighbouring groups differ. */
  ghost predicate Grouping(rows: seq<Row>, gs: seq<Group>) {
    Flatten(gs) == rows && (forall i :: 0 <= i < |gs| ==> gs[i] != [] && Uniform(gs[i])) && Separated(gs)
  }

  ghost predicate Separated(gs: seq<Group>) {
    forall i, j :: 0 <= i && j == i + 1 && j < |gs| ==> Apart(gs[i], gs[j])
  }

  predicate Apart(g: Group, h: Group) {
    g != [] && h != [] && !Same(g[|g| - 1], h[0])
  }

  ghost predicate Uniform(g: Group) {
    forall i, j :: 0 <= i && j == i + 1 && j < |g| ==> Same(g[i], g[j])
  }

  lemma {:induction false} SegmentsAreGroups(rows: seq<Row>)
    ensures Grouping(rows, Segments(rows))
  {
    if rows == [] {
    } else {
      SegmentsAreGroups(rows[1..]);
      GroupingFront(rows[0], rows[1..], Segments(rows[1..]));
      assert rows == [rows[0]] + rows[1..];
    }
  }

  lemma GroupingFront(r: Row, rows: seq<Row>, gs: seq<Group>)
    requires Grouping(rows, gs) && (rows != [] ==> gs != [])
    ensures Grouping([r] + rows, Join([[r]], gs, rows != [] && Same(r, rows[0])))
  {
    var same := rows != [] && Same(r, rows[0]);
    JoinFlatten([[r]], gs, same);
    FlattenOne([r]);
    if rows != [] {
      assert gs[0] != [] && Flatten(gs) == gs[0] + Flatten(gs[1..]);
      assert gs[0][0] == rows[0];
    }
    if same {
      UniformFront(r, gs[0]);
      assert Join([[r]], gs, same) == [[r] + gs[0]] + gs[1..];
      SeparatedRest(gs);
      SeparatedFront([r] + gs[0], gs[1..]);
    } else {
      SeparatedFront([r], gs);
    }
  }

  lemma SeparatedFront(g: Group, gs: seq<Group>)
    requires Separated(gs) && (gs != [] ==> Apart(g, gs[0]))
    ensures Separated([g] + gs)
  {
    var js := [g] + gs;
    forall i, j | 0 <= i && j == i + 1 && j < |js| ensures Apart(js[i], js[j]) {
      if i > 0 {
        assert js[i] == gs[i - 1] && js[j] == gs[j - 1];
      }
    }
  }

  lemma SeparatedRest(gs: seq<Group>)
    requires Separated(gs) && gs != []
    ensures Separated(gs[1..]) && (|gs| > 1 ==> Apart(gs[0], gs[1]))
  {
    var js := gs[1..];
    forall i, j | 0 <= i && j == i + 1 && j < |js| ensures Apart(js[i], js[j]) {
      assert js[i] == gs[i + 1] && js[j] == gs[j + 1];
    }
  }

  lemma UniformFront(r: Row, g: Group)
    requires g != [] && Uniform(g) && Same(r, g[0])
    ensures Uniform([r] + g)
  {
    var h := [r] + g;
    forall i, j | 0 <= i && j == i + 1 && j < |h| ensures Same(h[i], h[j]) {
      if i > 0 {
        assert h[i] == g[i - 1] && h[j] == g[j - 1];
      }
    }
  }

  function DropFirst(gs: seq<Group>): seq<Group>
    requires gs != [] && gs[0] != []
  {
    if |gs[0]| == 1 then gs[1..] else [gs[0][1..]] + gs[1..]
  }

  lemma GroupingOf(g: Group, gs: seq<Group>)
    requires g != [] && Uniform(g) && Grouping(Flatten(gs), gs) && (gs != [] ==> Apart(g, gs[0]))
    ensures Grouping(g + Flatten(gs), [g] + gs)
  {
    SeparatedFront(g, gs);
    assert ([g] + gs)[1..] == gs;
  }

  /** A grouping without its first row, and back. */
  lemma GroupingRest(rows: seq<Row>, gs: seq<Group>)
    requires Grouping(rows, gs) && gs != []
    ensures rows != [] && gs[0] != [] && Grouping(rows[1..], DropFirst(gs))
  {
    var g, rest := gs[0], gs[1..];
    SeparatedRest(gs);
    assert forall i :: 0 <= i < |rest| ==> rest[i] == gs[i + 1];
    assert rows == g + Flatten(rest);
    if |g| == 1 {
      assert rows[1..] == Flatten(rest);
    } else {
      UniformRest(g);
      GroupingOf(g[1..], rest);
      assert rows[1..] == g[1..] + Flatten(rest);
    }
  }

  lemma DropFirstBack(rows: seq<Row>, gs: seq<Group>)
    requires Grouping(rows, gs) && gs != [] && rows != [] && gs[0] != []
    ensures gs == Join([[rows[0]]], DropFirst(gs), |rows| > 1 && Same(rows[0], rows[1]))
  {
    var g, rest := gs[0], gs[1..];
    assert rows == g + Flatten(rest);
    assert gs == [g] + rest;
    if |g| == 1 {
      assert g == [rows[0]];
      if rest != [] {
        assert rest[0] == gs[1] && Apart(g, gs[1]);
        assert Flatten(rest) == rest[0] + Flatten(rest[1..]);
        assert rows[1] == rest[0][0];
      }
    } else {
      assert Same(g[0], g[1]) && rows[0] == g[0] && rows[1] == g[1];
      assert [rows[0]] + g[1..] == g;
      assert ([g[1..]] + rest)[1..] == rest;
    }
  }

  /** And there is no other grouping. */
  lemma {:induction false} GroupingIsUnique(rows: seq<Row>, gs: seq<Group>)
    requires Grouping(rows, gs)
    ensures gs == Segments(rows)
    decreases |rows|
  {
    if gs == [] {
    } else {
      GroupingRest(rows, gs);
      GroupingIsUnique(rows[1..], DropFirst(gs));
      DropFirstBack(rows, gs);
    }
  }

  lemma UniformRest(g: Group)
    requires Uniform(g) && g != []
    ensures Uniform(g[1..])
  {
    var h := g[1..];
    forall i, j | 0 <= i && j == i + 1 && j < |h| ensures Same(h[i], h[j]) {
      assert h[i] == g[i + 1] && h[j] == g[j + 1];
    }
  }

  // ---------- groups over chunks ----------

  function Last(c: Chunk): Row
    requires c != []
  {
    c[|c| - 1]
  }

  ghost predicate Chunked(cs: seq<Chunk>) {
    forall i :: 0 <= i < |cs| ==> cs[i] != []
  }

  /** The groups that the executor makes: rows are compared inside a chunk, keys at its border. */
  function ChunkGroups(cs: seq<Chunk>): (gs: seq<Group>)
    requires Chunked(cs)
    ensures cs != [] ==> gs != [] && gs[0] != []
    decreases |cs|, 0
  {
    if cs == [] then [] else Behind(Segments(cs[0]), Last(cs[0]), cs[1..])
  }

  /** Groups that end with the row `last`, and those of the chunks behind. */
  function Behind(gs: seq<Group>, last: Row, cs: seq<Chunk>): seq<Group>
    requires Chunked(cs)
    decreases |cs|, 1
  {
    Join(gs, ChunkGroups(cs), cs != [] && Key(last) == Key(cs[0][0]))
  }

  /** At every border of chunks the keys tell what the rows would. */
  ghost predicate Faithful(cs: seq<Chunk>)
    requires Chunked(cs)
  {
    forall i, j :: 0 <= i && j == i + 1 && j < |cs| ==> (Key(Last(cs[i])) == Key(cs[j][0]) <==> Same(Last(cs[i]), cs[j][0]))
  }

  lemma JoinInjective(gs: seq<Group>, a: seq<Group>, b: seq<Group>, x: bool, y: bool)
    requires gs != [] && a != [] && b != [] && a[0] != [] && b[0] != []
    ensures Join(gs, a, x) == Join(gs, b, y) <==> x == y && a == b
  {
    var n := |gs| - 1;
    var l, r := Join(gs, a, x), Join(gs, b, y);
    assert l[n] == (if x then gs[n] + a[0] else gs[n]) && r[n] == (if y then gs[n] + b[0] else gs[n]);
    if l == r {
      assert x == y by { assert |l[n]| == |r[n]|; }
      if x {
        assert (gs[n] + a[0])[|gs[n]|..] == a[0] && (gs[n] + b[0])[|gs[n]|..] == b[0];
        assert l[n + 1..] == a[1..] && r[n + 1..] == b[1..];
        assert a == [a[0]] + a[1..] && b == [b[0]] + b[1..];
      } else {
        assert l[n + 1..] == a && r[n + 1..] == b;
      }
    }
  }

  lemma FaithfulRest(cs: seq<Chunk>)
    requires Chunked(cs) && |cs| > 1
    ensures Faithful(cs) <==>
              (Key(Last(cs[0])) == Key(cs[1][0]) <==> Same(Last(cs[0]), cs[1][0])) && Faithful(cs[1..])
  {
    var ds := cs[1..];
    if Faithful(cs) {
      forall i, j | 0 <= i && j == i + 1 && j < |ds|
        ensures Key(Last(ds[i])) == Key(ds[j][0]) <==> Same(Last(ds[i]), ds[j][0])
      {
        assert ds[i] == cs[i + 1] && ds[j] == cs[j + 1];
      }
    } else {
      var i, j :| 0 <= i && j == i + 1 && j < |cs| && !(Key(Last(cs[i])) == Key(cs[j][0]) <==> Same(Last(cs[i]), cs[j][0]));
      if i > 0 {
        assert ds[i - 1] == cs[i] && ds[j - 1] == cs[j];
      }
    }
  }

  lemma FlattenFirst(cs: seq<Chunk>)
    requires Chunked(cs) && cs != []
    ensures Flatten(cs) != [] && Flatten(cs)[0] == cs[0][0]
  {
  }

  /** How the rows were cut into chunks does not matter if and only if the keys at the borders are faithful. */
  lemma {:induction false} ChunkingIsIrrelevant(cs: seq<Chunk>)
    requires Chunked(cs)
    ensures ChunkGroups(cs) == Segments(Flatten(cs)) <==> Faithful(cs)
    decreases |cs|
  {
    if |cs| == 1 {
      assert cs == [cs[0]];
      FlattenOne(cs[0]);
      assert ChunkGroups(cs[1..]) == [];
    } else if |cs| > 1 {
      var c, ds := cs[0], cs[1..];
      ChunkingIsIrrelevant(ds);
      FlattenFirst(ds);
      SegmentsConcat(c, Flatten(ds));
      FaithfulRest(cs);
      JoinInjective(Segments(c), ChunkGroups(ds), Segments(Flatten(ds)), Key(Last(c)) == Key(ds[0][0]), Same(Last(c), ds[0][0]));
    }
  }

  /** Without nulls the keys are always faithful. */
  lemma NoNullsFaithful(cs: seq<Chunk>)
    requires Chunked(cs)
    requires forall i, j, k :: 0 <= i < |cs| && 0 <= j < |cs[i]| && 0 <= k < |cs[i][j]| ==> !cs[i][j][k].isNull
    ensures Faithful(cs)
  {
    forall i, j | 0 <= i && j == i + 1 && j < |cs|
      ensures Key(Last(cs[i])) == Key(cs[j][0]) <==> Same(Last(cs[i]), cs[j][0])
    {
      KeyTells(Last(cs[i]), cs[j][0]);
    }
  }

  lemma KeyTells(a: Row, b: Row)
    requires (forall k :: 0 <= k < |a| ==> !a[k].isNull) && (forall k :: 0 <= k < |b| ==> !b[k].isNull)
    ensures Key(a) == Key(b) <==> Same(a, b)
  {
    if Key(a) == Key(b) {
      assert |Key(a)| == |a| && |Key(b)| == |b|;
      forall k | 0 <= k < |a| ensures SameValue(a[k], b[k]) {
        assert Key(a)[k] == a[k].raw && Key(b)[k] == b[k].raw;
      }
    }
  }

  /** A null stored as zero, and a zero: one group if a border runs between them, two if none does. */
  lemma NullMergesWithZero()
    ensures var n, z := [Value(true, 0)], [Value(false, 0)];
            Chunked([[n], [z]]) && !Faithful([[n], [z]]) && ChunkGroups([[n], [z]]) == [[n, z]] && Segments([n, z]) == [[n], [z]]
  {
    var n: Row, z: Row := [Value(true, 0)], [Value(false, 0)];
    var a: Chunk, b: Chunk := [n], [z];
    var cs := [a, b];
    assert Key(n) == Key(z);
    assert !Same(n, z) by { assert !SameValue(n[0], z[0]); }
    assert a[1..] == [] && b[1..] == [];
    assert Segments(a) == [a] && Segments(b) == [b];
    assert cs[1..] == [b] && [b][1..] == [];
    assert ChunkGroups([b]) == Behind(Segments(b), z, []);
    assert Last(cs[0]) == n && cs[1][0] == z;
    assert a + b == [n, z];
    SegmentsConcat(a, b);
    FaithfulRest(cs);
  }

  // ---------- vecGroupChecker ----------

  /** The offsets behind the last row of each group. */
  function Ends(gs: seq<Group>): (r: seq<nat>)
    ensures |r| == |gs|
  {
    if gs == [] then [] else Ends(gs[..|gs| - 1]) + [|Flatten(gs)|]
  }

  lemma {:induction false} EndsAt(gs: seq<Group>, k: nat)
    requires k < |gs|
    ensures Ends(gs)[k] == |Flatten(gs[..k + 1])|
    decreases |gs|
  {
    if k < |gs| - 1 {
      EndsAt(gs[..|gs| - 1], k);
      assert gs[..|gs| - 1][..k + 1] == gs[..k + 1];
    } else {
      assert gs[..k + 1] == gs;
    }
  }

  lemma FlattenSplit(gs: seq<Group>, k: nat)
    requires k <= |gs|
    ensures Flatten(gs) == Flatten(gs[..k]) + Flatten(gs[k..])
  {
    var a, b := gs[..k], gs[k..];
    assert gs == a + b;
    FlattenConcat(a, b);
  }

  lemma FlattenNext(gs: seq<Group>, k: nat)
    requires k < |gs|
    ensures Flatten(gs[..k + 1]) == Flatten(gs[..k]) + gs[k]
  {
    FlattenConcat(gs[..k], [gs[k]]);
    FlattenOne(gs[k]);
    assert gs[..k + 1] == gs[..k] + [gs[k]];
  }

  lemma Middle(a: seq<Row>, b: seq<Row>, c: seq<Row>)
    ensures ((a + b) + c)[|a|..|a| + |b|] == b
  {
  }

  /** The rows between two ends are a group. */
  lemma EndsCut(gs: seq<Group>, k: nat)
    requires k < |gs|
    ensures var begin := if k == 0 then 0 else Ends(gs)[k - 1];
            begin <= Ends(gs)[k] <= |Flatten(gs)| && Flatten(gs)[begin..Ends(gs)[k]] == gs[k]
  {
    EndsAt(gs, k);
    FlattenSplit(gs, k + 1);
    FlattenNext(gs, k);
    Middle(Flatten(gs[..k]), gs[k], Flatten(gs[k + 1..]));
    if k == 0 {
      assert gs[..k] == [];
    } else {
      EndsAt(gs, k - 1);
    }
  }

  lemma SegmentsFlatten(rows: seq<Row>)
    ensures Flatten(Segments(rows)) == rows
  {
    SegmentsAreGroups(rows);
  }

  lemma EndsNext(c: Chunk, i: nat)
    requires 0 < i < |c|
    ensures var e := Ends(Segments(c[..i]));
            Ends(Segments(c[..i + 1])) == (if Same(c[i - 1], c[i]) then e[..|e| - 1] else e) + [i + 1]
    ensures var e := Ends(Segments(c[..i])); e != [] && e[|e| - 1] == i
  {
    var a, b, gs := c[..i], [c[i]], Segments(c[..i]);
    assert c[..i + 1] == a + b && |b[1..]| == 0;
    SegmentsConcat(a, b);
    assert Segments(b) == [b];
    SegmentsFlatten(a);
    SegmentsFlatten(a + b);
    var js := Segments(a + b);
    assert js[..|js| - 1] == if Same(c[i - 1], c[i]) then gs[..|gs| - 1] else gs;
  }

  ghost predicate Wide(chk: Chunk, items: nat) {
    forall i :: 0 <= i < |chk| ==> |chk[i]| == items
  }

  predicate SameUpTo(a: Row, b: Row, n: nat)
    requires n <= |a| && n <= |b|
  {
    forall k :: 0 <= k < n ==> SameValue(a[k], b[k])
  }

  /** Every group by item is compared in turn, row by row, with the row before. */
  method ResolveGroups(chk: Chunk, items: nat) returns (sameGroup: seq<bool>)
    requires chk != [] && Wide(chk, items)
    ensures |sameGroup| == |chk| && forall i, j :: 0 <= i && j == i + 1 && j < |chk| ==> sameGroup[j] == Same(chk[i], chk[j])
  {
    sameGroup := seq(|chk|, i => i > 0);
    var k := 0;
    while k < items
      invariant 0 <= k <= items && |sameGroup| == |chk|
      invariant forall i, j :: 0 <= i && j == i + 1 && j < |chk| ==> sameGroup[j] == SameUpTo(chk[i], chk[j], k)
    {
      var i := 1;
      while i < |chk|
        invariant 1 <= i <= |chk| == |sameGroup|
        invariant forall h, j :: 0 <= h && j == h + 1 && j < |chk| ==>
                    sameGroup[j] == SameUpTo(chk[h], chk[j], if j < i then k + 1 else k)
      {
        var a, b := chk[i - 1][k], chk[i][k];
        assert SameUpTo(chk[i - 1], chk[i], k + 1) == (SameUpTo(chk[i - 1], chk[i], k) && SameValue(a, b));
        if !a.isNull && !b.isNull {
          if a.raw != b.raw { sameGroup := sameGroup[i := false]; }
        } else if a.isNull != b.isNull {
          sameGroup := sameGroup[i := false];
        }
        i := i + 1;
      }
      k := k + 1;
    }
  }

  lemma {:induction false} NoItemsOneGroup(c: Chunk)
    requires c != [] && Wide(c, 0)
    ensures Segments(c) == [c]
    decreases |c|
  {
    if |c| > 1 {
      NoItemsOneGroup(c[1..]);
      assert [c[0]] + c[1..] == c;
    } else {
      assert c == [c[0]] && c[1..] == [];
    }
  }

  class VecGroupChecker {
    const items: nat
    var groupOffset: seq<nat>
    var groupCount: nat
    var nextGroupID: nat
    var lastGroupKeyOfPrevChk: seq<int>

    constructor (items: nat)
      ensures this.items == items && groupOffset == [] && groupCount == 0 && nextGroupID == 0 && lastGroupKeyOfPrevChk == []
    {
      this.items := items;
      groupOffset, groupCount, nextGroupID, lastGroupKeyOfPrevChk := [], 0, 0, [];
    }

    /** What a split leaves for the groups of a chunk to be taken one by one. */
    ghost predicate Split(chk: Chunk)
      reads this
    {
      groupOffset == Ends(Segments(chk)) && (items > 0 ==> groupCount == |groupOffset|)
    }

    method SplitIntoGroups(chk: Chunk) returns (isFirstGroupSameAsPrev: bool)
      requires chk != [] && Wide(chk, items)
      modifies this
      ensures Split(chk) && nextGroupID == 0
      ensures items == 0 ==> isFirstGroupSameAsPrev && groupCount == old(groupCount) && lastGroupKeyOfPrevChk == old(lastGroupKeyOfPrevChk)
      ensures items > 0 ==>
                && lastGroupKeyOfPrevChk == Key(Last(chk))
                && (isFirstGroupSameAsPrev <==> old(lastGroupKeyOfPrevChk) == Key(chk[0]))
    {
      var numRows := |chk|;
      groupOffset := [];
      nextGroupID := 0;
      if items == 0 {
        groupOffset := groupOffset + [numRows];
        NoItemsOneGroup(chk);
        FlattenOne(chk);
        return true;
      }
      var sameGroup := ResolveGroups(chk, items);
      var firstGroupKey, lastGroupKey := Key(chk[0]), Key(chk[numRows - 1]);
      if |lastGroupKeyOfPrevChk| == 0 {
        isFirstGroupSameAsPrev := false;
      } else {
        isFirstGroupSameAsPrev := lastGroupKeyOfPrevChk == firstGroupKey;
      }
      lastGroupKeyOfPrevChk := lastGroupKey;
      var i := 1;
      assert chk[..1] == [chk[0]] && |chk[..1][1..]| == 0;
      assert Segments(chk[..1]) == [[chk[0]]];
      FlattenOne([chk[0]]);
      while i < numRows
        invariant 1 <= i <= numRows && groupOffset + [i] == Ends(Segments(chk[..i]))
        invariant nextGroupID == 0 && lastGroupKeyOfPrevChk == lastGroupKey
      {
        EndsNext(chk, i);
        if !sameGroup[i] {
          groupOffset := groupOffset + [i];
        }
        i := i + 1;
      }
      assert chk[..i] == chk;
      groupOffset := groupOffset + [numRows];
      groupCount := |groupOffset|;
    }

    method GetNextGroup(ghost chk: Chunk) returns (begin: nat, end: nat)
      requires Split(chk) && nextGroupID < |groupOffset|
      modifies this`nextGroupID
      ensures nextGroupID == old(nextGroupID) + 1
      ensures begin <= end <= |chk| && chk[begin..end] == Segments(chk)[old(nextGroupID)]
      ensures end == |chk| <==> nextGroupID == |groupOffset|
    {
      EndsCut(Segments(chk), nextGroupID);
      SegmentsFlatten(chk);
      if nextGroupID == 0 {
        begin := 0;
      } else {
        begin := groupOffset[nextGroupID - 1];
      }
      end := groupOffset[nextGroupID];
      LastEnd(Segments(chk), nextGroupID);
      nextGroupID := nextGroupID + 1;
    }

    predicate IsExhausted()
      reads this
    {
      nextGroupID >= groupCount
    }

    method Reset()
      modifies this`groupOffset
      ensures groupOffset == []
    {
      groupOffset := [];
    }
  }

  lemma LastEnd(gs: seq<Group>, k: nat)
    requires k < |gs| && forall i :: 0 <= i < |gs| ==> gs[i] != []
    ensures Ends(gs)[k] == |Flatten(gs)| <==> k == |gs| - 1
  {
    EndsAt(gs, k);
    if k < |gs| - 1 {
      var b := gs[k + 1..];
      assert gs == gs[..k + 1] + b;
      FlattenConcat(gs[..k + 1], b);
      assert b[0] == gs[k + 1] && Flatten(b) == b[0] + Flatten(b[1..]);
    } else {
      assert gs[..k + 1] == gs;
    }
  }

  // ---------- StreamAggExec ----------

  datatype Result = Of(group: Group) | Default

  function Results(gs: seq<Group>): (r: seq<Result>)
    ensures |r| == |gs|
  {
    seq(|gs|, i requires 0 <= i < |gs| => Of(gs[i]))
  }

  /** Taking the first of several groups leaves the others. */
  lemma TakeFirst(gs: seq<Group>, last: Row, cs: seq<Chunk>)
    requires Chunked(cs) && |gs| > 1
    ensures Behind(gs, last, cs) == [gs[0]] + Behind(gs[1..], last, cs)
  {
    var hs, same := ChunkGroups(cs), cs != [] && Key(last) == Key(cs[0][0]);
    if hs != [] && same {
      var rest, n := gs[1..], |gs|;
      assert gs[..n - 1] == [gs[0]] + rest[..n - 2] && rest[n - 2] == gs[n - 1];
      assert Join(rest, hs, same) == rest[..n - 2] + [gs[n - 1] + hs[0]] + hs[1..];
      assert Join(gs, hs, same) == [gs[0]] + Join(rest, hs, same);
    } else {
      assert gs + hs == [gs[0]] + (gs[1..] + hs);
    }
  }

  /** A chunk that goes on with an open group. */
  lemma Continue(acc: Group, last: Row, cs: seq<Chunk>)
    requires Chunked(cs) && cs != [] && Key(last) == Key(cs[0][0])
    ensures Behind([acc], last, cs) == Behind([acc + Segments(cs[0])[0]] + Segments(cs[0])[1..], Last(cs[0]), cs[1..])
  {
    var gs, c, ds := Segments(cs[0]), cs[0], cs[1..];
    var same := ds != [] && Key(Last(c)) == Key(ds[0][0]);
    JoinAssoc([acc], gs, ChunkGroups(ds), true, same);
    assert Join([acc], gs, true) == [acc + gs[0]] + gs[1..];
    assert ChunkGroups(cs) == Behind(gs, Last(c), ds);
    assert Behind(gs, Last(c), ds) == Join(gs, ChunkGroups(ds), same);
  }

  /** `gs` are the open group `acc`, the groups of the chunk `c` from `id` on, and those of the chunks behind. */
  ghost predicate Open(gs: seq<Group>, acc: Group, c: Chunk, id: nat, cs: seq<Chunk>, meetLastGroup: bool)
    requires Chunked(cs) && c != []
  {
    if meetLastGroup then gs == Behind([acc], Last(c), cs)
    else id < |Segments(c)| && gs == [acc] + Behind(Segments(c)[id..], Last(c), cs)
  }

  lemma OpenFirst(c: Chunk, id: nat, cs: seq<Chunk>)
    requires Chunked(cs) && c != [] && id < |Segments(c)|
    ensures Open(Behind(Segments(c)[id..], Last(c), cs), Segments(c)[id], c, id + 1, cs, id + 1 == |Segments(c)|)
  {
    var gs := Segments(c);
    if id + 1 == |gs| {
      assert gs[id..] == [gs[id]];
    } else {
      TakeFirst(gs[id..], Last(c), cs);
      assert gs[id..][1..] == gs[id + 1..];
    }
  }

  /** The open group `acc` meets the next chunk. */
  lemma NextChunk(acc: Group, last: Row, cs: seq<Chunk>)
    requires Chunked(cs) && cs != []
    ensures var gs, c, ds := Behind([acc], last, cs), cs[0], cs[1..];
            if Key(last) == Key(c[0]) then Open(gs, acc + Segments(c)[0], c, 1, ds, |Segments(c)| == 1)
            else Open(gs, acc, c, 0, ds, false)
  {
    var gs, c, ds := Segments(cs[0]), cs[0], cs[1..];
    if Key(last) == Key(c[0]) {
      Continue(acc, last, cs);
      var hs := [acc + gs[0]] + gs[1..];
      if |gs| == 1 {
        assert hs == [acc + gs[0]];
      } else {
        TakeFirst(hs, Last(c), ds);
        assert hs[1..] == gs[1..];
      }
    } else {
      assert gs[0..] == gs;
      assert ChunkGroups(cs) == Behind(gs, Last(c), ds);
    }
  }

  lemma Accounted(chk: seq<Result>, g: Group, gs: seq<Group>)
    ensures (chk + [Of(g)]) + Results(gs) == chk + Results([g] + gs)
  {
    ResultsFront(g, gs);
    assert (chk + [Of(g)]) + Results(gs) == chk + ([Of(g)] + Results(gs));
  }

  lemma NoMore(acc: Group, last: Row)
    ensures Behind([acc], last, []) == [acc]
  {
  }

  lemma ResultsFront(g: Group, gs: seq<Group>)
    ensures Results([g] + gs) == [Of(g)] + Results(gs)
  {
  }

  lemma ConcatAssoc<T>(a: seq<T>, b: seq<T>, c: seq<T>)
    ensures (a + b) + c == a + (b + c)
  {
  }

  lemma SomethingBehind(gs: seq<Group>, last: Row, cs: seq<Chunk>)
    requires Chunked(cs) && gs != []
    ensures Behind(gs, last, cs) != []
  {
  }

  method AppendRows(rows: seq<Row>, chk: Chunk, begin: nat, end: nat) returns (r: seq<Row>)
    requires begin <= end <= |chk|
    ensures r == rows + chk[begin..end]
  {
    r := rows;
    var i := begin;
    while i < end
      invariant begin <= i <= end && r == rows + chk[begin..i]
    {
      r := r + [chk[i]];
      i := i + 1;
    }
  }

  class StreamAggExec {
    const groupChecker: VecGroupChecker
    const hasDefault: bool
    var child: seq<Chunk>
    var executed: bool
    var isChildReturnEmpty: bool
    var partialResult: seq<Row>
    var groupRows: seq<Row>
    var childResult: Chunk

    /** A checker that an earlier run may have used. */
    constructor (groupChecker: VecGroupChecker, hasDefault: bool, child: seq<Chunk>)
      requires Chunked(child) && (forall i :: 0 <= i < |child| ==> Wide(child[i], groupChecker.items))
      requires groupChecker.IsExhausted() && (groupChecker.items == 0 ==> groupChecker.groupCount == 0)
      ensures this.groupChecker == groupChecker && this.hasDefault == hasDefault
      ensures Valid() && !executed && Pending() == Expected(hasDefault, child)
    {
      this.groupChecker, this.hasDefault, this.child := groupChecker, hasDefault, child;
      executed, isChildReturnEmpty, partialResult, groupRows, childResult := false, true, [], [], [];
    }

    ghost predicate Input()
      reads this
    {
      Chunked(child) && forall i :: 0 <= i < |child| ==> Wide(child[i], groupChecker.items)
    }

    /** Between two calls: nothing fetched yet, or some group of the fetched chunk not yet taken. */
    ghost predicate Valid()
      reads this, groupChecker
    {
      && Input()
      && (!executed ==> groupRows == [] && partialResult == [])
      && (executed || isChildReturnEmpty ==> groupChecker.IsExhausted())
      && (!executed && !isChildReturnEmpty ==>
            Taking() && groupChecker.items > 0 && groupChecker.nextGroupID < |groupChecker.groupOffset|)
      && (groupChecker.items == 0 ==> groupChecker.groupCount == 0)
    }

    ghost predicate Taking()
      reads this, groupChecker
    {
      && childResult != [] && Wide(childResult, groupChecker.items) && groupChecker.Split(childResult)
      && (groupChecker.items > 0 ==> groupChecker.lastGroupKeyOfPrevChk == Key(Last(childResult)))
    }

    /** The results still to come. */
    ghost function Pending(): seq<Result>
      requires Valid()
      reads this, groupChecker
    {
      if executed then []
      else if isChildReturnEmpty then Expected(hasDefault, child)
      else Results(Behind(Segments(childResult)[groupChecker.nextGroupID..], Last(childResult), child))
    }

    method ConsumeGroupRows()
      modifies this
      ensures partialResult == old(partialResult) + old(groupRows) && groupRows == []
      ensures unchanged(`child) && unchanged(`executed) && unchanged(`isChildReturnEmpty) && unchanged(`childResult)
    {
      if |groupRows| == 0 {
        return;
      }
      partialResult := partialResult + groupRows;
      groupRows := [];
    }

    method AppendResult2Chunk(chk: seq<Result>) returns (r: seq<Result>)
      modifies this`partialResult
      ensures r == chk + [Of(old(partialResult))] && partialResult == []
    {
      r := chk + [Of(partialResult)];
      partialResult := [];
    }

    method ConsumeCurGroupRowsAndFetchChild(chk: seq<Result>) returns (r: seq<Result>)
      requires Input() && !executed
      modifies this
      ensures Input() && (executed <==> old(child) == [])
      ensures executed ==>
                r == chk + if !old(isChildReturnEmpty) then [Of(old(partialResult + groupRows))] else if hasDefault then [Default] else []
      ensures !executed ==>
                && r == chk && !isChildReturnEmpty && childResult == old(child)[0] && child == old(child)[1..]
                && partialResult == old(partialResult + groupRows) && groupRows == []
    {
      r := chk;
      ConsumeGroupRows();
      if child == [] {
        if !isChildReturnEmpty {
          r := AppendResult2Chunk(r);
        } else if hasDefault {
          r := r + [Default];
        }
        executed := true;
        return;
      }
      childResult, child := child[0], child[1..];
      isChildReturnEmpty := false;
    }

    /** The rows of the next group of the chunk join the open group. */
    method TakeGroup() returns (meetLastGroup: bool)
      requires Taking() && groupChecker.nextGroupID < |groupChecker.groupOffset|
      modifies this`groupRows, groupChecker`nextGroupID
      ensures Taking() && groupChecker.nextGroupID == old(groupChecker.nextGroupID) + 1
      ensures groupRows == old(groupRows) + Segments(childResult)[old(groupChecker.nextGroupID)]
      ensures meetLastGroup <==> groupChecker.nextGroupID == |Segments(childResult)|
    {
      var begin, end := groupChecker.GetNextGroup(childResult);
      groupRows := AppendRows(groupRows, childResult, begin, end);
      meetLastGroup := end == |childResult|;
    }

    /** `gs` are the open group and the groups behind it. */
    ghost predicate Left(gs: seq<Group>, meetLastGroup: bool)
      reads this, groupChecker
    {
      && Input() && !executed && !isChildReturnEmpty && Taking() && (groupChecker.items == 0 ==> groupChecker.groupCount == 0)
      && (if meetLastGroup then groupChecker.nextGroupID == |groupChecker.groupOffset| else groupChecker.items > 0)
      && Open(gs, partialResult + groupRows, childResult, groupChecker.nextGroupID, child, meetLastGroup)
    }

    /** The groups still to come. */
    ghost function Groups(): seq<Group>
      requires Valid() && !executed
      reads this, groupChecker
    {
      if isChildReturnEmpty then ChunkGroups(child)
      else Behind(Segments(childResult)[groupChecker.nextGroupID..], Last(childResult), child)
    }

    /** The first group is opened; the chunk may end with it. */
    method OpenGroup(ghost gs: seq<Group>) returns (meetLastGroup: bool)
      requires Input() && !executed && !isChildReturnEmpty && Taking() && groupChecker.nextGroupID < |groupChecker.groupOffset|
      requires (groupChecker.items == 0 ==> groupChecker.groupCount == 0) && partialResult == [] && groupRows == []
      requires gs == Behind(Segments(childResult)[groupChecker.nextGroupID..], Last(childResult), child)
      modifies this`groupRows, groupChecker`nextGroupID
      ensures Left(gs, meetLastGroup)
    {
      OpenFirst(childResult, groupChecker.nextGroupID, child);
      if groupChecker.items == 0 { NoItemsOneGroup(childResult); }
      meetLastGroup := TakeGroup();
      assert partialResult + groupRows == Segments(childResult)[groupChecker.nextGroupID - 1];
    }

    /** The chunk behind the row `last` is split. */
    method SplitNext(ghost last: Row) returns (isFirstGroupSameAsPrev: bool)
      requires childResult != [] && Wide(childResult, groupChecker.items) && |last| == groupChecker.items
      requires groupChecker.items > 0 ==> groupChecker.lastGroupKeyOfPrevChk == Key(last)
      modifies groupChecker
      ensures Taking() && groupChecker.nextGroupID == 0 && |groupChecker.groupOffset| == |Segments(childResult)| > 0
      ensures isFirstGroupSameAsPrev <==> Key(last) == Key(childResult[0])
      ensures groupChecker.items == 0 ==> groupChecker.groupCount == old(groupChecker.groupCount) && |Segments(childResult)| == 1
    {
      if groupChecker.items == 0 { NoItemsOneGroup(childResult); }
      isFirstGroupSameAsPrev := groupChecker.SplitIntoGroups(childResult);
    }

    /** A chunk has been fetched while `acc` was open: it goes on with the group or not. */
    method ContinueGroup(ghost gs: seq<Group>, ghost acc: Group, ghost last: Row) returns (meetLastGroup: bool)
      requires Input() && !executed && !isChildReturnEmpty && (groupChecker.items == 0 ==> groupChecker.groupCount == 0)
      requires childResult != [] && Wide(childResult, groupChecker.items) && |last| == groupChecker.items
      requires groupChecker.items > 0 ==> groupChecker.lastGroupKeyOfPrevChk == Key(last)
      requires partialResult == acc && groupRows == []
      requires Key(last) == Key(childResult[0]) ==>
                 Open(gs, acc + Segments(childResult)[0], childResult, 1, child, |Segments(childResult)| == 1)
      requires Key(last) != Key(childResult[0]) ==> Open(gs, acc, childResult, 0, child, false)
      modifies this`groupRows, groupChecker
      ensures Left(gs, meetLastGroup)
    {
      var isFirstGroupSameAsPrev := SplitNext(last);
      if isFirstGroupSameAsPrev {
        meetLastGroup := TakeGroup();
        assert partialResult + groupRows == acc + Segments(childResult)[0];
      } else {
        meetLastGroup := false;
        assert partialResult + groupRows == acc;
      }
    }

    /** The open group ends with its chunk. */
    method NextChunkOfGroup(ghost gs: seq<Group>, chk: seq<Result>) returns (r: seq<Result>, meetLastGroup: bool)
      requires Left(gs, true)
      modifies this, groupChecker
      ensures Input() && (groupChecker.items == 0 ==> groupChecker.groupCount == 0)
      ensures executed ==> |gs| == 1 && r == chk + [Of(gs[0])] && groupChecker.IsExhausted()
      ensures !executed ==> Left(gs, meetLastGroup) && r == chk && |child| < |old(child)|
    {
      ghost var acc, last, cs := partialResult + groupRows, Last(childResult), child;
      meetLastGroup := false;
      r := ConsumeCurGroupRowsAndFetchChild(chk);
      if executed {
        NoMore(acc, last);
      } else {
        NextChunk(acc, last, cs);
        meetLastGroup := ContinueGroup(gs, acc, last);
      }
    }

    /** The open group is finished, and others follow. */
    method FinishGroup(ghost gs: seq<Group>, chk: seq<Result>) returns (r: seq<Result>)
      requires Left(gs, false)
      modifies this
      ensures Valid() && !executed && !isChildReturnEmpty && Groups() != []
      ensures gs != [] && r == chk + [Of(gs[0])] && gs == [gs[0]] + Groups()
    {
      SomethingBehind(Segments(childResult)[groupChecker.nextGroupID..], Last(childResult), child);
      ConsumeGroupRows();
      r := AppendResult2Chunk(chk);
    }

    /** One group, from its first rows to the result. */
    method ConsumeGroup(ghost gs: seq<Group>, chk: seq<Result>) returns (r: seq<Result>)
      requires Input() && !executed && !isChildReturnEmpty && Taking() && groupChecker.nextGroupID < |groupChecker.groupOffset|
      requires (groupChecker.items == 0 ==> groupChecker.groupCount == 0) && partialResult == [] && groupRows == []
      requires gs == Behind(Segments(childResult)[groupChecker.nextGroupID..], Last(childResult), child)
      modifies this, groupChecker
      ensures Valid() && gs != [] && r == chk + [Of(gs[0])]
      ensures if executed then |gs| == 1 else !isChildReturnEmpty && Groups() != [] && gs == [gs[0]] + Groups()
    {
      r := chk;
      var meetLastGroup := OpenGroup(gs);
      while meetLastGroup
        invariant Left(gs, meetLastGroup) && r == chk
        decreases |child|, meetLastGroup
      {
        r, meetLastGroup := NextChunkOfGroup(gs, r);
        if executed {
          return;
        }
      }
      r := FinishGroup(gs, r);
    }

    /** The first chunk, if there is one. */
    method FetchFirst(chk: seq<Result>) returns (r: seq<Result>)
      requires Valid() && !executed && isChildReturnEmpty
      modifies this, groupChecker
      ensures Input() && (groupChecker.items == 0 ==> groupChecker.groupCount == 0)
      ensures executed ==> r == chk + Expected(hasDefault, old(child)) && old(child) == [] && groupChecker.IsExhausted()
      ensures !executed ==>
                && r == chk && !isChildReturnEmpty && Taking() && groupChecker.nextGroupID == 0 && partialResult == [] && groupRows == []
                && old(child) != [] && childResult == old(child)[0] && child == old(child)[1..]
    {
      r := ConsumeCurGroupRowsAndFetchChild(chk);
      if !executed {
        var _ := groupChecker.SplitIntoGroups(childResult);
      }
    }

    method ConsumeOneGroup(chk: seq<Result>) returns (r: seq<Result>)
      requires Valid() && !executed
      modifies this, groupChecker
      ensures Valid() && (executed <==> Pending() == [])
      ensures r + Pending() == chk + old(Pending())
      ensures |r| <= |chk| + 1 && (executed || (|r| == |chk| + 1 && !isChildReturnEmpty))
    {
      r := chk;
      ghost var gs, pending := Groups(), Pending();
      if groupChecker.IsExhausted() {
        r := FetchFirst(r);
        if executed {
          return;
        }
        assert Segments(childResult)[0..] == Segments(childResult);
      }
      r := ConsumeGroup(gs, r);
      assert pending == Results(gs);
      if executed {
        assert gs == [gs[0]] + [];
        Accounted(chk, gs[0], []);
      } else {
        Accounted(chk, gs[0], Groups());
      }
    }

    /** One call fills the result up to its capacity, or says that there is no more. */
    method Next(capacity: nat) returns (req: seq<Result>)
      requires Valid() && (executed ==> Pending() == [])
      modifies this, groupChecker
      ensures Valid() && req + Pending() == old(Pending()) && |req| <= capacity
      ensures executed || (|req| == capacity && (capacity > 0 ==> !isChildReturnEmpty))
    {
      req := [];
      while !executed && |req| < capacity
        invariant Valid() && req + Pending() == old(Pending()) && |req| <= capacity
        invariant req != [] && !executed ==> !isChildReturnEmpty
        decreases capacity - |req|, !executed
      {
        req := ConsumeOneGroup(req);
      }
    }

    /** Calls until the end give every pending result once, in order, whatever the capacities. */
    method Drain(capacity: nat -> nat) returns (out: seq<Result>)
      requires Valid() && forall i :: capacity(i) > 0
      modifies this, groupChecker
      ensures Valid() && executed && out == old(Pending())
    {
      out := [];
      ghost var all, rest := Pending(), Pending();
      var i := 0;
      while !executed
        invariant Valid() && rest == Pending() && out + rest == all
        decreases |rest|, !executed
      {
        var req := Next(capacity(i));
        ConcatAssoc(out, req, Pending());
        rest := Pending();
        out := out + req;
        i := i + 1;
      }
    }

    /**
      Closing resets the checker, but not its counts. So it can serve another run if and only if
      this one came to its end or never began; otherwise the first group asked of it is out of range.
     */
    method Close()
      requires Valid()
      modifies this, groupChecker
      ensures groupChecker.IsExhausted() <==> old(executed || isChildReturnEmpty)
      ensures !groupChecker.IsExhausted() ==> groupChecker.nextGroupID >= |groupChecker.groupOffset|
    {
      childResult := [];
      groupChecker.Reset();
    }
  }

  /** One result for each group, and the default result, if there is one, for an empty input. */
  ghost function Expected(hasDefault: bool, cs: seq<Chunk>): seq<Result>
    requires Chunked(cs)
  {
    if cs == [] then if hasDefault then [Default] else [] else Results(ChunkGroups(cs))
  }

  /**
    The results are those of the groups of all rows, however they were cut into chunks, if and only if the keys are
    faithful; without rows there is no group, and the default result if there is one.
   */
  lemma ResultsAreGroups(hasDefault: bool, cs: seq<Chunk>)
    requires Chunked(cs)
    ensures var rows := Flatten(cs);
            Expected(hasDefault, cs) == (if rows == [] && hasDefault then [Default] else Results(Segments(rows))) <==> Faithful(cs)
  {
    ChunkingIsIrrelevant(cs);
    assert cs != [] ==> Flatten(cs) == cs[0] + Flatten(cs[1..]);
    var gs, hs := ChunkGroups(cs), Segments(Flatten(cs));
    if Results(gs) == Results(hs) {
      assert |Results(gs)| == |gs| && |Results(hs)| == |hs|;
      forall i | 0 <= i < |gs| ensures gs[i] == hs[i] {
        assert Results(gs)[i] == Of(gs[i]) && Results(hs)[i] == Of(hs[i]);
      }
    }
  }

  /** Two rows, two groups, one taken before the close: the next run would ask for a group that is not there. */
  method CloseEarly() returns (checker: VecGroupChecker)
    ensures fresh(checker) && !checker.IsExhausted() && checker.nextGroupID >= |checker.groupOffset|
  {
    var a, b := [Value(false, 1)], [Value(false, 2)];
    checker := new VecGroupChecker(1);
    assert !SameValue(a[0], b[0]);
    TwoGroups(a, b);
    var agg := new StreamAggExec(checker, false, [[a, b]]);
    ghost var all := agg.Pending();
    var req := agg.Next(1);
    assert |req + agg.Pending()| == 2;
    agg.Close();
  }

  lemma TwoGroups(a: Row, b: Row)
    requires |a| == |b| == 1 && !Same(a, b)
    ensures Chunked([[a, b]]) && |Expected(false, [[a, b]])| == 2
  {
    var cs: seq<Chunk> := [[a, b]];
    assert [a, b][1..] == [b] && [b][1..] == [];
    assert Segments([b]) == [[b]];
    assert |Segments([a, b])| == 2;
    assert cs[1..] == [] && ChunkGroups([]) == [];
    assert ChunkGroups(cs) == Segments([a, b]) + [];
  }
}
