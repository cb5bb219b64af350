/**
  The column list of a table and the offsets that its indexes keep into it: the reorders of
  add, drop and modify column, and the add and drop column jobs that use them.
 */
module Columns {
  import opened SchemaStates

  datatype Column = Column(id: int, name: string, offset: int, state: SchemaState)

  datatype IndexColumn = IndexColumn(name: string, offset: int)

  type Index = seq<IndexColumn>

  datatype Table = Table(cols: seq<Column>, indices: seq<Index>)

  // ---------- well-formed tables ----------

  predicate Numbered(cols: seq<Column>) {
    forall i :: 0 <= i < |cols| ==> cols[i].offset == i
  }

  ghost predicate UniqueNames(cols: seq<Column>) {
    forall i, j :: 0 <= i < j < |cols| ==> cols[i].name != cols[j].name
  }

  predicate PointsTo(cols: seq<Column>, c: IndexColumn) {
    0 <= c.offset < |cols| && cols[c.offset].name == c.name
  }

  ghost predicate IndexOk(cols: seq<Column>, ix: Index) {
    forall j :: 0 <= j < |ix| ==> PointsTo(cols, ix[j])
  }

  /** Offsets number the columns, and every index column leads to the column of its name. */
  ghost predicate WellFormed(t: Table) {
    && Numbered(t.cols) && UniqueNames(t.cols)
    && forall i :: 0 <= i < |t.indices| ==> IndexOk(t.cols, t.indices[i])
  }

  /** Some index covers the column at an offset. */
  ghost predicate Indexed(t: Table, o: int) {
    exists i, j :: 0 <= i < |t.indices| && 0 <= j < |t.indices[i]| && t.indices[i][j].offset == o
  }

  // ---------- reorders as functions ----------

  /** Where the column at offset `o` goes when the one at `from` moves to `to`. */
  function Shift(from: int, to: int, o: int): int {
    if o == from then to else if to <= o < from then o + 1 else if from < o <= to then o - 1 else o
  }

  /** The update of index offsets in add and drop column: the moved column is left out. */
  function Skip(from: int, to: int, o: int): int {
    if o == from then o else Shift(from, to, o)
  }

  function ShiftColumns(cols: seq<Column>, from: nat, to: nat): (r: seq<Column>)
    requires from < |cols| && to < |cols|
    ensures |r| == |cols|
  {
    seq(|cols|, i requires 0 <= i < |cols| => cols[Shift(to, from, i)].(offset := i))
  }

  function SkipOffsets(ix: Index, from: int, to: int): (r: Index)
    ensures |r| == |ix|
  {
    seq(|ix|, j requires 0 <= j < |ix| => ix[j].(offset := Skip(from, to, ix[j].offset)))
  }

  function SkipAll(indices: seq<Index>, from: int, to: int): (r: seq<Index>)
    ensures |r| == |indices|
  {
    seq(|indices|, i requires 0 <= i < |indices| => SkipOffsets(indices[i], from, to))
  }

  /** The column at `from` moves to `to`, the columns it passes make room, their index offsets follow. */
  function Reorder(t: Table, from: nat, to: nat): Table
    requires from < |t.cols| && to < |t.cols|
  {
    Table(ShiftColumns(t.cols, from, to), SkipAll(t.indices, from, to))
  }

  lemma ShiftedNames(t: Table, from: nat, to: nat)
    requires UniqueNames(t.cols) && from < |t.cols| && to < |t.cols|
    ensures UniqueNames(ShiftColumns(t.cols, from, to))
  {
    var cols := ShiftColumns(t.cols, from, to);
    forall i, j | 0 <= i < j < |cols| ensures cols[i].name != cols[j].name {
      var x, y := Shift(to, from, i), Shift(to, from, j);
      assert x < y || y < x;
    }
  }

  /** A reorder keeps the index offsets right exactly when no index covers the moved column or it stays. */
  lemma ReorderKeeps(t: Table, from: nat, to: nat)
    requires WellFormed(t) && from < |t.cols| && to < |t.cols|
    ensures WellFormed(Reorder(t, from, to)) <==> from == to || !Indexed(t, from)
  {
    var t' := Reorder(t, from, to);
    ShiftedNames(t, from, to);
    if from == to || !Indexed(t, from) {
      forall i, j | 0 <= i < |t'.indices| && 0 <= j < |t'.indices[i]| ensures PointsTo(t'.cols, t'.indices[i][j]) {
        assert IndexOk(t.cols, t.indices[i]) && PointsTo(t.cols, t.indices[i][j]);
        var o := t.indices[i][j].offset;
        assert Indexed(t, o) && Shift(to, from, Shift(from, to, o)) == o;
      }
    } else {
      var i, j :| 0 <= i < |t.indices| && 0 <= j < |t.indices[i]| && t.indices[i][j].offset == from;
      assert IndexOk(t.cols, t.indices[i]) && PointsTo(t.cols, t.indices[i][j]);
      assert t'.cols[to].name == t.cols[from].name && t'.indices[i][j] == t.indices[i][j];
      assert !PointsTo(t'.cols, t'.indices[i][j]);
      assert !IndexOk(t'.cols, t'.indices[i]);
    }
  }

  /** An index on the first of two columns leads to the other one once they change places. */
  lemma ReorderBreaks()
    ensures var t := Table([Column(1, "a", 0, Public), Column(2, "b", 1, Public)], [[IndexColumn("a", 0)]]);
            WellFormed(t) && !WellFormed(Reorder(t, 0, 1)) && Reorder(t, 0, 1).cols[0].name == "b"
  {
    var t := Table([Column(1, "a", 0, Public), Column(2, "b", 1, Public)], [[IndexColumn("a", 0)]]);
    assert t.cols[0].name == "a" && t.cols[1].name == "b";
    assert t.indices[0][0].offset == 0;
    assert Indexed(t, 0);
    ReorderKeeps(t, 0, 1);
  }

  /** A reorder and its opposite are the identity exactly when no index covers the moved column or it stays. */
  lemma ReorderAndBack(t: Table, from: nat, to: nat)
    requires WellFormed(t) && from < |t.cols| && to < |t.cols|
    ensures Reorder(Reorder(t, from, to), to, from) == t <==> from == to || !Indexed(t, from)
  {
    var t' := Reorder(Reorder(t, from, to), to, from);
    assert t'.cols == t.cols;
    if from == to || !Indexed(t, from) {
      forall i | 0 <= i < |t.indices| ensures t'.indices[i] == t.indices[i] {
        assert IndexOk(t.cols, t.indices[i]);
        forall j | 0 <= j < |t.indices[i]| ensures t'.indices[i][j] == t.indices[i][j] {
          assert PointsTo(t.cols, t.indices[i][j]) && Indexed(t, t.indices[i][j].offset);
        }
      }
      assert t'.indices == t.indices;
    } else {
      var i, j :| 0 <= i < |t.indices| && 0 <= j < |t.indices[i]| && t.indices[i][j].offset == from;
      assert t'.indices[i][j].offset != from;
    }
  }

  // ---------- modify column ----------

  function Replaced(cols: seq<Column>, from: nat, to: nat, newCol: Column): seq<Column>
    requires from < |cols| && to < |cols|
  {
    ShiftColumns(cols, from, to)[to := newCol.(offset := to)]
  }

  ghost predicate FollowsColumn(ix: Index, r: Index, cols: seq<Column>, from: nat, to: nat) {
    && |r| == |ix|
    && forall j :: 0 <= j < |ix| ==>
        var o := Shift(from, to, ix[j].offset); 0 <= o < |cols| && r[j] == IndexColumn(cols[o].name, o)
  }

  lemma ReplacedNames(cols: seq<Column>, from: nat, to: nat, newCol: Column)
    requires UniqueNames(cols) && from < |cols| && to < |cols|
    requires forall i :: 0 <= i < |cols| && i != from ==> cols[i].name != newCol.name
    ensures UniqueNames(Replaced(cols, from, to, newCol))
  {
    var r := Replaced(cols, from, to, newCol);
    forall i, j | 0 <= i < j < |r| ensures r[i].name != r[j].name {
      var x, y := Shift(to, from, i), Shift(to, from, j);
      assert x < y || y < x;
      assert (i != to ==> r[i].name == cols[x].name) && (j != to ==> r[j].name == cols[y].name);
    }
  }

  /** The table after a modify column: the new column is in place, and index columns follow name and all. */
  ghost predicate Modified(t: Table, from: nat, to: nat, newCol: Column, t': Table)
    requires from < |t.cols| && to < |t.cols|
  {
    && t'.cols == Replaced(t.cols, from, to, newCol)
    && |t'.indices| == |t.indices|
    && forall i :: 0 <= i < |t.indices| ==> FollowsColumn(t.indices[i], t'.indices[i], t'.cols, from, to)
  }

  /** Modifying a column keeps the table well formed and every index column on the same logical column. */
  lemma ModifyKeeps(t: Table, from: nat, to: nat, newCol: Column, t': Table)
    requires WellFormed(t) && from < |t.cols| && to < |t.cols| && Modified(t, from, to, newCol, t')
    requires newCol.id == t.cols[from].id && forall i :: 0 <= i < |t.cols| && i != from ==> t.cols[i].name != newCol.name
    ensures WellFormed(t')
    ensures forall i, j :: 0 <= i < |t.indices| && 0 <= j < |t.indices[i]| ==>
              && 0 <= t'.indices[i][j].offset < |t'.cols| && 0 <= t.indices[i][j].offset < |t.cols|
              && t'.cols[t'.indices[i][j].offset].id == t.cols[t.indices[i][j].offset].id
  {
    ReplacedNames(t.cols, from, to, newCol);
    forall i, j | 0 <= i < |t.indices| && 0 <= j < |t.indices[i]|
      ensures && 0 <= t'.indices[i][j].offset < |t'.cols| && 0 <= t.indices[i][j].offset < |t.cols|
              && t'.cols[t'.indices[i][j].offset].id == t.cols[t.indices[i][j].offset].id
              && PointsTo(t'.cols, t'.indices[i][j])
    {
      assert IndexOk(t.cols, t.indices[i]) && PointsTo(t.cols, t.indices[i][j]);
    }
  }

  // ---------- the code ----------

  datatype Position = Default | First | After(name: string)

  datatype Outcome = Done | Cancelled | Rollingback

  /** model.FindColumnInfo: the position of the column with a name, or -1. */
  method FindColumnInfo(cols: seq<Column>, name: string) returns (i: int)
    ensures -1 <= i < |cols|
    ensures i >= 0 ==> cols[i].name == name
    ensures i == -1 ==> forall k :: 0 <= k < |cols| ==> cols[k].name != name
  {
    i := 0;
    while i < |cols|
      invariant 0 <= i <= |cols| && forall k :: 0 <= k < i ==> cols[k].name != name
    {
      if cols[i].name == name { return; }
      i := i + 1;
    }
    i := -1;
  }

  /** The changed offsets of a move, as a map. */
  ghost predicate Changes(offsetChanged: map<int, int>, from: int, to: int) {
    forall o :: (if o in offsetChanged then offsetChanged[o] else o) == Skip(from, to, o)
  }

  method UpdateIndex(index: Index, offsetChanged: map<int, int>, ghost from: int, ghost to: int) returns (r: Index)
    requires Changes(offsetChanged, from, to)
    ensures r == SkipOffsets(index, from, to)
  {
    r := [];
    var j := 0;
    while j < |index|
      invariant 0 <= j <= |index| && r == SkipOffsets(index, from, to)[..j]
    {
      var col := index[j];
      if col.offset in offsetChanged {
        col := col.(offset := offsetChanged[col.offset]);
      }
      r := r + [col];
      j := j + 1;
    }
  }

  /** The loop over all index columns with the map of changed offsets. */
  method UpdateIndices(indices: seq<Index>, offsetChanged: map<int, int>, ghost from: int, ghost to: int)
    returns (r: seq<Index>)
    requires Changes(offsetChanged, from, to)
    ensures r == SkipAll(indices, from, to)
  {
    r := [];
    var i := 0;
    while i < |indices|
      invariant 0 <= i <= |indices| && r == SkipAll(indices, from, to)[..i]
    {
      var ix := UpdateIndex(indices[i], offsetChanged, from, to);
      r := r + [ix];
      i := i + 1;
    }
  }

  /** The last column goes to `k`: the new list, and the offsets that changed on the way. */
  method MoveLastTo(cols: seq<Column>, k: nat) returns (r: seq<Column>, offsetChanged: map<int, int>)
    requires k < |cols| && Numbered(cols)
    ensures r == ShiftColumns(cols, |cols| - 1, k) && Changes(offsetChanged, |cols| - 1, k)
  {
    var n := |cols|;
    r, offsetChanged := cols[..k] + [cols[n - 1]] + cols[k..n - 1], map[];
    ghost var moved := r;
    var i := k + 1;
    while i < n
      invariant k < i <= n == |r|
      invariant forall j :: 0 <= j < n ==> r[j] == if k < j < i then moved[j].(offset := j) else moved[j]
      invariant forall o :: o in offsetChanged <==> k <= o < i - 1
      invariant forall o :: o in offsetChanged ==> offsetChanged[o] == o + 1
    {
      offsetChanged := offsetChanged[r[i].offset := i];
      r := r[i := r[i].(offset := i)];
      i := i + 1;
    }
    r := r[k := r[k].(offset := k)];
  }

  /** The column at `k` goes to the end: the offsets of all, and those that changed on the way. */
  method LowerBehind(cols: seq<Column>, k: nat) returns (r: seq<Column>, offsetChanged: map<int, int>)
    requires k < |cols| && Numbered(cols)
    ensures Lowered(cols, r, k) && Changes(offsetChanged, k, |cols| - 1)
  {
    r, offsetChanged := cols, map[];
    var i := k + 1;
    while i < |cols|
      invariant k < i <= |cols| == |r|
      invariant forall j :: 0 <= j < |cols| ==> r[j] == if k < j < i then cols[j].(offset := j - 1) else cols[j]
      invariant forall o :: o in offsetChanged <==> k < o < i
      invariant forall o :: o in offsetChanged ==> offsetChanged[o] == o - 1
    {
      offsetChanged := offsetChanged[r[i].offset := i - 1];
      r := r[i := r[i].(offset := i - 1)];
      i := i + 1;
    }
    r := r[k := r[k].(offset := |cols| - 1)];
  }

  ghost predicate Lowered(cols: seq<Column>, r: seq<Column>, k: nat)
    requires k < |cols|
  {
    && |r| == |cols|
    && forall i :: 0 <= i < |cols| ==> r[i] == cols[i].(offset := if i < k then i else if i == k then |cols| - 1 else i - 1)
  }

  lemma LoweredColumns(cols: seq<Column>, r: seq<Column>, k: nat)
    requires k < |cols| && Numbered(cols) && Lowered(cols, r, k)
    ensures r[..k] + r[k + 1..] + [r[k]] == ShiftColumns(cols, k, |cols| - 1)
  {
    var s, c := r[..k] + r[k + 1..] + [r[k]], ShiftColumns(cols, k, |cols| - 1);
    forall i | 0 <= i < |cols| ensures s[i] == c[i] {
      assert s[i] == if i < k then r[i] else if i < |cols| - 1 then r[i + 1] else r[k];
    }
  }

  method MoveToLast(cols: seq<Column>, k: nat) returns (r: seq<Column>, offsetChanged: map<int, int>)
    requires k < |cols| && Numbered(cols)
    ensures r == ShiftColumns(cols, k, |cols| - 1) && Changes(offsetChanged, k, |cols| - 1)
  {
    var oldCols;
    oldCols, offsetChanged := LowerBehind(cols, k);
    LoweredColumns(cols, oldCols, k);
    r := oldCols[..k] + oldCols[k + 1..] + [oldCols[k]];
  }

  ghost predicate HasName(cols: seq<Column>, name: string) {
    exists i :: 0 <= i < |cols| && cols[i].name == name
  }

  ghost predicate IsPublic(cols: seq<Column>, name: string) {
    exists i :: 0 <= i < |cols| && cols[i].name == name && cols[i].state == Public
  }

  /** Every index column finds in the map of changed names where its column went, if it went anywhere. */
  ghost predicate Tracks(cols: seq<Column>, from: nat, to: nat, changed: map<string, nat>) {
    forall o :: 0 <= o < |cols| ==>
      var name := cols[o].name;
      if name in changed then changed[name] == Shift(from, to, o) else o != from && Shift(from, to, o) == o
  }

  method MoveAndReplace(oldCols: seq<Column>, oldPos: nat, newPos: nat, newCol: Column)
    returns (cols: seq<Column>, columnChanged: map<string, nat>)
    requires Numbered(oldCols) && UniqueNames(oldCols) && oldPos < |oldCols| && newPos < |oldCols|
    requires forall i :: 0 <= i < |oldCols| && i != oldPos ==> oldCols[i].name != newCol.name
    ensures cols == Replaced(oldCols, oldPos, newPos, newCol) && Tracks(oldCols, oldPos, newPos, columnChanged)
  {
    columnChanged := map[oldCols[oldPos].name := newPos];
    if newPos == oldPos {
      cols := oldCols[newPos := newCol.(offset := oldPos)];
      assert cols == Replaced(oldCols, oldPos, newPos, newCol);
    } else {
      cols := CopyInPlace(oldCols, oldPos, newPos, newCol);
      ReplacedNames(oldCols, oldPos, newPos, newCol);
      cols, columnChanged := SetOffsets(cols, columnChanged, Replaced(oldCols, oldPos, newPos, newCol), newPos, oldPos);
      TracksMoved(oldCols, oldPos, newPos, newCol, columnChanged);
    }
  }

  method CopyInPlace(oldCols: seq<Column>, oldPos: nat, newPos: nat, newCol: Column) returns (cols: seq<Column>)
    requires Numbered(oldCols) && oldPos < |oldCols| && newPos < |oldCols| && oldPos != newPos
    ensures |cols| == |oldCols|
    ensures forall i :: 0 <= i < |cols| ==>
              cols[i] == Replaced(oldCols, oldPos, newPos, newCol)[i].(offset := Shift(newPos, oldPos, i))
  {
    if newPos < oldPos {
      cols := oldCols[..newPos + 1] + oldCols[newPos..oldPos] + oldCols[oldPos + 1..];
    } else {
      cols := oldCols[..oldPos] + oldCols[oldPos + 1..newPos + 1] + oldCols[newPos..];
    }
    cols := cols[newPos := newCol.(offset := oldPos)];
  }

  method SetOffsets(moved: seq<Column>, changed0: map<string, nat>, ghost target: seq<Column>, ghost to: nat, ghost from: nat)
    returns (cols: seq<Column>, changed: map<string, nat>)
    requires |moved| == |target| && Numbered(target) && UniqueNames(target)
    requires forall i :: 0 <= i < |moved| ==> moved[i] == target[i].(offset := Shift(to, from, i))
    requires forall n, i :: n in changed0 && 0 <= i < |target| && target[i].name == n ==> changed0[n] == i
    ensures cols == target
    ensures forall n :: n in changed0 ==> n in changed && changed[n] == changed0[n]
    ensures forall j :: 0 <= j < |target| && Shift(to, from, j) != j ==> target[j].name in changed && changed[target[j].name] == j
    ensures forall n :: n in changed ==>
              || (n in changed0 && changed[n] == changed0[n])
              || (changed[n] < |target| && Shift(to, from, changed[n]) != changed[n] && target[changed[n]].name == n)
  {
    cols, changed := moved, changed0;
    var i := 0;
    while i < |cols|
      invariant 0 <= i <= |cols| == |moved|
      invariant forall j :: 0 <= j < |cols| ==> cols[j] == if j < i then target[j] else moved[j]
      invariant forall n :: n in changed0 ==> n in changed && changed[n] == changed0[n]
      invariant forall j :: 0 <= j < i && Shift(to, from, j) != j ==> target[j].name in changed && changed[target[j].name] == j
      invariant forall n :: n in changed ==>
                  || (n in changed0 && changed[n] == changed0[n])
                  || (changed[n] < |target| && Shift(to, from, changed[n]) != changed[n] && target[changed[n]].name == n)
    {
      if cols[i].offset != i {
        changed := changed[cols[i].name := i];
        cols := cols[i := cols[i].(offset := i)];
      }
      i := i + 1;
    }
  }

  lemma TracksMoved(cols: seq<Column>, from: nat, to: nat, newCol: Column, changed: map<string, nat>)
    requires UniqueNames(cols) && from < |cols| && to < |cols|
    requires forall i :: 0 <= i < |cols| && i != from ==> cols[i].name != newCol.name
    requires var t := Replaced(cols, from, to, newCol);
             && (forall j :: 0 <= j < |t| && Shift(to, from, j) != j ==> t[j].name in changed && changed[t[j].name] == j)
             && (forall n :: n in changed ==>
                  || (n == cols[from].name && changed[n] == to)
                  || (changed[n] < |t| && Shift(to, from, changed[n]) != changed[n] && t[changed[n]].name == n))
    requires cols[from].name in changed && changed[cols[from].name] == to
    ensures Tracks(cols, from, to, changed)
  {
    var t := Replaced(cols, from, to, newCol);
    ReplacedNames(cols, from, to, newCol);
    forall o | 0 <= o < |cols| && o != from
      ensures var name := cols[o].name; if name in changed then changed[name] == Shift(from, to, o) else Shift(from, to, o) == o
    {
      var p := Shift(from, to, o);
      assert Shift(to, from, p) == o && t[p].name == cols[o].name;
      if cols[o].name in changed {
        assert cols[o].name != cols[from].name;
        assert t[changed[cols[o].name]].name == t[p].name;
      }
    }
  }

  method FollowColumns(oldCols: seq<Column>, indices: seq<Index>, cols: seq<Column>, columnChanged: map<string, nat>,
                       ghost from: nat, ghost to: nat)
    returns (r: seq<Index>)
    requires from < |oldCols| == |cols| && to < |cols| && Tracks(oldCols, from, to, columnChanged)
    requires forall o :: 0 <= o < |oldCols| && Shift(from, to, o) == o && o != from ==> cols[o].name == oldCols[o].name
    requires forall i :: 0 <= i < |indices| ==> IndexOk(oldCols, indices[i])
    ensures |r| == |indices|
    ensures forall i :: 0 <= i < |indices| ==> FollowsColumn(indices[i], r[i], cols, from, to)
  {
    r := [];
    var i := 0;
    while i < |indices|
      invariant 0 <= i <= |indices| && |r| == i
      invariant forall k :: 0 <= k < i ==> FollowsColumn(indices[k], r[k], cols, from, to)
    {
      var ix: Index := [];
      var j := 0;
      while j < |indices[i]|
        invariant 0 <= j <= |indices[i]| && |ix| == j
        invariant FollowsColumn(indices[i][..j], ix, cols, from, to)
      {
        var c := indices[i][j];
        assert PointsTo(oldCols, c);
        if c.name in columnChanged {
          var p := columnChanged[c.name];
          c := IndexColumn(cols[p].name, p);
        }
        ix := ix + [c];
        j := j + 1;
      }
      assert indices[i][..j] == indices[i];
      r := r + [ix];
      i := i + 1;
    }
  }

  /** The checks of a modify column, and the place the column gets. */
  method CheckModify(cols: seq<Column>, newCol: Column, oldName: string, pos: Position)
    returns (r: Outcome, oldPos: int, newPos: int)
    requires UniqueNames(cols)
    ensures r.Cancelled? <==> !IsPublic(cols, oldName) || (newCol.name != oldName && HasName(cols, newCol.name))
    ensures r.Rollingback? <==> !r.Cancelled? && pos.After? && (pos.name == oldName || !IsPublic(cols, pos.name))
    ensures r.Done? ==>
              && 0 <= oldPos < |cols| && 0 <= newPos < |cols| && cols[oldPos].name == oldName
              && (forall i :: 0 <= i < |cols| && i != oldPos ==> cols[i].name != newCol.name)
              && (pos.Default? ==> newPos == oldPos) && (pos.First? ==> newPos == 0)
              && (pos.After? ==> newPos > 0 && Replaced(cols, oldPos, newPos, newCol)[newPos - 1].name == pos.name)
  {
    oldPos := FindColumnInfo(cols, oldName);
    newPos := oldPos;
    if oldPos < 0 || cols[oldPos].state != Public {
      return Cancelled, oldPos, newPos;
    }
    if newCol.name != oldName {
      var c := FindColumnInfo(cols, newCol.name);
      if c >= 0 {
        return Cancelled, oldPos, newPos;
      }
    }
    if pos.After? {
      if oldName == pos.name {
        return Rollingback, oldPos, newPos;
      }
      var relative := FindColumnInfo(cols, pos.name);
      if relative < 0 || cols[relative].state != Public {
        return Rollingback, oldPos, newPos;
      }
      newPos := if relative < oldPos then relative + 1 else relative;
    } else if pos.First? {
      newPos := 0;
    }
    r := Done;
  }

  class TableInfo {
    var Columns: seq<Column>
    var Indices: seq<Index>

    function View(): Table
      reads this
    {
      Table(Columns, Indices)
    }

    method AdjustColumnInfoInAddColumn(offset: nat)
      requires Numbered(Columns) && offset < |Columns|
      modifies this
      ensures View() == Reorder(old(View()), |old(Columns)| - 1, offset)
    {
      var n := |Columns|;
      var newCols, offsetChanged := MoveLastTo(Columns, offset);
      Indices := UpdateIndices(Indices, offsetChanged, n - 1, offset);
      Columns := newCols;
    }

    method AdjustColumnInfoInDropColumn(offset: nat)
      requires Numbered(Columns) && offset < |Columns|
      modifies this
      ensures View() == Reorder(old(View()), offset, |old(Columns)| - 1)
    {
      var n := |Columns|;
      var newCols, offsetChanged := MoveToLast(Columns, offset);
      Indices := UpdateIndices(Indices, offsetChanged, offset, n - 1);
      Columns := newCols;
    }

    /**
      The part of a modify column job after the checks on the data: `oldPos` and `newPos` tell where
      the column was and where it went.
     */
    method ModifyColumn(newCol: Column, oldName: string, pos: Position)
      returns (r: Outcome, oldPos: int, newPos: int)
      requires WellFormed(View())
      modifies this
      ensures r.Cancelled? <==> !IsPublic(old(Columns), oldName) || (newCol.name != oldName && HasName(old(Columns), newCol.name))
      ensures r.Rollingback? <==> !r.Cancelled? && pos.After? && (pos.name == oldName || !IsPublic(old(Columns), pos.name))
      ensures !r.Done? ==> View() == old(View())
      ensures r.Done? ==>
                && 0 <= oldPos < |old(Columns)| && 0 <= newPos < |old(Columns)| && old(Columns)[oldPos].name == oldName
                && Modified(old(View()), oldPos, newPos, newCol.(state := Public), View())
                && (pos.Default? ==> newPos == oldPos) && (pos.First? ==> newPos == 0)
                && (pos.After? ==> newPos > 0 && Columns[newPos - 1].name == pos.name)
    {
      r, oldPos, newPos := CheckModify(Columns, newCol, oldName, pos);
      if r.Done? {
        var cols, columnChanged := MoveAndReplace(Columns, oldPos, newPos, newCol.(state := Public));
        Indices := FollowColumns(Columns, Indices, cols, columnChanged, oldPos, newPos);
        Columns := cols;
      }
    }
  }
}
