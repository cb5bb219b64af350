/**
  The key flags of columns. Publishing an index sets flags, removing one clears flags and sets some
  again; the flags ought to be a function of the index list at every point in between.
 */
module KeyFlags {
  datatype Flag = PriKey | UniqueKey | MultipleKey

  /** An add job works on an index until it is live, a drop job from then on. */
  datatype Phase = Adding | Live | Dropping

  datatype Index = Index(name: string, primary: bool, unique: bool, cols: seq<nat>, phase: Phase)

  /** `handle` is the offset of the column that serves as row handle, or -1. */
  datatype Table = Table(flags: seq<set<Flag>>, indices: seq<Index>, handle: int)

  // ---------- what the flags mean ----------

  /** The flags that an index gives the column at `o`. */
  function Given(ix: Index, o: nat): set<Flag> {
    if ix.primary then if o in ix.cols then {PriKey} else {}
    else if ix.cols == [] || o != ix.cols[0] then {}
    else if ix.unique && |ix.cols| == 1 then {UniqueKey} else {MultipleKey}
  }

  ghost predicate GivenBy(indices: seq<Index>, o: nat, f: Flag) {
    exists i :: 0 <= i < |indices| && !indices[i].phase.Adding? && f in Given(indices[i], o)
  }

  /** The flag that the index list and the handle column ask for. */
  ghost predicate Expected(t: Table, o: nat, f: Flag) {
    GivenBy(t.indices, o, f) || (o == t.handle && f == PriKey)
  }

  ghost predicate Exact(t: Table) {
    forall o: nat, f :: o < |t.flags| ==> (f in t.flags[o] <==> Expected(t, o, f))
  }

  /** An index that an add job has published and no drop job has removed. */
  ghost predicate Published(t: Table, ix: Index) {
    ix in t.indices && !ix.phase.Adding?
  }

  /**
    Exact flags, said by the indexes: a primary key marks all its columns, a unique index of one column marks
    that one as unique, and any other index marks its first column.
   */
  lemma FlagsMean(t: Table, o: nat)
    requires Exact(t) && o < |t.flags| && forall ix :: ix in t.indices ==> ix.cols != []
    ensures PriKey in t.flags[o] <==> o == t.handle || exists ix :: Published(t, ix) && ix.primary && o in ix.cols
    ensures UniqueKey in t.flags[o] <==> exists ix :: Published(t, ix) && !ix.primary && ix.unique && ix.cols == [o]
    ensures MultipleKey in t.flags[o] <==>
              exists ix :: Published(t, ix) && !ix.primary && ix.cols[0] == o && !(ix.unique && |ix.cols| == 1)
  {
    forall f ensures f in t.flags[o] <==> (o == t.handle && f == PriKey) || exists ix :: Published(t, ix) && f in Given(ix, o) {
      assert f in t.flags[o] <==> Expected(t, o, f);
      if ix :| Published(t, ix) && f in Given(ix, o) {
        var i :| 0 <= i < |t.indices| && t.indices[i] == ix;
        assert GivenBy(t.indices, o, f);
      }
      if i :| 0 <= i < |t.indices| && !t.indices[i].phase.Adding? && f in Given(t.indices[i], o) {
        assert Published(t, t.indices[i]);
      }
    }
  }

  ghost predicate IndexOk(n: nat, ix: Index) {
    ix.cols != [] && forall c :: c in ix.cols ==> c < n
  }

  ghost predicate UniqueNames(indices: seq<Index>) {
    forall i, j :: 0 <= i < j < |indices| ==> indices[i].name != indices[j].name
  }

  ghost predicate WellFormed(t: Table) {
    UniqueNames(t.indices) && forall i :: 0 <= i < |t.indices| ==> IndexOk(|t.flags|, t.indices[i])
  }

  // ---------- the updates as functions ----------

  function AddFlags(flags: seq<set<Flag>>, ix: Index): seq<set<Flag>> {
    seq(|flags|, o requires 0 <= o < |flags| => flags[o] + Given(ix, o))
  }

  /** Some other index that starts with the same column gives the flag. */
  ghost predicate SetAgain(indices: seq<Index>, ix: Index, o: nat, f: Flag)
    requires ix.cols != []
  {
    exists i :: 0 <= i < |indices| && SameStart(indices[i], ix) && f in Given(indices[i], o)
  }

  predicate SameStart(other: Index, ix: Index)
    requires ix.cols != []
  {
    other.name != ix.name && other.cols != [] && other.cols[0] == ix.cols[0]
  }

  ghost predicate Dropped(flags: seq<set<Flag>>, indices: seq<Index>, ix: Index, r: seq<set<Flag>>)
    requires ix.cols != []
  {
    && |r| == |flags|
    && forall o: nat, f :: o < |flags| ==>
        (f in r[o] <==> (f in flags[o] && f !in Given(ix, o)) || SetAgain(indices, ix, o, f))
  }

  // ---------- the code ----------

  class TableInfo {
    var Flags: seq<set<Flag>>
    var Indices: seq<Index>

    method AddIndexColumnFlag(ix: Index)
      requires IndexOk(|Flags|, ix)
      modifies this`Flags
      ensures Flags == AddFlags(old(Flags), ix)
    {
      if ix.primary {
        var i := 0;
        while i < |ix.cols|
          invariant 0 <= i <= |ix.cols| && |Flags| == |old(Flags)|
          invariant forall o :: 0 <= o < |Flags| ==>
                      Flags[o] == if o in ix.cols[..i] then old(Flags)[o] + {PriKey} else old(Flags)[o]
        {
          assert ix.cols[..i + 1] == ix.cols[..i] + [ix.cols[i]];
          assert ix.cols[i] in ix.cols;
          Flags := Flags[ix.cols[i] := Flags[ix.cols[i]] + {PriKey}];
          i := i + 1;
        }
        assert ix.cols[..i] == ix.cols;
        assert forall o: nat :: o < |Flags| ==> Flags[o] == AddFlags(old(Flags), ix)[o];
        return;
      }
      var col := ix.cols[0];
      assert col in ix.cols;
      if ix.unique && |ix.cols| == 1 {
        Flags := Flags[col := Flags[col] + {UniqueKey}];
      } else {
        Flags := Flags[col := Flags[col] + {MultipleKey}];
      }
      assert forall o: nat :: o < |Flags| ==> Flags[o] == AddFlags(old(Flags), ix)[o];
    }

    method ClearFlags(ix: Index)
      requires IndexOk(|Flags|, ix)
      modifies this`Flags
      ensures |Flags| == |old(Flags)| && forall o: nat :: o < |Flags| ==> Flags[o] == old(Flags)[o] - Given(ix, o)
    {
      var col := ix.cols[0];
      assert col in ix.cols;
      if ix.primary {
        var i := 0;
        while i < |ix.cols|
          invariant 0 <= i <= |ix.cols| && |Flags| == |old(Flags)|
          invariant forall o :: 0 <= o < |Flags| ==>
                      Flags[o] == if o in ix.cols[..i] then old(Flags)[o] - {PriKey} else old(Flags)[o]
        {
          assert ix.cols[..i + 1] == ix.cols[..i] + [ix.cols[i]];
          assert ix.cols[i] in ix.cols;
          Flags := Flags[ix.cols[i] := Flags[ix.cols[i]] - {PriKey}];
          i := i + 1;
        }
        assert ix.cols[..i] == ix.cols;
      } else if ix.unique && |ix.cols| == 1 {
        Flags := Flags[col := Flags[col] - {UniqueKey}];
      } else {
        Flags := Flags[col := Flags[col] - {MultipleKey}];
      }
    }

    method DropIndexColumnFlag(ix: Index)
      requires IndexOk(|Flags|, ix) && forall i :: 0 <= i < |Indices| ==> IndexOk(|Flags|, Indices[i])
      modifies this`Flags
      ensures Dropped(old(Flags), Indices, ix, Flags)
    {
      ClearFlags(ix);
      ghost var cleared := Flags;
      var i := 0;
      while i < |Indices|
        invariant 0 <= i <= |Indices| && |Flags| == |old(Flags)|
        invariant forall o: nat, f :: o < |Flags| ==> (f in Flags[o] <==> f in cleared[o] || SetAgain(Indices[..i], ix, o, f))
      {
        var index := Indices[i];
        if index.name != ix.name && index.cols[0] == ix.cols[0] {
          AddIndexColumnFlag(index);
        }
        SetAgainNext(Indices, ix, i);
        i := i + 1;
      }
      assert Indices[..i] == Indices;
    }
  }

  lemma SetAgainNext(indices: seq<Index>, ix: Index, i: nat)
    requires ix.cols != [] && i < |indices|
    ensures forall o: nat, f :: SetAgain(indices[..i + 1], ix, o, f) <==>
              SetAgain(indices[..i], ix, o, f) || (SameStart(indices[i], ix) && f in Given(indices[i], o))
  {
    forall o: nat, f
      ensures SetAgain(indices[..i + 1], ix, o, f) <==>
                SetAgain(indices[..i], ix, o, f) || (SameStart(indices[i], ix) && f in Given(indices[i], o))
    {
      var s, s' := indices[..i], indices[..i + 1];
      assert forall k :: 0 <= k < i ==> s[k] == s'[k];
      assert s'[i] == indices[i];
    }
  }

  // ---------- index jobs ----------

  /** One transaction of an index job that touches the list or the flags, or a rename. */
  datatype Event =
    | AddIndex(ix: Index)          // an add job appends its index
    | Publish(name: string)        // the backfill is done
    | StartDrop(name: string)
    | CancelDrop(name: string)     // a drop that has only stopped reading is taken back
    | Remove(name: string)         // the end of a drop, or of an add that rolls back
    | Rename(from: string, to: string)

  function IndexAt(indices: seq<Index>, name: string): (i: int)
    ensures -1 <= i < |indices|
    ensures i >= 0 ==> indices[i].name == name
    ensures i == -1 ==> forall k :: 0 <= k < |indices| ==> indices[k].name != name
    decreases |indices|
  {
    if indices == [] then -1
    else if indices[|indices| - 1].name == name then |indices| - 1
    else
      assert forall k :: 0 <= k < |indices| - 1 ==> indices[..|indices| - 1][k] == indices[k];
      IndexAt(indices[..|indices| - 1], name)
  }

  predicate InPhase(t: Table, name: string, ps: set<Phase>) {
    var i := IndexAt(t.indices, name); i >= 0 && t.indices[i].phase in ps
  }

  /** At most one job works on a table at a time. */
  ghost predicate Quiet(indices: seq<Index>) {
    forall i :: 0 <= i < |indices| ==> indices[i].phase.Live?
  }

  ghost predicate Enabled(t: Table, e: Event) {
    match e
    case AddIndex(ix) => Quiet(t.indices) && IndexAt(t.indices, ix.name) < 0 && IndexOk(|t.flags|, ix) && ix.phase.Adding?
    case Publish(name) => InPhase(t, name, {Adding})
    case StartDrop(name) => Quiet(t.indices) && InPhase(t, name, {Live})
    case CancelDrop(name) => InPhase(t, name, {Dropping})
    case Remove(name) => InPhase(t, name, {Adding, Dropping})
    case Rename(from, to) => Quiet(t.indices) && IndexAt(t.indices, from) >= 0 && (from == to || IndexAt(t.indices, to) < 0)
  }

  function SetPhase(t: Table, i: nat, p: Phase): Table
    requires i < |t.indices|
  {
    t.(indices := t.indices[i := t.indices[i].(phase := p)])
  }

  function Without(indices: seq<Index>, i: nat): seq<Index>
    requires i < |indices|
  {
    indices[..i] + indices[i + 1..]
  }

  ghost predicate Step(t: Table, e: Event, t': Table)
    requires WellFormed(t) && Enabled(t, e)
  {
    match e
    case AddIndex(ix) => t' == t.(indices := t.indices + [ix])
    case Publish(name) =>
      var i := IndexAt(t.indices, name);
      t' == SetPhase(t, i, Live).(flags := AddFlags(t.flags, t.indices[i]))
    case StartDrop(name) => t' == SetPhase(t, IndexAt(t.indices, name), Dropping)
    case CancelDrop(name) => t' == SetPhase(t, IndexAt(t.indices, name), Live)
    case Remove(name) =>
      var i := IndexAt(t.indices, name);
      && t'.indices == Without(t.indices, i) && t'.handle == t.handle
      && Dropped(t.flags, t'.indices, t.indices[i], t'.flags)
    case Rename(from, to) =>
      var i := IndexAt(t.indices, from);
      t' == t.(indices := t.indices[i := t.indices[i].(name := to)])
  }

  ghost predicate OthersLive(indices: seq<Index>) {
    forall i, j :: 0 <= i < j < |indices| ==> indices[i].phase.Live? || indices[j].phase.Live?
  }

  ghost predicate Inv(t: Table) {
    WellFormed(t) && OthersLive(t.indices) && Exact(t)
  }

  /**
    Removing the index at `i` loses a flag: it is a primary key, and one of its columns is also in
    another primary key or the handle, but in no primary key that starts with the same column.
   */
  ghost predicate Orphans(t: Table, i: nat)
    requires WellFormed(t) && i < |t.indices|
  {
    var ix, rest := t.indices[i], Without(t.indices, i);
    ix.primary && exists o: nat :: o in ix.cols && (GivenBy(rest, o, PriKey) || o == t.handle) && !SetAgain(rest, ix, o, PriKey)
  }

  lemma WithoutAt(indices: seq<Index>, i: nat)
    requires i < |indices|
    ensures |Without(indices, i)| == |indices| - 1
    ensures forall k :: 0 <= k < |indices| - 1 ==> Without(indices, i)[k] == if k < i then indices[k] else indices[k + 1]
    ensures forall k :: 0 <= k < |indices| && k != i ==>
              var k' := if k < i then k else k - 1; 0 <= k' < |indices| - 1 && Without(indices, i)[k'] == indices[k]
  {
  }

  lemma RemovedWellFormed(t: Table, i: nat, flags: seq<set<Flag>>)
    requires WellFormed(t) && OthersLive(t.indices) && i < |t.indices| && !t.indices[i].phase.Live? && |flags| == |t.flags|
    ensures WellFormed(t.(flags := flags, indices := Without(t.indices, i))) && Quiet(Without(t.indices, i))
  {
    WithoutAt(t.indices, i);
    var r := Without(t.indices, i);
    forall k | 0 <= k < |r| ensures r[k].phase.Live? {
      var j := if k < i then k else k + 1;
      assert r[k] == t.indices[j] && (j < i || i < j);
    }
  }

  lemma GivenByOther(indices: seq<Index>, i: nat, o: nat, f: Flag)
    requires i < |indices| && GivenBy(indices, o, f) && !(!indices[i].phase.Adding? && f in Given(indices[i], o))
    ensures GivenBy(Without(indices, i), o, f)
  {
    WithoutAt(indices, i);
    var k :| 0 <= k < |indices| && !indices[k].phase.Adding? && f in Given(indices[k], o);
    assert Without(indices, i)[if k < i then k else k - 1] == indices[k];
  }

  lemma GivenByAll(indices: seq<Index>, i: nat, o: nat, f: Flag)
    requires i < |indices| && GivenBy(Without(indices, i), o, f)
    ensures GivenBy(indices, o, f)
  {
    WithoutAt(indices, i);
    var rest := Without(indices, i);
    var k :| 0 <= k < |rest| && !rest[k].phase.Adding? && f in Given(rest[k], o);
    assert indices[if k < i then k else k + 1] == rest[k];
  }

  lemma GivenWithout(indices: seq<Index>, i: nat, o: nat, f: Flag)
    requires i < |indices|
    ensures GivenBy(indices, o, f) <==>
              GivenBy(Without(indices, i), o, f) || (!indices[i].phase.Adding? && f in Given(indices[i], o))
  {
    if !indices[i].phase.Adding? && f in Given(indices[i], o) {
      assert GivenBy(indices, o, f);
    } else if GivenBy(indices, o, f) {
      GivenByOther(indices, i, o, f);
    } else if GivenBy(Without(indices, i), o, f) {
      GivenByAll(indices, i, o, f);
    }
  }

  /** What the flags were before the removal, said about the list after it. */
  lemma BeforeRemove(t: Table, i: nat, o: nat, f: Flag)
    requires Inv(t) && i < |t.indices| && !t.indices[i].phase.Live? && o < |t.flags|
    ensures var ix, rest := t.indices[i], Without(t.indices, i);
            f in t.flags[o] <==>
              GivenBy(rest, o, f) || (o == t.handle && f == PriKey) || (ix.phase.Dropping? && f in Given(ix, o))
  {
    GivenWithout(t.indices, i, o, f);
    assert f in t.flags[o] <==> Expected(t, o, f);
  }

  lemma OnlyGivenSetAgain(t: Table, i: nat, o: nat, f: Flag)
    requires WellFormed(t) && i < |t.indices| && Quiet(Without(t.indices, i))
    ensures SetAgain(Without(t.indices, i), t.indices[i], o, f) ==> GivenBy(Without(t.indices, i), o, f)
  {
  }

  lemma OthersDiffer(indices: seq<Index>, i: nat, k: nat)
    requires UniqueNames(indices) && i < |indices| && k < |indices| - 1
    ensures Without(indices, i)[k].name != indices[i].name
  {
    var j := if k < i then k else k + 1;
    assert Without(indices, i)[k] == indices[j] && (j < i || i < j);
  }

  lemma OrdinaryStart(a: Index, b: Index, o: nat, f: Flag)
    requires f != PriKey && f in Given(a, o) && f in Given(b, o) && a.name != b.name
    ensures SameStart(b, a)
  {
  }

  /** A flag that two ordinary indexes give comes from their first column, so the removal sets it again. */
  lemma OrdinarySetAgain(t: Table, i: nat, o: nat, f: Flag)
    requires WellFormed(t) && i < |t.indices| && f != PriKey
    requires f in Given(t.indices[i], o) && GivenBy(Without(t.indices, i), o, f)
    ensures SetAgain(Without(t.indices, i), t.indices[i], o, f)
  {
    var ix, rest := t.indices[i], Without(t.indices, i);
    var k :| 0 <= k < |rest| && !rest[k].phase.Adding? && f in Given(rest[k], o);
    OthersDiffer(t.indices, i, k);
    OrdinaryStart(ix, rest[k], o, f);
  }

  /** The flags are exact after a removal if and only if it loses none. */
  lemma RemoveExact(t: Table, i: nat, t': Table)
    requires Inv(t) && i < |t.indices| && !t.indices[i].phase.Live?
    requires t'.indices == Without(t.indices, i) && t'.handle == t.handle && Dropped(t.flags, t'.indices, t.indices[i], t'.flags)
    ensures Exact(t') <==> !Orphans(t, i)
  {
    var ix, rest := t.indices[i], Without(t.indices, i);
    RemovedWellFormed(t, i, t'.flags);
    forall o: nat, f | o < |t.flags|
      ensures f in t'.flags[o] <==>
                Expected(t', o, f) && !(f in Given(ix, o) && !SetAgain(rest, ix, o, f))
    {
      BeforeRemove(t, i, o, f);
      OnlyGivenSetAgain(t, i, o, f);
    }
    if Orphans(t, i) {
      var o: nat :| o in ix.cols && (GivenBy(rest, o, PriKey) || o == t.handle) && !SetAgain(rest, ix, o, PriKey);
      assert IndexOk(|t.flags|, ix);
      assert PriKey in Given(ix, o) && Expected(t', o, PriKey) && PriKey !in t'.flags[o];
    } else {
      forall o: nat, f | o < |t.flags| ensures f in t'.flags[o] <==> Expected(t', o, f) {
        if f != PriKey && f in Given(ix, o) && GivenBy(rest, o, f) { OrdinarySetAgain(t, i, o, f); }
      }
    }
  }

  lemma AddKeeps(t: Table, ix: Index)
    requires Inv(t) && Enabled(t, AddIndex(ix))
    ensures Inv(t.(indices := t.indices + [ix]))
  {
    var t' := t.(indices := t.indices + [ix]);
    forall o: nat, f ensures GivenBy(t'.indices, o, f) <==> GivenBy(t.indices, o, f) {
      assert forall k :: 0 <= k < |t.indices| ==> t'.indices[k] == t.indices[k];
    }
  }

  lemma PhaseKeeps(t: Table, i: nat, p: Phase, flags: seq<set<Flag>>)
    requires Inv(t) && i < |t.indices| && !p.Adding? && (t.indices[i].phase.Live? ==> Quiet(t.indices))
    requires flags == if t.indices[i].phase.Adding? then AddFlags(t.flags, t.indices[i]) else t.flags
    ensures Inv(SetPhase(t, i, p).(flags := flags))
  {
    var t' := SetPhase(t, i, p).(flags := flags);
    forall o: nat, f | o < |flags| ensures f in flags[o] <==> Expected(t', o, f) {
      assert t'.indices[i] == t.indices[i].(phase := p) && Given(t'.indices[i], o) == Given(t.indices[i], o);
      assert forall k :: 0 <= k < |t.indices| && k != i ==> t'.indices[k] == t.indices[k];
      assert f in t.flags[o] <==> Expected(t, o, f);
    }
  }

  lemma RenameKeeps(t: Table, from: string, to: string)
    requires Inv(t) && Enabled(t, Rename(from, to))
    ensures var i := IndexAt(t.indices, from); Inv(t.(indices := t.indices[i := t.indices[i].(name := to)]))
  {
    var i := IndexAt(t.indices, from);
    var t' := t.(indices := t.indices[i := t.indices[i].(name := to)]);
    forall o: nat, f ensures GivenBy(t'.indices, o, f) <==> GivenBy(t.indices, o, f) {
      assert Given(t'.indices[i], o) == Given(t.indices[i], o);
      assert forall k :: 0 <= k < |t.indices| && k != i ==> t'.indices[k] == t.indices[k];
    }
  }

  /** A step keeps the flags exact if and only if it is not a removal that loses one. */
  lemma StepKeepsInv(t: Table, e: Event, t': Table)
    requires Inv(t) && Enabled(t, e) && Step(t, e, t')
    ensures !e.Remove? ==> Inv(t')
    ensures e.Remove? ==> (Inv(t') <==> !Orphans(t, IndexAt(t.indices, e.name)))
  {
    match e
    case AddIndex(ix) => AddKeeps(t, ix);
    case Publish(name) =>
      var i := IndexAt(t.indices, name);
      PhaseKeeps(t, i, Live, AddFlags(t.flags, t.indices[i]));
    case StartDrop(name) => PhaseKeeps(t, IndexAt(t.indices, name), Dropping, t.flags);
    case CancelDrop(name) => PhaseKeeps(t, IndexAt(t.indices, name), Live, t.flags);
    case Remove(name) =>
      var i := IndexAt(t.indices, name);
      RemovedWellFormed(t, i, t'.flags);
      RemoveExact(t, i, t');
      assert t' == t.(flags := t'.flags, indices := Without(t.indices, i));
    case Rename(from, to) => RenameKeeps(t, from, to);
  }

  // ---------- every run ----------

  ghost predicate Next(t: Table, e: Event, t': Table) {
    WellFormed(t) && Enabled(t, e) && Step(t, e, t')
  }

  /** `ts` are the tables before, between and after the events of a run. */
  ghost predicate Run(ts: seq<Table>, es: seq<Event>) {
    |ts| == |es| + 1 && forall k :: 0 <= k < |es| ==> Next(ts[k], es[k], ts[k + 1])
  }

  /** The event is a removal that loses a flag. */
  ghost predicate LosesFlag(t: Table, e: Event) {
    WellFormed(t) && Enabled(t, e) && e.Remove? && Orphans(t, IndexAt(t.indices, e.name))
  }

  lemma {:induction false} ExactUntilLost(ts: seq<Table>, es: seq<Event>, n: nat)
    requires Run(ts, es) && Inv(ts[0]) && n <= |es|
    requires forall k :: 0 <= k < n ==> !LosesFlag(ts[k], es[k])
    ensures Inv(ts[n])
  {
    if n == 0 {
    } else {
      ExactUntilLost(ts, es, n - 1);
      assert Next(ts[n - 1], es[n - 1], ts[n - 1 + 1]);
      StepKeepsInv(ts[n - 1], es[n - 1], ts[n]);
    }
  }

  /** Main result: along a run of any jobs the flags are exact up to the first removal that loses one, and not after it. */
  lemma RunKeepsFlags(ts: seq<Table>, es: seq<Event>, n: nat)
    requires Run(ts, es) && Inv(ts[0]) && n < |es|
    requires forall k :: 0 <= k < n ==> !LosesFlag(ts[k], es[k])
    ensures Inv(ts[n]) && (Inv(ts[n + 1]) <==> !LosesFlag(ts[n], es[n]))
  {
    ExactUntilLost(ts, es, n);
    assert Next(ts[n], es[n], ts[n + 1]);
    StepKeepsInv(ts[n], es[n], ts[n + 1]);
  }

  // ---------- runs that lose no flag ----------

  const PRIMARY_KEY_NAME := "primary"

  /** Every primary key bears the name that an add primary key job looks for, and none is beside a handle. */
  ghost predicate KeyNamed(t: Table) {
    forall i :: 0 <= i < |t.indices| && t.indices[i].primary ==> t.indices[i].name == PRIMARY_KEY_NAME && t.handle < 0
  }

  /** An add primary key job looks for a key of that name, but not for a handle; a rename looks for nothing. */
  ghost predicate Proper(t: Table, e: Event) {
    && (e.AddIndex? && e.ix.primary ==> e.ix.name == PRIMARY_KEY_NAME && t.handle < 0)
    && (e.Rename? ==> e.from != PRIMARY_KEY_NAME)
  }

  lemma NoOrphans(t: Table, i: nat)
    requires WellFormed(t) && KeyNamed(t) && i < |t.indices|
    ensures !Orphans(t, i)
  {
    WithoutAt(t.indices, i);
    var ix, rest := t.indices[i], Without(t.indices, i);
    forall o: nat | ix.primary ensures !GivenBy(rest, o, PriKey) {
      forall k | 0 <= k < |rest| ensures PriKey !in Given(rest[k], o) {
        var j := if k < i then k else k + 1;
        assert rest[k] == t.indices[j] && (j < i || i < j);
      }
    }
  }

  lemma StepKeepsName(t: Table, e: Event, t': Table)
    requires KeyNamed(t) && Next(t, e, t') && Proper(t, e)
    ensures KeyNamed(t')
  {
    if e.Remove? {
      WithoutAt(t.indices, IndexAt(t.indices, e.name));
    }
  }

  /** In a run that renames no primary key and adds none beside a handle, the flags are exact. */
  lemma {:induction false} NamedKeyKeepsFlags(ts: seq<Table>, es: seq<Event>, n: nat)
    requires Run(ts, es) && Inv(ts[0]) && KeyNamed(ts[0]) && n <= |es|
    requires forall k :: 0 <= k < |es| ==> Proper(ts[k], es[k])
    ensures Inv(ts[n]) && KeyNamed(ts[n])
  {
    if n == 0 {
    } else {
      NamedKeyKeepsFlags(ts, es, n - 1);
      var t, e := ts[n - 1], es[n - 1];
      assert Next(t, e, ts[n - 1 + 1]) && Proper(t, e);
      if e.Remove? { NoOrphans(t, IndexAt(t.indices, e.name)); }
      StepKeepsInv(t, e, ts[n]);
      StepKeepsName(t, e, ts[n]);
    }
  }

  // ---------- runs that lose one ----------

  function Key(name: string, cols: seq<nat>, phase: Phase): Index {
    Index(name, true, true, cols, phase)
  }

  /** The primary key is renamed, a second one added over its column, and the first one dropped. */
  const RENAMED: seq<Event> :=
    [Rename(PRIMARY_KEY_NAME, "old"), AddIndex(Key(PRIMARY_KEY_NAME, [1, 0], Adding)), Publish(PRIMARY_KEY_NAME),
     StartDrop("old"), Remove("old")]

  const OLD_KEY := Key("old", [0], Live)
  const NEW_KEY := Key(PRIMARY_KEY_NAME, [1, 0], Live)

  const RENAMED_TABLES: seq<Table> :=
    [Table([{PriKey}, {}], [Key(PRIMARY_KEY_NAME, [0], Live)], -1),
     Table([{PriKey}, {}], [OLD_KEY], -1),
     Table([{PriKey}, {}], [OLD_KEY, NEW_KEY.(phase := Adding)], -1),
     Table([{PriKey}, {PriKey}], [OLD_KEY, NEW_KEY], -1),
     Table([{PriKey}, {PriKey}], [OLD_KEY.(phase := Dropping), NEW_KEY], -1),
     Table([{}, {PriKey}], [NEW_KEY], -1)]

  lemma NewKeyGives(p: Phase)
    ensures Given(NEW_KEY.(phase := p), 0) == {PriKey} && Given(NEW_KEY.(phase := p), 1) == {PriKey}
  {
    assert NEW_KEY.cols[0] == 1 && NEW_KEY.cols[1] == 0;
  }

  lemma RenameAndAdd(t: Table, t1: Table, t2: Table)
    requires t == RENAMED_TABLES[0] && t1 == RENAMED_TABLES[1] && t2 == RENAMED_TABLES[2]
    ensures Next(t, RENAMED[0], t1) && Next(t1, RENAMED[1], t2)
  {
    assert IndexAt(t.indices, PRIMARY_KEY_NAME) == 0;
    assert t1.indices + [NEW_KEY.(phase := Adding)] == t2.indices;
  }

  lemma PublishSecond(t2: Table, t3: Table)
    requires t2 == RENAMED_TABLES[2] && t3 == RENAMED_TABLES[3]
    ensures Next(t2, RENAMED[2], t3)
  {
    assert IndexAt(t2.indices, PRIMARY_KEY_NAME) == 1;
    NewKeyGives(Adding);
    var flags := AddFlags(t2.flags, t2.indices[1]);
    assert |flags| == 2 && flags[0] == {PriKey} && flags[1] == {PriKey};
    assert flags == t3.flags;
  }

  lemma DropFirst(t3: Table, t4: Table)
    requires t3 == RENAMED_TABLES[3] && t4 == RENAMED_TABLES[4]
    ensures Next(t3, RENAMED[3], t4)
  {
    assert IndexAt(t3.indices, "old") == 0;
  }

  lemma RemoveFirst(t4: Table, t5: Table)
    requires t4 == RENAMED_TABLES[4] && t5 == RENAMED_TABLES[5]
    ensures Next(t4, RENAMED[4], t5) && !Exact(t5)
  {
    var a, b := t4.indices[0], t4.indices[1];
    NewKeyGives(Live);
    assert IndexAt(t4.indices, "old") == 0 && Without(t4.indices, 0) == t5.indices;
    assert Given(a, 0) == {PriKey} && Given(a, 1) == {};
    assert t5.indices[0] == b && !SameStart(b, a);
    assert Expected(t5, 0, PriKey) && PriKey !in t5.flags[0];
  }

  lemma FirstExact(t: Table)
    requires t == RENAMED_TABLES[0]
    ensures Inv(t) && KeyNamed(t)
  {
    assert Given(t.indices[0], 0) == {PriKey} && Given(t.indices[0], 1) == {};
  }

  lemma RenamedKeyLosesFlag()
    ensures Run(RENAMED_TABLES, RENAMED) && Inv(RENAMED_TABLES[0]) && KeyNamed(RENAMED_TABLES[0])
    ensures !Exact(RENAMED_TABLES[5])
  {
    var ts := RENAMED_TABLES;
    FirstExact(ts[0]);
    RenameAndAdd(ts[0], ts[1], ts[2]);
    PublishSecond(ts[2], ts[3]);
    DropFirst(ts[3], ts[4]);
    RemoveFirst(ts[4], ts[5]);
  }

  /** A primary key is added over the handle column, and rolled back. */
  const OVER_HANDLE: seq<Event> := [AddIndex(Key(PRIMARY_KEY_NAME, [0], Adding)), Remove(PRIMARY_KEY_NAME)]

  lemma HandleLosesFlag() returns (ts: seq<Table>)
    ensures Run(ts, OVER_HANDLE) && Inv(ts[0]) && KeyNamed(ts[0]) && !Exact(ts[2])
  {
    var key := Key(PRIMARY_KEY_NAME, [0], Adding);
    var t := Table([{PriKey}], [], 0);
    var t1 := t.(indices := [key]);
    var t2 := t.(flags := [{}]);
    ts := [t, t1, t2];
    assert t.indices + [key] == t1.indices;
    assert IndexAt(t1.indices, PRIMARY_KEY_NAME) == 0 && Without(t1.indices, 0) == [];
    assert Given(key, 0) == {PriKey};
    assert Expected(t2, 0, PriKey) && PriKey !in t2.flags[0];
  }
}
