/** The leaf-level JSON diff of cmd/kl/jsondelta.go.  Paths are segment lists;
    redaction and the rendering of values are not part of this model. */
module JsonDelta {
  import opened Ordering
  import opened Json

  datatype Segment = Key(name: string) | Position(index: nat)

  type Path = seq<Segment>

  datatype Status = Added | Removed | Changed

  /** One reported row; the absent side of an added or removed row is `Null`, as Go's nil. */
  datatype Row = Row(path: Path, before: Value, after: Value, status: Status)

  function Under(s: Segment, rows: seq<Row>): (r: seq<Row>)
    ensures |r| == |rows|
    ensures forall i :: 0 <= i < |rows| ==> r[i] == rows[i].(path := [s] + rows[i].path)
  {
    seq(|rows|, i requires 0 <= i < |rows| => rows[i].(path := [s] + rows[i].path))
  }

  /** A missing object member or array element reads as null. */
  function MemberOf(v: Value, k: string): Value {
    if v.Object? && k in v.members then v.members[k] else Null
  }

  function ItemAt(v: Value, i: nat): Value {
    if v.Array? && i < |v.items| then v.items[i] else Null
  }

  // ----------------------------------------------------------- specification

  function OneSided(v: Value, added: bool): Row {
    if added then Row([], Null, v, Added) else Row([], v, Null, Removed)
  }

  ghost function Emit(v: Value, added: bool): seq<Row>
    decreases v, 1, 0
  {
    match v
    case Object(m) => EmitMembers(v, SortedList(m.Keys), added)
    case Array(items) => EmitItems(v, 0, added)
    case _ => [OneSided(v, added)]
  }

  ghost function EmitMembers(v: Value, ks: seq<string>, added: bool): seq<Row>
    requires v.Object? && forall k :: k in ks ==> k in v.members
    decreases v, 0, |ks|
  {
    if ks == [] then [] else Under(Key(ks[0]), Emit(v.members[ks[0]], added)) + EmitMembers(v, ks[1..], added)
  }

  ghost function EmitItems(v: Value, i: nat, added: bool): seq<Row>
    requires v.Array? && i <= |v.items|
    decreases v, 0, |v.items| - i
  {
    if i == |v.items| then [] else Under(Position(i), Emit(v.items[i], added)) + EmitItems(v, i + 1, added)
  }

  function Width(b: Value, a: Value): nat
    requires b.Array? && a.Array?
  {
    if |a.items| > |b.items| then |a.items| else |b.items|
  }

  ghost function Delta(b: Value, a: Value): seq<Row>
    decreases if b.Null? then 0 else 1, b, 1, 0
  {
    if b.Null? && a.Null? then []
    else if b.Null? then Emit(a, true)
    else if a.Null? then Emit(b, false)
    else if b.Object? && a.Object? then DeltaMembers(b, a, SortedList(b.members.Keys + a.members.Keys))
    else if b.Array? && a.Array? then DeltaItems(b, a, 0)
    else if b == a then []
    else [Row([], b, a, Changed)]
  }

  ghost function DeltaMembers(b: Value, a: Value, ks: seq<string>): seq<Row>
    requires b.Object? && a.Object?
    decreases 1, b, 0, |ks|
  {
    if ks == [] then []
    else Under(Key(ks[0]), Delta(MemberOf(b, ks[0]), MemberOf(a, ks[0]))) + DeltaMembers(b, a, ks[1..])
  }

  ghost function DeltaItems(b: Value, a: Value, i: nat): seq<Row>
    requires b.Array? && a.Array? && i <= Width(b, a)
    decreases 1, b, 0, Width(b, a) - i
  {
    if i == Width(b, a) then []
    else Under(Position(i), Delta(ItemAt(b, i), ItemAt(a, i))) + DeltaItems(b, a, i + 1)
  }

  // ---------------------------------------------------------- implementation

  /** Rows at a path below the root. */
  function Below(path: Path, rows: seq<Row>): (r: seq<Row>)
    ensures |r| == |rows|
    ensures forall i :: 0 <= i < |rows| ==> r[i] == rows[i].(path := path + rows[i].path)
  {
    seq(|rows|, i requires 0 <= i < |rows| => rows[i].(path := path + rows[i].path))
  }

  lemma BelowUnder(path: Path, s: Segment, rows: seq<Row>)
    ensures Below(path + [s], rows) == Below(path, Under(s, rows))
  {
    forall i | 0 <= i < |rows| ensures Below(path + [s], rows)[i] == Below(path, Under(s, rows))[i] {
      assert path + [s] + rows[i].path == path + ([s] + rows[i].path);
    }
  }

  lemma BelowAppend(path: Path, s: Segment, head: seq<Row>, tail: seq<Row>)
    ensures Below(path, Under(s, head) + tail) == Below(path + [s], head) + Below(path, tail)
  {
    BelowUnder(path, s, head);
  }

  lemma Regroup(a: seq<Row>, b: seq<Row>, c: seq<Row>)
    ensures a + (b + c) == (a + b) + c
  {
  }

  lemma EmitMembersStep(path: Path, v: Value, ks: seq<string>, added: bool)
    requires v.Object? && ks != [] && forall k :: k in ks ==> k in v.members
    ensures Below(path, EmitMembers(v, ks, added)) ==
            Below(path + [Key(ks[0])], Emit(v.members[ks[0]], added)) + Below(path, EmitMembers(v, ks[1..], added))
  {
    BelowAppend(path, Key(ks[0]), Emit(v.members[ks[0]], added), EmitMembers(v, ks[1..], added));
  }

  lemma EmitItemsStep(path: Path, v: Value, i: nat, added: bool)
    requires v.Array? && i < |v.items|
    ensures Below(path, EmitItems(v, i, added)) ==
            Below(path + [Position(i)], Emit(v.items[i], added)) + Below(path, EmitItems(v, i + 1, added))
  {
    BelowAppend(path, Position(i), Emit(v.items[i], added), EmitItems(v, i + 1, added));
  }

  lemma BelowRoot(rows: seq<Row>)
    ensures Below([], rows) == rows
  {
    forall i | 0 <= i < |rows| ensures Below([], rows)[i] == rows[i] {
      assert [] + rows[i].path == rows[i].path;
    }
  }

  /** `scalarEqual`; the fallback compares marshalled bytes, which is equality of values. */
  predicate ScalarEqual(a: Value, b: Value) {
    if a.Null? && b.Null? then true
    else if a.Null? || b.Null? then false
    else
      match a
      case String(x) => b.String? && x == b.s
      case Bool(x) => b.Bool? && x == b.b
      case Number(x) => b.Number? && x == b.spelling
      case _ => a == b
  }

  /** `unionKeys`. */
  method UnionKeys(a: map<string, Value>, b: map<string, Value>) returns (keys: seq<string>)
    ensures keys == SortedList(a.Keys + b.Keys)
  {
    keys := SortedSetKeys(a.Keys + b.Keys);
    AscendingIsUnique(keys, SortedList(a.Keys + b.Keys));
  }

  /** The rows shared by the recursive walk (`out *[]jsonPathLeaf`). */
  class Rows {
    var rows: seq<Row>

    constructor ()
      ensures rows == []
    {
      rows := [];
    }

    /** `emitSubtree`. */
    method EmitSubtree(path: Path, v: Value, added: bool)
      modifies this
      ensures rows == old(rows) + Below(path, Emit(v, added))
      decreases v, 1
    {
      match v
      case Object(m) =>
        var keys := SortedSetKeys(m.Keys);
        AscendingIsUnique(keys, SortedList(m.Keys));
        EmitObject(path, v, keys, added);
      case Array(items) =>
        EmitArray(path, v, added);
      case _ =>
        assert path + [] == path;
        rows := rows + [OneSided(v, added).(path := path)];
    }

    method EmitObject(path: Path, v: Value, keys: seq<string>, added: bool)
      requires v.Object? && forall k :: k in keys ==> k in v.members
      modifies this
      ensures rows == old(rows) + Below(path, EmitMembers(v, keys, added))
      decreases v, 0
    {
      ghost var total := old(rows) + Below(path, EmitMembers(v, keys, added));
      ghost var rest := keys;
      for i := 0 to |keys|
        invariant rest == keys[i..] && forall k :: k in rest ==> k in v.members
        invariant total == rows + Below(path, EmitMembers(v, rest, added))
      {
        assert rest[0] == keys[i];
        EmitMembersStep(path, v, rest, added);
        Regroup(rows, Below(path + [Key(keys[i])], Emit(v.members[keys[i]], added)),
          Below(path, EmitMembers(v, rest[1..], added)));
        EmitSubtree(path + [Key(keys[i])], v.members[keys[i]], added);
        rest := rest[1..];
      }
    }

    method EmitArray(path: Path, v: Value, added: bool)
      requires v.Array?
      modifies this
      ensures rows == old(rows) + Below(path, EmitItems(v, 0, added))
      decreases v, 0
    {
      ghost var total := rows + Below(path, EmitItems(v, 0, added));
      for i := 0 to |v.items|
        invariant total == rows + Below(path, EmitItems(v, i, added))
      {
        EmitItemsStep(path, v, i, added);
        Regroup(rows, Below(path + [Position(i)], Emit(v.items[i], added)), Below(path, EmitItems(v, i + 1, added)));
        EmitSubtree(path + [Position(i)], v.items[i], added);
      }
    }

    /** `walkDelta`. */
    method WalkDelta(path: Path, before: Value, after: Value)
      modifies this
      ensures rows == old(rows) + Below(path, Delta(before, after))
      decreases if before.Null? then 0 else 1, before, 1
    {
      if before.Null? && after.Null? {
      } else if before.Null? {
        EmitSubtree(path, after, true);
      } else if after.Null? {
        EmitSubtree(path, before, false);
      } else if before.Object? && after.Object? {
        var keys := UnionKeys(before.members, after.members);
        WalkObject(path, before, after, keys);
      } else if before.Array? && after.Array? {
        WalkArray(path, before, after);
      } else if !ScalarEqual(before, after) {
        assert path + [] == path;
        rows := rows + [Row(path, before, after, Changed)];
      }
    }

    method WalkObject(path: Path, before: Value, after: Value, keys: seq<string>)
      requires before.Object? && after.Object?
      modifies this
      ensures rows == old(rows) + Below(path, DeltaMembers(before, after, keys))
      decreases 1, before, 0
    {
      ghost var total := rows + Below(path, DeltaMembers(before, after, keys));
      ghost var rest := keys;
      for i := 0 to |keys|
        invariant rest == keys[i..]
        invariant total == rows + Below(path, DeltaMembers(before, after, rest))
      {
        var b, a := MemberOf(before, keys[i]), MemberOf(after, keys[i]);
        assert rest[0] == keys[i];
        BelowAppend(path, Key(keys[i]), Delta(b, a), DeltaMembers(before, after, rest[1..]));
        Regroup(rows, Below(path + [Key(keys[i])], Delta(b, a)), Below(path, DeltaMembers(before, after, rest[1..])));
        WalkDelta(path + [Key(keys[i])], b, a);
        rest := rest[1..];
      }
    }

    method WalkArray(path: Path, before: Value, after: Value)
      requires before.Array? && after.Array?
      modifies this
      ensures rows == old(rows) + Below(path, DeltaItems(before, after, 0))
      decreases 1, before, 0
    {
      var n := |before.items|;
      if |after.items| > n {
        n := |after.items|;
      }
      ghost var total := rows + Below(path, DeltaItems(before, after, 0));
      for i := 0 to n
        invariant total == rows + Below(path, DeltaItems(before, after, i))
      {
        var b, a := ItemAt(before, i), ItemAt(after, i);
        BelowAppend(path, Position(i), Delta(b, a), DeltaItems(before, after, i + 1));
        Regroup(rows, Below(path + [Position(i)], Delta(b, a)), Below(path, DeltaItems(before, after, i + 1)));
        WalkDelta(path + [Position(i)], b, a);
      }
    }
  }

  /** The walk from the root. */
  method Walk(before: Value, after: Value) returns (rows: seq<Row>)
    ensures rows == Delta(before, after)
  {
    var out := new Rows();
    out.WalkDelta([], before, after);
    rows := out.rows;
    BelowRoot(Delta(before, after));
  }

  /** A document that is not there reads as null; `None` is a parse error. */
  function Parsed(doc: RawField, f: Float64): Option<Value> {
    match doc case Absent => Some(Null) case Present(raw) => Decode(raw, f)
  }

  lemma ParsedInRange(doc: RawField, f: Float64)
    ensures Parsed(doc, f).None? <==> doc.Present? && !InRange(doc.raw, f)
  {
    if doc.Present? { DecodesInRange(doc.raw, f); }
  }

  predicate SortedByPath(rows: seq<Row>, render: Path -> string) {
    forall i, j :: 0 <= i < j < |rows| ==> AtMost(render(rows[i].path), render(rows[j].path))
  }

  /** A row as it is returned: a sensitive one is rendered without its values. */
  datatype Leaf = Leaf(row: Row, sensitive: bool)

  function RowsOf(leaves: seq<Leaf>): (rows: seq<Row>)
    ensures |rows| == |leaves| && forall i :: 0 <= i < |rows| ==> rows[i] == leaves[i].row
  {
    seq(|leaves|, i requires 0 <= i < |leaves| => leaves[i].row)
  }

  /** `diffJSON`: every row of the delta once, by rendered path, marked sensitive exactly when
      that path is among the sensitive ones.  Rows rendered alike, which keys with dots or
      brackets make possible, come in any order. */
  method DiffJson(before: RawField, after: RawField, sensitive: set<string>, f: Float64, render: Path -> string)
    returns (out: Option<seq<Leaf>>)
    ensures out.None? <==> (before.Present? && !InRange(before.raw, f)) || (after.Present? && !InRange(after.raw, f))
    ensures out.Some? <==> Parsed(before, f).Some? && Parsed(after, f).Some?
    ensures out.Some? ==> SortedByPath(RowsOf(out.value), render)
    ensures out.Some? ==>
              multiset(RowsOf(out.value)) == multiset(Delta(Parsed(before, f).value, Parsed(after, f).value))
    ensures out.Some? ==> forall l :: l in out.value ==> (l.sensitive <==> render(l.row.path) in sensitive)
  {
    var b, a := Parsed(before, f), Parsed(after, f);
    ParsedInRange(before, f);
    ParsedInRange(after, f);
    if b.None? || a.None? { return None; }
    var walked := Walk(b.value, a.value);
    SortRowsSorts(walked, render);
    var rows := SortRows(walked, render);
    var leaves := seq(|rows|, i requires 0 <= i < |rows| => Leaf(rows[i], render(rows[i].path) in sensitive));
    assert RowsOf(leaves) == rows;
    out := Some(leaves);
  }

  function InsertRow(r: Row, rows: seq<Row>, render: Path -> string): (out: seq<Row>)
    ensures multiset(out) == multiset(rows) + multiset{r}
  {
    if rows == [] then [r]
    else if AtMost(render(r.path), render(rows[0].path)) then [r] + rows
    else
      assert rows == [rows[0]] + rows[1..];
      [rows[0]] + InsertRow(r, rows[1..], render)
  }

  /** `sort.Slice` by rendered path, up to the order of rows rendered alike. */
  function SortRows(rows: seq<Row>, render: Path -> string): (out: seq<Row>)
    ensures multiset(out) == multiset(rows)
  {
    if rows == [] then []
    else
      assert rows == [rows[0]] + rows[1..];
      InsertRow(rows[0], SortRows(rows[1..], render), render)
  }

  lemma {:induction false} SortRowsSorts(rows: seq<Row>, render: Path -> string)
    ensures SortedByPath(SortRows(rows, render), render)
  {
    if rows != [] {
      SortRowsSorts(rows[1..], render);
      InsertRowKeepsSorted(rows[0], SortRows(rows[1..], render), render);
    }
  }

  lemma {:induction false} InsertRowKeepsSorted(r: Row, rows: seq<Row>, render: Path -> string)
    requires SortedByPath(rows, render)
    ensures SortedByPath(InsertRow(r, rows, render), render)
  {
    if rows == [] {
    } else if AtMost(render(r.path), render(rows[0].path)) {
      forall j | 0 <= j < |rows| ensures AtMost(render(r.path), render(rows[j].path)) {
        AtMostIsTransitive(render(r.path), render(rows[0].path), render(rows[j].path));
      }
    } else {
      InsertRowKeepsSorted(r, rows[1..], render);
      LessIsStrict(render(r.path), render(rows[0].path));
      var rest := InsertRow(r, rows[1..], render);
      forall j | 0 <= j < |rest| ensures AtMost(render(rows[0].path), render(rest[j].path)) {
        assert rest[j] in multiset(rows[1..]) + multiset{r};
      }
    }
  }

  lemma AtMostIsTransitive(a: string, b: string, c: string)
    requires AtMost(a, b) && (b == c || AtMost(b, c))
    ensures AtMost(a, c)
  {
    if a != b && b != c {
      LessIsTransitive(a, b, c);
    }
  }

  // ------------------------------------------------------------------ theorems

  /** The non-null scalar at a path, if there is one. */
  function LeafAt(v: Value, p: Path): Option<Value>
    decreases |p|
  {
    if p == [] then (if v.Null? || v.Object? || v.Array? then None else Some(v))
    else
      match p[0]
      case Key(k) => LeafAt(MemberOf(v, k), p[1..])
      case Position(i) => LeafAt(ItemAt(v, i), p[1..])
  }

  /** Row `r` speaks about path `p`: `p` is at or below its path. */
  predicate Covers(r: Row, p: Path) {
    r.path <= p
  }

  /** What a row says about a path it covers. */
  function Says(r: Row, p: Path): Option<Value>
    requires Covers(r, p)
  {
    LeafAt(r.after, p[|r.path|..])
  }

  /** The leaf at `p` after applying rows in order to `before`. */
  function Patched(before: Value, rows: seq<Row>, p: Path): Option<Value> {
    if rows == [] then LeafAt(before, p)
    else
      var last := rows[|rows| - 1];
      if Covers(last, p) then Says(last, p) else Patched(before, rows[..|rows| - 1], p)
  }

  predicate Covered(rows: seq<Row>, p: Path) {
    exists r :: r in rows && Covers(r, p)
  }

  /** Every row covering `p` says what `a` has there. */
  predicate Sound(a: Value, rows: seq<Row>, p: Path) {
    forall r :: r in rows && Covers(r, p) ==> Says(r, p) == LeafAt(a, p)
  }

  /** At `p` the rows turn `b` into `a`. */
  predicate Right(b: Value, a: Value, rows: seq<Row>, p: Path) {
    Sound(a, rows, p) && (!Covered(rows, p) ==> LeafAt(b, p) == LeafAt(a, p))
  }

  lemma {:induction false} NullHasNoLeaf(p: Path)
    ensures LeafAt(Null, p) == None
    decreases |p|
  {
    if p != [] {
      NullHasNoLeaf(p[1..]);
    }
  }

  /** Rows moved under a segment speak below that segment only. */
  lemma UnderCovers(s: Segment, rows: seq<Row>, p: Path)
    ensures Covered(Under(s, rows), p) ==> p != [] && p[0] == s
    ensures p != [] && p[0] == s ==> (Covered(Under(s, rows), p) <==> Covered(rows, p[1..]))
    ensures p != [] && p[0] == s ==>
              forall r :: r in Under(s, rows) && Covers(r, p) ==>
                exists q :: q in rows && Covers(q, p[1..]) && Says(r, p) == Says(q, p[1..])
  {
    var moved := Under(s, rows);
    if Covered(moved, p) {
      var r :| r in moved && Covers(r, p);
      var i :| 0 <= i < |rows| && moved[i] == r;
    }
    if p != [] && p[0] == s {
      assert p == [s] + p[1..];
      forall r | r in moved && Covers(r, p)
        ensures exists q :: q in rows && Covers(q, p[1..]) && Says(r, p) == Says(q, p[1..])
      {
        var i :| 0 <= i < |rows| && moved[i] == r;
        assert rows[i].path == r.path[1..];
        assert rows[i] in rows && Covers(rows[i], p[1..]) && Says(r, p) == Says(rows[i], p[1..]);
      }
      if q :| q in rows && Covers(q, p[1..]) {
        var i :| 0 <= i < |rows| && rows[i] == q;
        assert moved[i] in moved && Covers(moved[i], p);
      }
    }
  }

  /** Rows of one child followed by the rows of the later children. */
  lemma Combine(b: Value, a: Value, s: Segment, bc: Value, ac: Value, rows: seq<Row>, rest: seq<Row>, p: Path)
    requires p != [] && p[0] == s ==>
               LeafAt(b, p) == LeafAt(bc, p[1..]) && LeafAt(a, p) == LeafAt(ac, p[1..]) && Right(bc, ac, rows, p[1..])
    requires Sound(a, rest, p)
    ensures Sound(a, Under(s, rows) + rest, p)
    ensures !Covered(Under(s, rows) + rest, p) ==> !Covered(rest, p)
    ensures p != [] && p[0] == s && !Covered(Under(s, rows) + rest, p) ==> LeafAt(b, p) == LeafAt(a, p)
  {
    var all := Under(s, rows) + rest;
    UnderCovers(s, rows, p);
    assert forall r :: r in all <==> r in Under(s, rows) || r in rest;
    forall r | r in all && Covers(r, p) ensures Says(r, p) == LeafAt(a, p) {
      if r in Under(s, rows) {
        assert Covered(Under(s, rows), p);
      }
    }
  }

  // ---- one-sided rows

  function Before(v: Value, added: bool): Value { if added then Null else v }
  function After(v: Value, added: bool): Value { if added then v else Null }

  lemma RootRowIsRight(b: Value, a: Value, status: Status, p: Path)
    ensures Right(b, a, [Row([], b, a, status)], p)
  {
    var r := Row([], b, a, status);
    assert r in [r] && Covers(r, p) && p[|r.path|..] == p;
  }

  lemma {:induction false} EmitIsRight(v: Value, added: bool, p: Path)
    ensures Right(Before(v, added), After(v, added), Emit(v, added), p)
    decreases v, 1, 0
  {
    NullHasNoLeaf(p);
    match v
    case Object(m) =>
      EmitMembersAreRight(v, SortedList(m.Keys), added, p);
      assert p != [] && p[0].Key? && p[0].name in m ==> p[0].name in Elements(SortedList(m.Keys));
      if p != [] { NullHasNoLeaf(p[1..]); }
    case Array(items) =>
      EmitItemsAreRight(v, 0, added, p);
      if p != [] { NullHasNoLeaf(p[1..]); }
    case _ =>
      RootRowIsRight(Before(v, added), After(v, added), if added then Added else Removed, p);
  }

  lemma {:induction false} EmitMembersAreRight(v: Value, ks: seq<string>, added: bool, p: Path)
    requires v.Object? && forall k :: k in ks ==> k in v.members
    ensures Sound(After(v, added), EmitMembers(v, ks, added), p)
    ensures p != [] && p[0].Key? && p[0].name in ks && !Covered(EmitMembers(v, ks, added), p) ==>
              LeafAt(Before(v, added), p) == LeafAt(After(v, added), p)
    decreases v, 0, |ks|
  {
    if ks != [] {
      var k, child := ks[0], v.members[ks[0]];
      EmitMembersAreRight(v, ks[1..], added, p);
      if p != [] && p[0] == Key(k) {
        EmitIsRight(child, added, p[1..]);
      }
      Combine(Before(v, added), After(v, added), Key(k), Before(child, added), After(child, added),
              Emit(child, added), EmitMembers(v, ks[1..], added), p);
    }
  }

  lemma {:induction false} EmitItemsAreRight(v: Value, i: nat, added: bool, p: Path)
    requires v.Array? && i <= |v.items|
    ensures Sound(After(v, added), EmitItems(v, i, added), p)
    ensures p != [] && p[0].Position? && i <= p[0].index < |v.items| && !Covered(EmitItems(v, i, added), p) ==>
              LeafAt(Before(v, added), p) == LeafAt(After(v, added), p)
    decreases v, 0, |v.items| - i
  {
    if i < |v.items| {
      EmitItemsAreRight(v, i + 1, added, p);
      if p != [] && p[0] == Position(i) {
        EmitIsRight(v.items[i], added, p[1..]);
      }
      Combine(Before(v, added), After(v, added), Position(i), Before(v.items[i], added), After(v.items[i], added),
              Emit(v.items[i], added), EmitItems(v, i + 1, added), p);
    }
  }

  // ---- the whole delta

  lemma {:induction false} DeltaIsRight(b: Value, a: Value, p: Path)
    ensures Right(b, a, Delta(b, a), p)
    decreases if b.Null? then 0 else 1, b, 1, 0
  {
    if b.Null? && a.Null? {
    } else if b.Null? {
      EmitIsRight(a, true, p);
    } else if a.Null? {
      EmitIsRight(b, false, p);
    } else if b.Object? && a.Object? {
      var keys := SortedList(b.members.Keys + a.members.Keys);
      DeltaMembersAreRight(b, a, keys, p);
      assert p != [] && p[0].Key? && p[0].name in b.members.Keys + a.members.Keys ==> p[0].name in Elements(keys);
    } else if b.Array? && a.Array? {
      DeltaItemsAreRight(b, a, 0, p);
    } else if b != a {
      RootRowIsRight(b, a, Changed, p);
    }
  }

  lemma {:induction false} DeltaMembersAreRight(b: Value, a: Value, ks: seq<string>, p: Path)
    requires b.Object? && a.Object?
    ensures Sound(a, DeltaMembers(b, a, ks), p)
    ensures p != [] && p[0].Key? && p[0].name in ks && !Covered(DeltaMembers(b, a, ks), p) ==>
              LeafAt(b, p) == LeafAt(a, p)
    decreases 1, b, 0, |ks|
  {
    if ks != [] {
      var bc, ac := MemberOf(b, ks[0]), MemberOf(a, ks[0]);
      DeltaMembersAreRight(b, a, ks[1..], p);
      if p != [] && p[0] == Key(ks[0]) {
        DeltaIsRight(bc, ac, p[1..]);
      }
      Combine(b, a, Key(ks[0]), bc, ac, Delta(bc, ac), DeltaMembers(b, a, ks[1..]), p);
    }
  }

  lemma {:induction false} DeltaItemsAreRight(b: Value, a: Value, i: nat, p: Path)
    requires b.Array? && a.Array? && i <= Width(b, a)
    ensures Sound(a, DeltaItems(b, a, i), p)
    ensures p != [] && p[0].Position? && i <= p[0].index < Width(b, a) && !Covered(DeltaItems(b, a, i), p) ==>
              LeafAt(b, p) == LeafAt(a, p)
    decreases 1, b, 0, Width(b, a) - i
  {
    if i < Width(b, a) {
      var bc, ac := ItemAt(b, i), ItemAt(a, i);
      DeltaItemsAreRight(b, a, i + 1, p);
      if p != [] && p[0] == Position(i) {
        DeltaIsRight(bc, ac, p[1..]);
      }
      Combine(b, a, Position(i), bc, ac, Delta(bc, ac), DeltaItems(b, a, i + 1), p);
    }
  }

  lemma {:induction false} PatchedSays(before: Value, rows: seq<Row>, p: Path)
    ensures Covered(rows, p) ==> exists r :: r in rows && Covers(r, p) && Patched(before, rows, p) == Says(r, p)
    ensures !Covered(rows, p) ==> Patched(before, rows, p) == LeafAt(before, p)
  {
    if rows != [] {
      var front, last := rows[..|rows| - 1], rows[|rows| - 1];
      assert rows == front + [last];
      PatchedSays(before, front, p);
      if Covers(last, p) {
        assert last in rows;
      } else {
        assert Covered(rows, p) ==> Covered(front, p);
      }
    }
  }

  /** The delta is an exact patch.  Applying its rows, in any order and with any repetition,
      to the non-null scalar leaves of `before` gives exactly those of `after`. */
  lemma DeltaIsAPatch(before: Value, after: Value, rows: seq<Row>, p: Path)
    requires forall r :: r in rows <==> r in Delta(before, after)
    ensures Patched(before, rows, p) == LeafAt(after, p)
  {
    DeltaIsRight(before, after, p);
    PatchedSays(before, rows, p);
  }

  /** So what `diffJSON` returns, sorted as it is, patches the old document into the new. */
  lemma DiffIsAPatch(before: Value, after: Value, rows: seq<Row>, p: Path)
    requires multiset(rows) == multiset(Delta(before, after))
    ensures Patched(before, rows, p) == LeafAt(after, p)
  {
    forall r ensures r in rows <==> r in Delta(before, after) {
      assert r in rows <==> r in multiset(rows);
      assert r in Delta(before, after) <==> r in multiset(Delta(before, after));
    }
    DeltaIsAPatch(before, after, rows, p);
  }

  // ---- nothing to report, and reporting backwards

  lemma {:induction false} DeltaOfSelf(v: Value)
    ensures Delta(v, v) == []
    decreases v, 1, 0
  {
    if v.Object? {
      var keys := SortedList(v.members.Keys + v.members.Keys);
      assert forall k :: k in keys ==> k in Elements(keys);
      DeltaOfSelfMembers(v, keys);
    } else if v.Array? {
      DeltaOfSelfItems(v, 0);
    }
  }

  lemma {:induction false} DeltaOfSelfMembers(v: Value, ks: seq<string>)
    requires v.Object? && forall k :: k in ks ==> k in v.members
    ensures DeltaMembers(v, v, ks) == []
    decreases v, 0, |ks|
  {
    if ks != [] {
      DeltaOfSelf(v.members[ks[0]]);
      DeltaOfSelfMembers(v, ks[1..]);
    }
  }

  lemma {:induction false} DeltaOfSelfItems(v: Value, i: nat)
    requires v.Array? && i <= |v.items|
    ensures DeltaItems(v, v, i) == []
    decreases v, 0, |v.items| - i
  {
    if i < |v.items| {
      DeltaOfSelf(v.items[i]);
      DeltaOfSelfItems(v, i + 1);
    }
  }

  function Swapped(s: Status): Status {
    match s case Added => Removed case Removed => Added case Changed => Changed
  }

  /** The same rows read in the other direction. */
  function Mirror(rows: seq<Row>): (r: seq<Row>)
    ensures |r| == |rows|
    ensures forall i :: 0 <= i < |rows| ==>
              r[i] == Row(rows[i].path, rows[i].after, rows[i].before, Swapped(rows[i].status))
  {
    seq(|rows|, i requires 0 <= i < |rows| => Row(rows[i].path, rows[i].after, rows[i].before, Swapped(rows[i].status)))
  }

  lemma MirrorParts(s: Segment, rows: seq<Row>, rest: seq<Row>)
    ensures Mirror(Under(s, rows) + rest) == Under(s, Mirror(rows)) + Mirror(rest)
  {
  }

  lemma {:induction false} EmitMirrors(v: Value, added: bool)
    ensures Emit(v, !added) == Mirror(Emit(v, added))
    decreases v, 1, 0
  {
    match v
    case Object(m) => EmitMembersMirror(v, SortedList(m.Keys), added);
    case Array(items) => EmitItemsMirror(v, 0, added);
    case _ =>
  }

  lemma {:induction false} EmitMembersMirror(v: Value, ks: seq<string>, added: bool)
    requires v.Object? && forall k :: k in ks ==> k in v.members
    ensures EmitMembers(v, ks, !added) == Mirror(EmitMembers(v, ks, added))
    decreases v, 0, |ks|
  {
    if ks != [] {
      EmitMirrors(v.members[ks[0]], added);
      EmitMembersMirror(v, ks[1..], added);
      MirrorParts(Key(ks[0]), Emit(v.members[ks[0]], added), EmitMembers(v, ks[1..], added));
    }
  }

  lemma {:induction false} EmitItemsMirror(v: Value, i: nat, added: bool)
    requires v.Array? && i <= |v.items|
    ensures EmitItems(v, i, !added) == Mirror(EmitItems(v, i, added))
    decreases v, 0, |v.items| - i
  {
    if i < |v.items| {
      EmitMirrors(v.items[i], added);
      EmitItemsMirror(v, i + 1, added);
      MirrorParts(Position(i), Emit(v.items[i], added), EmitItems(v, i + 1, added));
    }
  }

  /** Swapping the documents swaps added with removed and before with after, row by row. */
  lemma {:induction false} DeltaMirrors(b: Value, a: Value)
    ensures Delta(a, b) == Mirror(Delta(b, a))
    decreases if b.Null? then 0 else 1, b, 1, 0
  {
    if b.Null? {
      EmitMirrors(a, true);
    } else if a.Null? {
      EmitMirrors(b, false);
    } else if b.Object? && a.Object? {
      assert b.members.Keys + a.members.Keys == a.members.Keys + b.members.Keys;
      DeltaMembersMirror(b, a, SortedList(b.members.Keys + a.members.Keys));
    } else if b.Array? && a.Array? {
      DeltaItemsMirror(b, a, 0);
    }
  }

  lemma {:induction false} DeltaMembersMirror(b: Value, a: Value, ks: seq<string>)
    requires b.Object? && a.Object?
    ensures DeltaMembers(a, b, ks) == Mirror(DeltaMembers(b, a, ks))
    decreases 1, b, 0, |ks|
  {
    if ks != [] {
      DeltaMirrors(MemberOf(b, ks[0]), MemberOf(a, ks[0]));
      DeltaMembersMirror(b, a, ks[1..]);
      MirrorParts(Key(ks[0]), Delta(MemberOf(b, ks[0]), MemberOf(a, ks[0])), DeltaMembers(b, a, ks[1..]));
    }
  }

  lemma {:induction false} DeltaItemsMirror(b: Value, a: Value, i: nat)
    requires b.Array? && a.Array? && i <= Width(b, a)
    ensures DeltaItems(a, b, i) == Mirror(DeltaItems(b, a, i))
    decreases 1, b, 0, Width(b, a) - i
  {
    if i < Width(b, a) {
      DeltaMirrors(ItemAt(b, i), ItemAt(a, i));
      DeltaItemsMirror(b, a, i + 1);
      MirrorParts(Position(i), Delta(ItemAt(b, i), ItemAt(a, i)), DeltaItems(b, a, i + 1));
    }
  }
}
