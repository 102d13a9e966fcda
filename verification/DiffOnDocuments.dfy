/** The rows of a diff read off the two documents as they are written: what each document holds
    at a row's path, and what the row's status says about it. */
module DiffOnDocuments {
  import opened Ordering
  import opened Json
  import opened JsonDelta

  /** The member that counts under a key. */
  function LastValue(ms: seq<Member>, k: string): Option<Raw> {
    if ms == [] then None
    else if ms[|ms| - 1].key == k then Some(ms[|ms| - 1].value)
    else LastValue(ms[..|ms| - 1], k)
  }

  /** Walking a document along a path; `None` when the path leads nowhere. */
  function RawAt(raw: Raw, p: Path): Option<Raw>
    decreases |p|
  {
    if p == [] then Some(raw)
    else
      match (p[0], raw)
      case (Key(k), RawObject(ms)) => (match LastValue(ms, k) case None => None case Some(x) => RawAt(x, p[1..]))
      case (Position(i), RawArray(items)) => if i < |items| then RawAt(items[i], p[1..]) else None
      case _ => None
  }

  /** The document has `v` at the path: nothing there, or no document, is null. */
  predicate HasAt(doc: RawField, p: Path, v: Value, f: Float64) {
    match doc
    case Absent => v == Null
    case Present(raw) => (match RawAt(raw, p) case None => v == Null case Some(x) => Means(x, v, f))
  }

  /** The same on decoded documents. */
  function ValueAt(v: Value, p: Path): Value
    decreases |p|
  {
    if p == [] then v
    else
      match p[0]
      case Key(k) => ValueAt(MemberOf(v, k), p[1..])
      case Position(i) => ValueAt(ItemAt(v, i), p[1..])
  }

  lemma {:induction false} NullHasNothing(p: Path)
    ensures ValueAt(Null, p) == Null
    decreases |p|
  {
    if p != [] {
      NullHasNothing(p[1..]);
    }
  }

  lemma {:induction false} LastValueCounts(ms: seq<Member>, k: string)
    ensures LastValue(ms, k).None? <==> k !in Keys(ms)
    ensures LastValue(ms, k).Some? ==>
              exists i :: 0 <= i < |ms| && Counts(ms, i) && ms[i] == Member(k, LastValue(ms, k).value)
  {
    if ms != [] {
      var front, last := ms[..|ms| - 1], ms[|ms| - 1];
      assert ms == front + [last];
      assert Keys(ms) == Keys(front) + {last.key};
      LastValueCounts(front, k);
      if last.key == k {
        assert Counts(ms, |front|) && ms[|front|] == Member(k, last.value);
      } else if LastValue(front, k).Some? {
        var i :| 0 <= i < |front| && Counts(front, i) && front[i] == Member(k, LastValue(front, k).value);
        assert Counts(ms, i) && ms[i] == front[i];
      }
    }
  }

  /** Decoding and walking commute. */
  lemma {:induction false} WalkOfDecoded(raw: Raw, v: Value, p: Path, f: Float64)
    requires Means(raw, v, f)
    ensures HasAt(Present(raw), p, ValueAt(v, p), f)
    decreases |p|
  {
    if p != [] {
      NullHasNothing(p[1..]);
      match (p[0], raw)
      case (Key(k), RawObject(ms)) =>
        LastValueCounts(ms, k);
        if LastValue(ms, k).Some? {
          var i :| 0 <= i < |ms| && Counts(ms, i) && ms[i] == Member(k, LastValue(ms, k).value);
          assert k in Keys(ms);
          WalkOfDecoded(ms[i].value, v.members[k], p[1..], f);
        }
      case (Position(i), RawArray(items)) =>
        if i < |items| {
          WalkOfDecoded(items[i], v.items[i], p[1..], f);
        }
      case _ =>
    }
  }

  lemma ParsedHas(doc: RawField, p: Path, f: Float64)
    requires Parsed(doc, f).Some?
    ensures forall v :: HasAt(doc, p, v, f) <==> v == ValueAt(Parsed(doc, f).value, p)
  {
    NullHasNothing(p);
    if doc.Present? {
      DecodesToItsMeaning(doc.raw, Parsed(doc, f).value, f);
      WalkOfDecoded(doc.raw, Parsed(doc, f).value, p, f);
      var x := RawAt(doc.raw, p);
      if x.Some? {
        forall v | Means(x.value, v, f) ensures v == ValueAt(Parsed(doc, f).value, p) {
          AlikeToItself(x.value, f);
          AlikeMeansTheSame(x.value, v, x.value, ValueAt(Parsed(doc, f).value, p), f);
        }
      }
    }
  }

  // ------------------------------------------------------------------- the rows

  /** The row shows what the two values hold at its path. */
  predicate Shows(b: Value, a: Value, r: Row) {
    r.before == ValueAt(b, r.path) && r.after == ValueAt(a, r.path)
  }

  /** Somewhere on the way to `p`, `b` has nothing and `a` has something. */
  predicate AppearsOn(b: Value, a: Value, p: Path) {
    exists n :: 0 <= n <= |p| && ValueAt(b, p[..n]) == Null && ValueAt(a, p[..n]) != Null
  }

  /** The status means what it says. */
  predicate Tells(b: Value, a: Value, r: Row) {
    && Shows(b, a, r)
    && match r.status
       case Added => AppearsOn(b, a, r.path)
       case Removed => AppearsOn(a, b, r.path)
       case Changed => r.before != Null && r.after != Null && r.before != r.after
  }

  function Child(v: Value, s: Segment): Value {
    match s case Key(k) => MemberOf(v, k) case Position(i) => ItemAt(v, i)
  }

  lemma StepDown(v: Value, s: Segment, p: Path)
    ensures ValueAt(v, [s] + p) == ValueAt(Child(v, s), p)
  {
    assert ([s] + p)[1..] == p;
  }

  lemma AppearsBelow(b: Value, a: Value, s: Segment, p: Path)
    requires AppearsOn(Child(b, s), Child(a, s), p)
    ensures AppearsOn(b, a, [s] + p)
  {
    var n :| 0 <= n <= |p| && ValueAt(Child(b, s), p[..n]) == Null && ValueAt(Child(a, s), p[..n]) != Null;
    assert ([s] + p)[..n + 1] == [s] + p[..n];
    StepDown(b, s, p[..n]);
    StepDown(a, s, p[..n]);
  }

  lemma TellsBelow(b: Value, a: Value, s: Segment, rows: seq<Row>)
    requires forall r :: r in rows ==> Tells(Child(b, s), Child(a, s), r)
    ensures forall r :: r in Under(s, rows) ==> Tells(b, a, r)
  {
    forall r | r in Under(s, rows) ensures Tells(b, a, r) {
      var i :| 0 <= i < |rows| && Under(s, rows)[i] == r;
      assert Tells(Child(b, s), Child(a, s), rows[i]);
      StepDown(b, s, rows[i].path);
      StepDown(a, s, rows[i].path);
      if r.status.Added? { AppearsBelow(b, a, s, rows[i].path); }
      if r.status.Removed? { AppearsBelow(a, b, s, rows[i].path); }
    }
  }

  /** A row of a subtree that stands on one side only. */
  predicate OneSide(v: Value, added: bool, r: Row) {
    r.status == (if added then Added else Removed)
    && r.before == (if added then Null else ValueAt(v, r.path))
    && r.after == (if added then ValueAt(v, r.path) else Null)
  }

  lemma OneSideBelow(v: Value, s: Segment, rows: seq<Row>, added: bool)
    requires forall r :: r in rows ==> OneSide(Child(v, s), added, r)
    ensures forall r :: r in Under(s, rows) ==> OneSide(v, added, r)
  {
    forall r | r in Under(s, rows) ensures OneSide(v, added, r) {
      var i :| 0 <= i < |rows| && Under(s, rows)[i] == r;
      assert OneSide(Child(v, s), added, rows[i]);
      StepDown(v, s, rows[i].path);
    }
  }

  lemma {:induction false} EmittedRows(v: Value, added: bool)
    ensures forall r :: r in Emit(v, added) ==> OneSide(v, added, r)
    decreases v, 1, 0
  {
    match v
    case Object(m) => EmittedMembers(v, SortedList(m.Keys), added);
    case Array(items) => EmittedItems(v, 0, added);
    case _ =>
  }

  lemma {:induction false} EmittedMembers(v: Value, ks: seq<string>, added: bool)
    requires v.Object? && forall k :: k in ks ==> k in v.members
    ensures forall r :: r in EmitMembers(v, ks, added) ==> OneSide(v, added, r)
    decreases v, 0, |ks|
  {
    if ks != [] {
      EmittedRows(v.members[ks[0]], added);
      OneSideBelow(v, Key(ks[0]), Emit(v.members[ks[0]], added), added);
      EmittedMembers(v, ks[1..], added);
    }
  }

  lemma {:induction false} EmittedItems(v: Value, i: nat, added: bool)
    requires v.Array? && i <= |v.items|
    ensures forall r :: r in EmitItems(v, i, added) ==> OneSide(v, added, r)
    decreases v, 0, |v.items| - i
  {
    if i < |v.items| {
      EmittedRows(v.items[i], added);
      OneSideBelow(v, Position(i), Emit(v.items[i], added), added);
      EmittedItems(v, i + 1, added);
    }
  }

  lemma OneSideTells(v: Value, added: bool, r: Row)
    requires v != Null && OneSide(v, added, r)
    ensures if added then Tells(Null, v, r) else Tells(v, Null, r)
  {
    NullHasNothing(r.path);
    assert r.path[..0] == [];
  }

  lemma {:induction false} DeltaTells(b: Value, a: Value)
    ensures forall r :: r in Delta(b, a) ==> Tells(b, a, r)
    decreases if b.Null? then 0 else 1, b, 1, 0
  {
    if b.Null? && a.Null? {
    } else if b.Null? {
      EmittedRows(a, true);
      forall r | r in Delta(b, a) ensures Tells(b, a, r) { OneSideTells(a, true, r); }
    } else if a.Null? {
      EmittedRows(b, false);
      forall r | r in Delta(b, a) ensures Tells(b, a, r) { OneSideTells(b, false, r); }
    } else if b.Object? && a.Object? {
      DeltaMembersTell(b, a, SortedList(b.members.Keys + a.members.Keys));
    } else if b.Array? && a.Array? {
      DeltaItemsTell(b, a, 0);
    }
  }

  lemma {:induction false} DeltaMembersTell(b: Value, a: Value, ks: seq<string>)
    requires b.Object? && a.Object?
    ensures forall r :: r in DeltaMembers(b, a, ks) ==> Tells(b, a, r)
    decreases 1, b, 0, |ks|
  {
    if ks != [] {
      var bc, ac := MemberOf(b, ks[0]), MemberOf(a, ks[0]);
      DeltaTells(bc, ac);
      TellsBelow(b, a, Key(ks[0]), Delta(bc, ac));
      DeltaMembersTell(b, a, ks[1..]);
    }
  }

  lemma {:induction false} DeltaItemsTell(b: Value, a: Value, i: nat)
    requires b.Array? && a.Array? && i <= Width(b, a)
    ensures forall r :: r in DeltaItems(b, a, i) ==> Tells(b, a, r)
    decreases 1, b, 0, Width(b, a) - i
  {
    if i < Width(b, a) {
      var bc, ac := ItemAt(b, i), ItemAt(a, i);
      DeltaTells(bc, ac);
      TellsBelow(b, a, Position(i), Delta(bc, ac));
      DeltaItemsTell(b, a, i + 1);
    }
  }

  /** The document has something at some point of the path where the other has nothing. */
  predicate AppearsInDocument(before: RawField, after: RawField, p: Path, f: Float64) {
    exists n :: 0 <= n <= |p| && HasAt(before, p[..n], Null, f) && !HasAt(after, p[..n], Null, f)
  }

  /** What the rows of a diff tell, on the documents.  Every row shows what the old and the new
      document hold at its path, null where they hold nothing.  A row is added when the old
      document has nothing on the way to its path where the new one has something, removed in
      the opposite case, and changed when both hold something there, and not the same. */
  lemma RowsTellTheDocuments(before: RawField, after: RawField, f: Float64, rows: seq<Row>, r: Row)
    requires Parsed(before, f).Some? && Parsed(after, f).Some?
    requires multiset(rows) == multiset(Delta(Parsed(before, f).value, Parsed(after, f).value)) && r in rows
    ensures HasAt(before, r.path, r.before, f) && HasAt(after, r.path, r.after, f)
    ensures r.status.Added? ==> r.before == Null && AppearsInDocument(before, after, r.path, f)
    ensures r.status.Removed? ==> r.after == Null && AppearsInDocument(after, before, r.path, f)
    ensures r.status.Changed? ==> r.before != Null && r.after != Null && r.before != r.after
  {
    var b, a := Parsed(before, f).value, Parsed(after, f).value;
    DeltaTells(b, a);
    assert r in multiset(rows) && r in Delta(b, a);
    forall p: Path ensures HasAt(before, p, Null, f) <==> ValueAt(b, p) == Null {
      ParsedHas(before, p, f);
    }
    forall p: Path ensures HasAt(after, p, Null, f) <==> ValueAt(a, p) == Null {
      ParsedHas(after, p, f);
    }
    ParsedHas(before, r.path, f);
    ParsedHas(after, r.path, f);
    if r.status.Added? { NothingBelow(b, a, r.path); }
    if r.status.Removed? { NothingBelow(a, b, r.path); }
  }

  lemma {:induction false} NothingFurther(v: Value, p: Path, n: nat)
    requires n <= |p| && ValueAt(v, p[..n]) == Null
    ensures ValueAt(v, p) == Null
    decreases |p|
  {
    if n == 0 {
      NullHasNothing(p);
    } else {
      assert p[..n][1..] == p[1..][..n - 1];
      NothingFurther(Child(v, p[0]), p[1..], n - 1);
    }
  }

  lemma NothingBelow(b: Value, a: Value, p: Path)
    requires AppearsOn(b, a, p)
    ensures ValueAt(b, p) == Null
  {
    var n :| 0 <= n <= |p| && ValueAt(b, p[..n]) == Null && ValueAt(a, p[..n]) != Null;
    NothingFurther(b, p, n);
  }

  // ------------------------------------------------------------ no row twice

  /** No row's path lies on the way to another's. */
  predicate Apart(rows: seq<Row>) {
    forall i, j :: 0 <= i < |rows| && 0 <= j < |rows| && i != j ==> !(rows[i].path <= rows[j].path)
  }

  lemma ApartJoins(s: Segment, rows: seq<Row>, rest: seq<Row>)
    requires Apart(rows) && Apart(rest) && forall r :: r in rest ==> r.path != [] && r.path[0] != s
    ensures Apart(Under(s, rows) + rest)
  {
    var moved := Under(s, rows);
    forall i, j | 0 <= i < |moved + rest| && 0 <= j < |moved + rest| && i != j
      ensures !((moved + rest)[i].path <= (moved + rest)[j].path)
    {
      if i < |rows| && j < |rows| {
        assert moved[i].path[1..] == rows[i].path && moved[j].path[1..] == rows[j].path;
        assert !(rows[i].path <= rows[j].path);
      } else if i >= |rows| && j >= |rows| {
        assert !(rest[i - |rows|].path <= rest[j - |rows|].path);
      } else {
        assert (moved + rest)[i].path[0] != (moved + rest)[j].path[0];
      }
    }
  }

  lemma {:induction false} EmittedApart(v: Value, added: bool)
    ensures Apart(Emit(v, added))
    decreases v, 1, 0
  {
    match v
    case Object(m) =>
      AscendingIsDistinct(SortedList(m.Keys));
      EmittedMembersApart(v, SortedList(m.Keys), added);
    case Array(items) =>
      EmittedItemsApart(v, 0, added);
    case _ =>
  }

  lemma {:induction false} EmittedMembersApart(v: Value, ks: seq<string>, added: bool)
    requires v.Object? && Distinct(ks) && forall k :: k in ks ==> k in v.members
    ensures Apart(EmitMembers(v, ks, added))
    ensures forall r :: r in EmitMembers(v, ks, added) ==> r.path != [] && r.path[0].Key? && r.path[0].name in ks
    decreases v, 0, |ks|
  {
    if ks != [] {
      EmittedApart(v.members[ks[0]], added);
      EmittedMembersApart(v, ks[1..], added);
      assert ks[0] !in ks[1..];
      ApartJoins(Key(ks[0]), Emit(v.members[ks[0]], added), EmitMembers(v, ks[1..], added));
    }
  }

  lemma {:induction false} EmittedItemsApart(v: Value, i: nat, added: bool)
    requires v.Array? && i <= |v.items|
    ensures Apart(EmitItems(v, i, added))
    ensures forall r :: r in EmitItems(v, i, added) ==> r.path != [] && r.path[0].Position? && r.path[0].index >= i
    decreases v, 0, |v.items| - i
  {
    if i < |v.items| {
      EmittedApart(v.items[i], added);
      EmittedItemsApart(v, i + 1, added);
      ApartJoins(Position(i), Emit(v.items[i], added), EmitItems(v, i + 1, added));
    }
  }

  lemma {:induction false} DeltaApart(b: Value, a: Value)
    ensures Apart(Delta(b, a))
    decreases if b.Null? then 0 else 1, b, 1, 0
  {
    if b.Null? && a.Null? {
    } else if b.Null? {
      EmittedApart(a, true);
    } else if a.Null? {
      EmittedApart(b, false);
    } else if b.Object? && a.Object? {
      AscendingIsDistinct(SortedList(b.members.Keys + a.members.Keys));
      DeltaMembersApart(b, a, SortedList(b.members.Keys + a.members.Keys));
    } else if b.Array? && a.Array? {
      DeltaItemsApart(b, a, 0);
    }
  }

  lemma {:induction false} DeltaMembersApart(b: Value, a: Value, ks: seq<string>)
    requires b.Object? && a.Object? && Distinct(ks)
    ensures Apart(DeltaMembers(b, a, ks))
    ensures forall r :: r in DeltaMembers(b, a, ks) ==> r.path != [] && r.path[0].Key? && r.path[0].name in ks
    decreases 1, b, 0, |ks|
  {
    if ks != [] {
      var bc, ac := MemberOf(b, ks[0]), MemberOf(a, ks[0]);
      DeltaApart(bc, ac);
      DeltaMembersApart(b, a, ks[1..]);
      assert ks[0] !in ks[1..];
      ApartJoins(Key(ks[0]), Delta(bc, ac), DeltaMembers(b, a, ks[1..]));
    }
  }

  lemma {:induction false} DeltaItemsApart(b: Value, a: Value, i: nat)
    requires b.Array? && a.Array? && i <= Width(b, a)
    ensures Apart(DeltaItems(b, a, i))
    ensures forall r :: r in DeltaItems(b, a, i) ==> r.path != [] && r.path[0].Position? && r.path[0].index >= i
    decreases 1, b, 0, Width(b, a) - i
  {
    if i < Width(b, a) {
      var bc, ac := ItemAt(b, i), ItemAt(a, i);
      DeltaApart(bc, ac);
      DeltaItemsApart(b, a, i + 1);
      ApartJoins(Position(i), Delta(bc, ac), DeltaItems(b, a, i + 1));
    }
  }

  lemma {:induction false} OnceEach(d: seq<Row>, r: Row)
    requires Apart(d)
    ensures multiset(d)[r] <= 1
  {
    if d != [] {
      var front, last := d[..|d| - 1], d[|d| - 1];
      assert d == front + [last];
      assert Apart(front) by {
        forall i, j | 0 <= i < |front| && 0 <= j < |front| && i != j ensures !(front[i].path <= front[j].path) {
          assert !(d[i].path <= d[j].path);
        }
      }
      OnceEach(front, r);
      if last == r {
        forall i | 0 <= i < |front| ensures front[i] != r {
          assert !(d[i].path <= d[|front|].path);
        }
        assert r !in front;
      }
    }
  }

  lemma TwoApart(d: seq<Row>, r: Row, q: Row)
    requires Apart(d) && r in d && q in d && r != q
    ensures !(r.path <= q.path)
  {
    var i :| 0 <= i < |d| && d[i] == r;
    var j :| 0 <= j < |d| && d[j] == q;
    assert !(d[i].path <= d[j].path);
  }

  /** Each place is reported once: the rows of a diff differ, and no row lies above another. */
  lemma RowsAreApart(b: Value, a: Value, rows: seq<Row>, r: Row, q: Row)
    requires multiset(rows) == multiset(Delta(b, a)) && r in rows && q in rows
    ensures multiset(rows)[r] == 1
    ensures r != q ==> !(r.path <= q.path)
  {
    var d := Delta(b, a);
    DeltaApart(b, a);
    assert r in multiset(rows) && q in multiset(rows);
    OnceEach(d, r);
    if r != q {
      TwoApart(d, r, q);
    }
  }
}
