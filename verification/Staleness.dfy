/** The plan-staleness guard (internal/apply/staleness.go). */
module Staleness {
  import opened Ordering
  import opened Json
  import opened TrunkState

  /** The row comparison of the guard: absent on both sides, or the same header and
      instance documents that both decode, to the same value. */
  predicate SameRow(b: Option<Resource>, c: Option<Resource>, f: Float64) {
    match (b, c)
    case (None, None) => true
    case (Some(x), Some(y)) =>
      && x.(instances := Absent) == y.(instances := Absent)
      && JsonRawEqual(x.instances, y.instances, f) == Some(true)
    case _ => false
  }

  /** Rows that differ only in the member order of their instances document, at any depth, are
      the same to the guard, provided the document decodes; with an undecodable number, not
      even an untouched row is. */
  lemma ReorderedRowIsSame(x: Resource, y: Resource, a: Raw, b: Raw, f: Float64)
    requires x.(instances := Absent) == y.(instances := Absent)
    requires x.instances == Present(a) && y.instances == Present(b) && Reordered(a, b)
    ensures SameRow(Some(x), Some(y), f) <==> Decode(a, f).Some?
  {
    MemberOrderIsForgotten(a, b, f);
  }

  /** What the guard sees of two rows: nothing on either side, or the same six header fields
      and either no instances on either side or instances documents that are alike, with every
      number in range.  Any other difference counts. */
  lemma SameRowIff(b: Option<Resource>, c: Option<Resource>, f: Float64)
    ensures SameRow(b, c, f) <==>
              || (b.None? && c.None?)
              || (&& b.Some? && c.Some?
                  && b.value.modulePath == c.value.modulePath && b.value.mode == c.value.mode
                  && b.value.rtype == c.value.rtype && b.value.name == c.value.name
                  && b.value.provider == c.value.provider && b.value.each == c.value.each
                  && InstancesAlike(b.value.instances, c.value.instances, f))
  {
    if b.Some? && c.Some? && b.value.instances.Present? && c.value.instances.Present? {
      DecodeAlikeIff(b.value.instances.raw, c.value.instances.raw, f);
    }
  }

  predicate InstancesAlike(x: RawField, y: RawField, f: Float64) {
    || (x.Absent? && y.Absent?)
    || (x.Present? && y.Present? && InRange(x.raw, f) && InRange(y.raw, f) && Alike(x.raw, y.raw, f))
  }

  /** The document has a row at `a`; the last one, if it has several, is `r`. */
  ghost predicate LastRowAt(rs: seq<Resource>, a: string, r: Resource) {
    exists i :: LastAt(rs, i) && rs[i] == r && r.Address() == a
  }

  predicate HasRowAt(rs: seq<Resource>, a: string) {
    exists r :: r in rs && r.Address() == a
  }

  /** Neither document has a row at `a`, or both do, and the rows are the same but for what
      decoding forgets. */
  ghost predicate SameAt(base: State, cur: State, a: string, f: Float64) {
    && (HasRowAt(base.resources, a) <==> HasRowAt(cur.resources, a))
    && forall b, c :: LastRowAt(base.resources, a, b) && LastRowAt(cur.resources, a, c) ==>
         && b.modulePath == c.modulePath && b.mode == c.mode && b.rtype == c.rtype && b.name == c.name
         && b.provider == c.provider && b.each == c.each && InstancesAlike(b.instances, c.instances, f)
  }

  /** An empty answer of the guard, on the documents: they are the same at the group of every
      address of the read set. */
  lemma UnchangedOnDocuments(base: State, cur: State, readSet: seq<string>, f: Float64)
    ensures Unchanged(Index(base.resources), Index(cur.resources), Groups(readSet), f) <==>
              forall w :: w in readSet ==> SameAt(base, cur, StripIndex(w), f)
  {
    forall a
      ensures SameRow(At(Index(base.resources), a), At(Index(cur.resources), a), f) <==> SameAt(base, cur, a, f)
    {
      RowsFound(base.resources, a);
      RowsFound(cur.resources, a);
      SameRowIff(At(Index(base.resources), a), At(Index(cur.resources), a), f);
    }
    assert forall g :: g in Groups(readSet) <==> exists w :: w in readSet && StripIndex(w) == g;
  }

  lemma RowsFound(rs: seq<Resource>, a: string)
    ensures HasRowAt(rs, a) <==> At(Index(rs), a).Some?
    ensures forall r :: LastRowAt(rs, a, r) <==> At(Index(rs), a) == Some(r)
  {
    IndexKeys(rs);
    IndexFindsLast(rs);
  }

  predicate Unchanged(base: Rows, cur: Rows, groups: set<string>, f: Float64) {
    forall g :: g in groups ==> SameRow(At(base, g), At(cur, g), f)
  }

  datatype Guard = BadBase | BadCurrent | Changed(addrs: seq<string>)

  /** `changedReadSetAddresses`; a state that does not parse is `None`. */
  method ChangedReadSetAddresses(base: Option<State>, cur: Option<State>, readSet: seq<string>, f: Float64)
    returns (out: Guard)
    ensures out.BadBase? <==> readSet != [] && base.None?
    ensures out.BadCurrent? <==> readSet != [] && base.Some? && cur.None?
    ensures readSet == [] ==> out == Changed([])
    ensures out.Changed? && readSet != [] ==>
              && Ascending(out.addrs)
              && Elements(out.addrs) ==
                   Differing(Index(base.value.resources), Index(cur.value.resources), Groups(readSet), f)
              && (out.addrs == [] <==>
                   Unchanged(Index(base.value.resources), Index(cur.value.resources), Groups(readSet), f))
  {
    if readSet == [] { return Changed([]); }
    if base.None? { return BadBase; }
    if cur.None? { return BadCurrent; }
    var baseRows := IndexResourcesByAddress(base.value.resources);
    var curRows := IndexResourcesByAddress(cur.value.resources);
    var changed := ChangedGroups(baseRows, curRows, Groups(readSet), f);
    out := Changed(changed);
  }

  /** staleness.go:27-49, for any iteration order of the read groups. */
  method ChangedGroups(base: Rows, cur: Rows, groups: set<string>, f: Float64) returns (out: seq<string>)
    ensures Ascending(out)
    ensures Elements(out) == Differing(base, cur, groups, f)
    ensures out == [] <==> Unchanged(base, cur, groups, f)
  {
    var todo, changed := groups, [];
    while todo != {}
      invariant todo <= groups && Distinct(changed)
      invariant Elements(changed) == Differing(base, cur, groups - todo, f)
    {
      var g :| g in todo;
      assert g !in changed;
      DifferingOneMore(base, cur, groups - todo, g, f);
      assert groups - (todo - {g}) == groups - todo + {g};
      todo := todo - {g};
      var differs := RowChanged(At(base, g), At(cur, g), f);
      if differs {
        assert Elements(changed + [g]) == Elements(changed) + {g};
        changed := changed + [g];
      }
    }
    assert groups - todo == groups;
    SortDistinct(changed);
    ElementsOfEmpty(SortStrings(changed));
    out := SortStrings(changed);
    assert Differing(base, cur, groups, f) == {} <==> Unchanged(base, cur, groups, f) by {
      if !Unchanged(base, cur, groups, f) {
        var g :| g in groups && !SameRow(At(base, g), At(cur, g), f);
        assert g in Differing(base, cur, groups, f);
      }
    }
  }

  function Differing(base: Rows, cur: Rows, groups: set<string>, f: Float64): set<string> {
    set g | g in groups && !SameRow(At(base, g), At(cur, g), f)
  }

  lemma DifferingOneMore(base: Rows, cur: Rows, done: set<string>, g: string, f: Float64)
    ensures Differing(base, cur, done + {g}, f) ==
            if SameRow(At(base, g), At(cur, g), f) then Differing(base, cur, done, f)
            else Differing(base, cur, done, f) + {g}
  {
  }

  /** One iteration: presence, then the header fields, then the instances document;
      an instances document that does not decode counts as changed. */
  method RowChanged(b: Option<Resource>, c: Option<Resource>, f: Float64) returns (changed: bool)
    ensures changed <==> !SameRow(b, c, f)
  {
    if b.None? && c.None? { return false; }
    if b.Some? != c.Some? { return true; }
    var br, cr := b.value, c.value;
    if br.modulePath != cr.modulePath || br.mode != cr.mode || br.rtype != cr.rtype
       || br.name != cr.name || br.provider != cr.provider || br.each != cr.each {
      return true;
    }
    var eq := JsonRawEqual(br.instances, cr.instances, f);
    return eq.None? || !eq.value;
  }
}
