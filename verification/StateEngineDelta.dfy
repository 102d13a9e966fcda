/** The native delta commit of internal/apply/state_engine_delta.go, on decoded instances.
    Index keys are taken as rendered between the brackets of an instance address. */
module StateEngineDelta {
  import opened Ordering
  import opened Json
  import opened TrunkState

  datatype InstanceKey = NoIndex | Rendered(text: string) | Malformed

  datatype Instance = Instance(index: InstanceKey, attributes: string)

  datatype Group = Group(header: Resource, instances: seq<Instance>)
  {
    /** `tfstateResourceGroupAddress`. */
    function Address(): string { header.Address() }
  }

  /** `tfstate.InstanceAddress`; `None` is the error for a malformed index. */
  function InstanceAddress(r: Group, i: Instance): Option<string> {
    match i.index
    case NoIndex => Some(r.Address())
    case Rendered(t) => Some(Indexed(r.Address(), t))
    case Malformed => None
  }

  // ------------------------------------------------------------------ selection

  predicate Wanted(r: Group, i: Instance, want: set<string>) {
    r.Address() in want || (InstanceAddress(r, i).Some? && InstanceAddress(r, i).value in want)
  }

  function KeptInstances(r: Group, want: set<string>, n: nat): seq<Instance>
    requires n <= |r.instances|
  {
    if n == 0 then []
    else KeptInstances(r, want, n - 1) + if Wanted(r, r.instances[n - 1], want) then [r.instances[n - 1]] else []
  }

  lemma {:induction false} KeptAreWanted(r: Group, want: set<string>, n: nat)
    requires n <= |r.instances|
    ensures forall i :: multiset(KeptInstances(r, want, n))[i] ==
                        if Wanted(r, i, want) then multiset(r.instances[..n])[i] else 0
  {
    if n > 0 {
      KeptAreWanted(r, want, n - 1);
      assert r.instances[..n] == r.instances[..n - 1] + [r.instances[n - 1]];
    }
  }

  /** What the delta carries of one group. */
  function Selected(r: Group, want: set<string>): seq<Group> {
    if r.Address() in want then [r]
    else
      var kept := KeptInstances(r, want, |r.instances|);
      if kept == [] then [] else [r.(instances := kept)]
  }

  function SelectedAll(rs: seq<Group>, want: set<string>): seq<Group> {
    if rs == [] then [] else SelectedAll(rs[..|rs| - 1], want) + Selected(rs[|rs| - 1], want)
  }

  /** An instance address of this group must be derived, and one has a malformed index. */
  predicate Stuck(r: Group, want: set<string>) {
    r.Address() !in want && exists i :: i in r.instances && i.index.Malformed?
  }

  predicate Underivable(rs: seq<Group>, want: set<string>) {
    exists r :: r in rs && Stuck(r, want)
  }

  /** `selectSliceResources`; `None` is the error return. */
  method SelectSliceResources(rs: seq<Group>, writeSet: seq<string>) returns (out: Option<seq<Group>>)
    ensures out.None? <==> writeSet != [] && Underivable(rs, Elements(writeSet))
    ensures out.Some? ==> out.value == if writeSet == [] then [] else SelectedAll(rs, Elements(writeSet))
  {
    if writeSet == [] { return Some([]); }
    var want := Elements(writeSet);
    var acc: seq<Group> := [];
    for n := 0 to |rs|
      invariant acc == SelectedAll(rs[..n], want)
      invariant !Underivable(rs[..n], want)
    {
      SelectionOneMore(rs, n, want);
      var part := SelectGroup(rs[n], want);
      if part.None? { return None; }
      acc := acc + part.value;
    }
    assert rs[..|rs|] == rs;
    out := Some(acc);
  }

  lemma SelectionOneMore(rs: seq<Group>, n: nat, want: set<string>)
    requires n < |rs|
    ensures SelectedAll(rs[..n + 1], want) == SelectedAll(rs[..n], want) + Selected(rs[n], want)
    ensures Underivable(rs[..n + 1], want) <==> Underivable(rs[..n], want) || Stuck(rs[n], want)
    ensures Stuck(rs[n], want) ==> Underivable(rs, want)
  {
    assert rs[..n + 1][..n] == rs[..n];
    forall r ensures r in rs[..n + 1] <==> r in rs[..n] || r == rs[n] {
      assert rs[..n + 1] == rs[..n] + [rs[n]];
    }
    assert rs[n] in rs;
  }

  /** The body of its loop. */
  method SelectGroup(r: Group, want: set<string>) returns (part: Option<seq<Group>>)
    ensures part.None? <==> Stuck(r, want)
    ensures part.Some? ==> part.value == Selected(r, want)
  {
    if r.Address() in want { return Some([r]); }
    var kept := KeepInstances(r, want);
    if kept.None? { return None; }
    part := Some(if kept.value == [] then [] else [r.(instances := kept.value)]);
  }

  method KeepInstances(r: Group, want: set<string>) returns (kept: Option<seq<Instance>>)
    requires r.Address() !in want
    ensures kept.None? <==> exists i :: i in r.instances && i.index.Malformed?
    ensures kept.Some? ==> kept.value == KeptInstances(r, want, |r.instances|)
  {
    var acc: seq<Instance> := [];
    for n := 0 to |r.instances|
      invariant acc == KeptInstances(r, want, n)
      invariant forall k :: 0 <= k < n ==> !r.instances[k].index.Malformed?
    {
      var addr := InstanceAddress(r, r.instances[n]);
      if addr.None? {
        assert r.instances[n] in r.instances;
        return None;
      }
      if addr.value in want {
        acc := acc + [r.instances[n]];
      }
    }
    kept := Some(acc);
  }

  /** The write set names the group, or the instance: the group address with the rendered index
      in brackets. */
  predicate NamedIn(r: Group, i: Instance, want: set<string>) {
    || r.header.Address() in want
    || (i.index.Rendered? && r.header.Address() + "[" + i.index.text + "]" in want)
  }

  lemma WantedIsNamed(r: Group, i: Instance, want: set<string>)
    ensures Wanted(r, i, want) <==> NamedIn(r, i, want)
  {
  }

  /** `d` is what the delta carries of `r`: the header, exactly the named instances, each as
      often as in `r`, and at least one unless the group itself is named. */
  ghost predicate Stems(d: Group, r: Group, want: set<string>) {
    && r.header == d.header
    && (forall i :: multiset(d.instances)[i] == if NamedIn(r, i, want) then multiset(r.instances)[i] else 0)
    && (r.Address() in want || d.instances != [])
  }

  /** A post-apply instance is in the delta exactly when its exact or group address is in the
      exact write set; a group that is named itself comes whole; and the delta carries nothing
      else. */
  lemma DeltaIsExact(rs: seq<Group>, want: set<string>)
    ensures forall r :: r in rs && r.header.Address() in want ==> r in SelectedAll(rs, want)
    ensures forall r, i :: r in rs && i in r.instances && NamedIn(r, i, want) ==>
              exists d :: d in SelectedAll(rs, want) && d.header == r.header && i in d.instances
    ensures forall d :: d in SelectedAll(rs, want) ==> exists r :: r in rs && Stems(d, r, want)
  {
    forall r | r in rs && r.header.Address() in want ensures r in SelectedAll(rs, want) {
      NamedIsCarried(rs, want, r);
    }
    forall r, i | r in rs && i in r.instances && NamedIn(r, i, want)
      ensures exists d :: d in SelectedAll(rs, want) && d.header == r.header && i in d.instances
    {
      WantedIsNamed(r, i, want);
      var d := WantedIsCarried(rs, want, r, i);
    }
    forall d | d in SelectedAll(rs, want) ensures exists r :: r in rs && Stems(d, r, want) {
      var r := CarriedStems(rs, want, d);
    }
  }

  /** The delta keeps the order of the groups, and each group the order of its instances. */
  lemma {:induction false} DeltaKeepsOrder(rs: seq<Group>, later: seq<Group>, want: set<string>)
    ensures SelectedAll(rs + later, want) == SelectedAll(rs, want) + SelectedAll(later, want)
  {
    if later == [] {
      assert rs + later == rs;
    } else {
      var front, last := later[..|later| - 1], later[|later| - 1];
      assert (rs + later)[..|rs + later| - 1] == rs + front;
      DeltaKeepsOrder(rs, front, want);
    }
  }

  lemma {:induction false} KeptInOrder(r: Group, want: set<string>, m: nat, n: nat)
    requires m <= n <= |r.instances|
    ensures KeptInstances(r, want, m) <= KeptInstances(r, want, n)
  {
    if m < n {
      KeptInOrder(r, want, m, n - 1);
    }
  }

  lemma {:induction false} NamedIsCarried(rs: seq<Group>, want: set<string>, r: Group)
    requires r in rs && r.header.Address() in want
    ensures r in SelectedAll(rs, want)
  {
    var front, last := rs[..|rs| - 1], rs[|rs| - 1];
    assert rs == front + [last];
    if r in front {
      NamedIsCarried(front, want, r);
    }
  }

  lemma {:induction false} WantedIsCarried(rs: seq<Group>, want: set<string>, r: Group, i: Instance) returns (d: Group)
    requires r in rs && i in r.instances && Wanted(r, i, want)
    ensures d in SelectedAll(rs, want) && d.header == r.header && i in d.instances
  {
    var front, last := rs[..|rs| - 1], rs[|rs| - 1];
    if r in front {
      d := WantedIsCarried(front, want, r, i);
    } else {
      assert rs == front + [last] && r == last;
      SelectedIsExact(last, want);
      d :| d in Selected(last, want) && d.header == r.header && i in d.instances;
    }
  }

  lemma {:induction false} CarriedStems(rs: seq<Group>, want: set<string>, d: Group) returns (r: Group)
    requires d in SelectedAll(rs, want)
    ensures r in rs && Stems(d, r, want)
  {
    var front, last := rs[..|rs| - 1], rs[|rs| - 1];
    if d in SelectedAll(front, want) {
      r := CarriedStems(front, want, d);
    } else {
      SelectedIsExact(last, want);
      r := last;
    }
  }

  lemma SelectedIsExact(r: Group, want: set<string>)
    ensures forall i :: i in r.instances && Wanted(r, i, want) ==>
              exists d :: d in Selected(r, want) && d.header == r.header && i in d.instances
    ensures forall d :: d in Selected(r, want) ==> Stems(d, r, want)
  {
    assert r.instances[..|r.instances|] == r.instances;
    KeptAreWanted(r, want, |r.instances|);
    var kept := KeptInstances(r, want, |r.instances|);
    forall i ensures Wanted(r, i, want) <==> NamedIn(r, i, want) {
      WantedIsNamed(r, i, want);
    }
    forall i | i in r.instances && Wanted(r, i, want)
      ensures exists d :: d in Selected(r, want) && d.header == r.header && i in d.instances
    {
      if r.Address() in want {
        assert r in Selected(r, want);
      } else {
        assert i in multiset(kept);
        assert r.(instances := kept) in Selected(r, want);
      }
    }
  }

  // ------------------------------------------------------------------ validation

  datatype Verdict =
    | Accepted
    | NoSpec
    | NoIntent
    | WritesDiffer(missing: seq<string>, extra: seq<string>)
    | DeleteOutsideWrite(addr: string)

  /** `validateTrustedStateEngineIntent`; a nil spec or intent is `None`. */
  method ValidateTrustedIntent(specWrites: Option<seq<string>>, exactWrites: Option<seq<string>>, deletes: seq<string>)
    returns (v: Verdict)
    ensures v.NoSpec? <==> specWrites.None?
    ensures v.NoIntent? <==> specWrites.Some? && exactWrites.None?
    ensures v.WritesDiffer? <==>
              specWrites.Some? && exactWrites.Some? && Groups(specWrites.value) != Groups(exactWrites.value)
    ensures v.WritesDiffer? ==>
              && Ascending(v.missing) && Elements(v.missing) == Groups(specWrites.value) - Groups(exactWrites.value)
              && Ascending(v.extra) && Elements(v.extra) == Groups(exactWrites.value) - Groups(specWrites.value)
    ensures v.Accepted? <==>
              && specWrites.Some? && exactWrites.Some?
              && Groups(specWrites.value) == Groups(exactWrites.value)
              && forall a :: a in deletes && a != "" ==> a in Groups(exactWrites.value)
    ensures v.DeleteOutsideWrite? ==> v.addr in deletes && v.addr != "" && v.addr !in Groups(exactWrites.value)
  {
    if specWrites.None? { return NoSpec; }
    if exactWrites.None? { return NoIntent; }
    var want, got := Groups(specWrites.value), Groups(exactWrites.value);
    var missing := SortedSetKeys(want - got);
    var extra := SortedSetKeys(got - want);
    ElementsOfEmpty(missing);
    ElementsOfEmpty(extra);
    if missing != [] || extra != [] {
      assert want != got;
      return WritesDiffer(missing, extra);
    }
    assert want == got;
    for i := 0 to |deletes|
      invariant forall k :: 0 <= k < i && deletes[k] != "" ==> deletes[k] in got
    {
      if deletes[i] != "" && deletes[i] !in got {
        assert deletes[i] in deletes;
        return DeleteOutsideWrite(deletes[i]);
      }
    }
    return Accepted;
  }

  /** The writes name the group itself, or one of its instances by a rendered index without an
      opening bracket. */
  ghost predicate Named(group: string, writes: seq<string>) {
    group in writes || exists k :: Indexed(group, k) in writes && '[' !in k
  }

  /** What a group of the write set is: an address the writes name, once index stripping is
      taken as the code has it. */
  lemma GroupIffNamed(group: string, writes: seq<string>)
    requires StripIndex(group) == group
    ensures group in Groups(writes) <==> Named(group, writes)
  {
    if group in Groups(writes) && group !in writes {
      var a :| a in writes && StripIndex(a) == group;
      var open := |group|;
      assert a[open] == '[' && a[|a| - 1] == ']';
      var key := a[open + 1..|a| - 1];
      assert a == Indexed(group, key);
      StripIndexOfInstance(group, key);
    }
    if k :| Indexed(group, k) in writes && '[' !in k {
      StripIndexOfInstance(group, k);
    }
  }

  /** Every selected instance whose rendered index holds an opening bracket belongs to a group
      the writes name otherwise. */
  ghost predicate BracketsAreNamed(rs: seq<Group>, writes: seq<string>) {
    forall r, i :: (r in rs && i in r.instances && i.index.Rendered? && '[' in i.index.text
                    && Indexed(r.Address(), i.index.text) in writes) ==>
                     Named(r.Address(), writes)
  }

  /** Confinement, exactly.  After an accepted intent, every group in the delta is one the plan
      spec meant to write if and only if no group is selected through bracketed keys alone.
      Group addresses carry no index of their own, so stripping leaves them as they are. */
  lemma AcceptedDeltaIsConfined(rs: seq<Group>, specWrites: seq<string>, exactWrites: seq<string>)
    requires Groups(specWrites) == Groups(exactWrites)
    requires forall r :: r in rs ==> StripIndex(r.Address()) == r.Address()
    ensures (forall d :: d in SelectedAll(rs, Elements(exactWrites)) ==> d.Address() in Groups(specWrites)) <==>
            BracketsAreNamed(rs, exactWrites)
  {
    var want := Elements(exactWrites);
    var delta := SelectedAll(rs, want);
    DeltaIsExact(rs, want);
    if forall d :: d in delta ==> d.Address() in Groups(specWrites) {
      forall r, i | r in rs && i in r.instances && i.index.Rendered? && '[' in i.index.text
                    && Indexed(r.Address(), i.index.text) in exactWrites
        ensures Named(r.Address(), exactWrites)
      {
        assert NamedIn(r, i, want);
        var d :| d in delta && d.header == r.header && i in d.instances;
        GroupIffNamed(r.Address(), exactWrites);
      }
    }
    if BracketsAreNamed(rs, exactWrites) {
      forall d | d in delta ensures d.Address() in Groups(specWrites) {
        SelectedIsNamed(rs, exactWrites, d);
        GroupIffNamed(d.Address(), exactWrites);
      }
    }
  }

  lemma SelectedIsNamed(rs: seq<Group>, writes: seq<string>, d: Group)
    requires BracketsAreNamed(rs, writes) && d in SelectedAll(rs, Elements(writes))
    ensures Named(d.Address(), writes) && exists r :: r in rs && r.header == d.header
  {
    var r := CarriedStems(rs, Elements(writes), d);
    if r.Address() !in writes {
      var i := d.instances[0];
      assert i in multiset(d.instances);
      assert NamedIn(r, i, Elements(writes));
      assert i in multiset(r.instances) && Indexed(r.Address(), i.index.text) in writes;
    }
  }

  /** A plan that writes one instance under a bracketed key: the intent is accepted, and the
      delta still carries a group the plan's write groups do not have. */
  lemma BracketedKeyEscapesThePlan(header: Resource, key: string, attributes: string)
    requires StripIndex(header.Address()) == header.Address() && '[' in key
    ensures var rs := [Group(header, [Instance(Rendered(key), attributes)])];
            var writes := [Indexed(header.Address(), key)];
            exists d :: d in SelectedAll(rs, Elements(writes)) && d.Address() !in Groups(writes)
  {
    var r := Group(header, [Instance(Rendered(key), attributes)]);
    var rs, writes := [r], [Indexed(header.Address(), key)];
    var i := r.instances[0];
    assert r in rs && i in r.instances && Indexed(r.Address(), i.index.text) in writes;
    forall k ensures Indexed(r.Address(), k) == writes[0] ==> k == key {
      IndexedInjective(r.Address(), k, key);
    }
    AcceptedDeltaIsConfined(rs, writes, writes);
  }

  predicate EndsInBracket(a: string) {
    a != "" && a[|a| - 1] == ']'
  }

  /** Validation compares the delete set, which is exact, with the write groups.  For deletes
      taken from the exact write set, and groups that end in no bracket, the intent passes
      exactly when no delete names an instance: deleting one instance of a `count` or
      `for_each` resource is always refused on this path. */
  lemma DeletesPassIffWholeGroups(specWrites: seq<string>, exactWrites: seq<string>, deletes: seq<string>)
    requires Groups(specWrites) == Groups(exactWrites)
    requires forall a :: a in deletes ==> a in exactWrites && a != ""
    requires forall g :: g in Groups(exactWrites) ==> !EndsInBracket(g)
    ensures (forall a :: a in deletes && a != "" ==> a in Groups(exactWrites)) <==>
            (forall a :: a in deletes ==> !EndsInBracket(a))
  {
    forall a | a in deletes && !EndsInBracket(a) ensures a in Groups(exactWrites) {
      assert StripIndex(a) == a;
      assert a in exactWrites;
    }
  }

  // ---------------------------------------------------------------- output delta

  datatype Output = Output(value: string, typ: string, sensitive: bool)

  type Outputs = map<string, Output>

  /** What the store does with an output delta. */
  function ApplyOutputDelta(trunk: Outputs, writes: Outputs, deletes: seq<string>): Outputs {
    (trunk - Elements(deletes)) + writes
  }

  /** `detectOutputDelta`; `enc` is the canonical JSON encoding of an output. */
  method DetectOutputDelta(trunk: Outputs, post: Outputs, enc: Output -> string)
    returns (writes: Outputs, deletes: seq<string>)
    ensures writes.Keys == set n | n in post && (n !in trunk || enc(trunk[n]) != enc(post[n]))
    ensures forall n :: n in writes ==> writes[n] == post[n]
    ensures Ascending(deletes) && Elements(deletes) == trunk.Keys - post.Keys - {""}
  {
    writes := map[];
    var todo := post.Keys;
    while todo != {}
      invariant todo <= post.Keys
      invariant writes.Keys == set n | n in post.Keys - todo && (n !in trunk || enc(trunk[n]) != enc(post[n]))
      invariant forall n :: n in writes ==> writes[n] == post[n]
    {
      var n :| n in todo;
      todo := todo - {n};
      if n !in trunk {
        writes := writes[n := post[n]];
      } else if enc(trunk[n]) != enc(post[n]) {
        writes := writes[n := post[n]];
      }
    }
    var list: seq<string> := [];
    todo := trunk.Keys;
    while todo != {}
      invariant todo <= trunk.Keys
      invariant Elements(list) == trunk.Keys - todo - post.Keys
    {
      var n :| n in todo;
      todo := todo - {n};
      if n !in post {
        assert Elements(list + [n]) == Elements(list) + {n};
        list := list + [n];
      }
    }
    deletes := DedupeSortedStrings(list);
  }

  /** Applying the output delta to the trunk outputs yields the post-apply outputs up to
      canonical encoding.  (An output named by the empty string, which Terraform does not
      allow, would never be deleted.) */
  lemma OutputDeltaIsExact(trunk: Outputs, post: Outputs, enc: Output -> string, writes: Outputs, deletes: seq<string>)
    requires writes.Keys == set n | n in post && (n !in trunk || enc(trunk[n]) != enc(post[n]))
    requires forall n :: n in writes ==> writes[n] == post[n]
    requires Elements(deletes) == trunk.Keys - post.Keys - {""}
    ensures var r := ApplyOutputDelta(trunk, writes, deletes);
            && r.Keys == post.Keys + (trunk.Keys * {""})
            && forall n :: n in post ==> enc(r[n]) == enc(post[n])
  {
    var r := ApplyOutputDelta(trunk, writes, deletes);
    forall n ensures n in r <==> n in post.Keys + (trunk.Keys * {""}) {
      assert n in writes <==> n in post && (n !in trunk || enc(trunk[n]) != enc(post[n]));
    }
    forall n | n in post ensures enc(r[n]) == enc(post[n]) {
      assert n in writes <==> n !in trunk || enc(trunk[n]) != enc(post[n]);
    }
  }
}
