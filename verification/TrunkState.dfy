/** The state document at the resolution the orchestrator works with
    (internal/slice/slice.go). */
module TrunkState {
  import opened Ordering
  import opened Json

  /** One row of `resources[]`; it holds every instance of one resource group. */
  datatype Resource = Resource(
    modulePath: string, mode: string, rtype: string, name: string,
    provider: string, each: string, instances: RawField)
  {
    /** The group address: no instance index. */
    function Address(): string {
      (if modulePath != "" then modulePath + "." else "")
      + (if mode == "data" then "data." else "")
      + rtype + "." + name
    }
  }

  datatype State = State(
    version: int, terraformVersion: string, serial: int, lineage: string,
    outputs: RawField, checkResults: RawField, resources: seq<Resource>)

  /** Group address to row. */
  type Rows = map<string, Resource>

  predicate WellKeyed(m: Rows) {
    forall a :: a in m ==> m[a].Address() == a
  }

  function At(m: Rows, a: string): Option<Resource> {
    if a in m then Some(m[a]) else None
  }

  /** `stripIndex`: drop the last bracket segment of an address that ends in one. */
  function StripIndex(addr: string): string {
    if addr == "" || addr[|addr| - 1] != ']' then addr
    else
      var i := LastOpen(addr, |addr| - 1);
      if i < 0 then addr else addr[..i]
  }

  /** The largest index at most `i` holding an opening bracket, or -1. */
  function LastOpen(addr: string, i: int): (r: int)
    requires -1 <= i < |addr|
    ensures -1 <= r <= i
    ensures r >= 0 ==> addr[r] == '['
    ensures forall k :: r < k <= i ==> addr[k] != '['
    decreases i + 1
  {
    if i < 0 then -1 else if addr[i] == '[' then i else LastOpen(addr, i - 1)
  }

  /** `IndexFootprintByGroup`. */
  function Groups(addrs: seq<string>): set<string> {
    set a | a in addrs :: StripIndex(a)
  }

  /** The address of one instance of a group: `group[key]`. */
  function Indexed(group: string, key: string): string {
    group + "[" + key + "]"
  }

  /** Stripping an instance address gives back its group exactly when the rendered index
      holds no opening bracket; a `for_each` key such as `"a[0]"` is cut inside the key. */
  lemma StripIndexOfInstance(group: string, key: string)
    ensures StripIndex(Indexed(group, key)) == group <==> '[' !in key
    ensures group <= StripIndex(Indexed(group, key))
  {
    var addr := Indexed(group, key);
    var i := LastOpen(addr, |addr| - 1);
    IndexedAt(group, key);
    assert i >= |group|;
    if '[' in key {
      var k :| 0 <= k < |key| && key[k] == '[';
      assert addr[|group| + 1 + k] == '[';
      assert |addr[..i]| > |group|;
    } else {
      assert i == |group|;
    }
    assert addr[..|group|] == group;
  }

  lemma IndexedAt(group: string, key: string)
    ensures var addr := Indexed(group, key);
            && |addr| == |group| + |key| + 2 && addr[|group|] == '[' && addr[|addr| - 1] == ']'
            && forall k :: |group| < k < |addr| - 1 ==> addr[k] == key[k - |group| - 1]
  {
  }

  lemma IndexedInjective(group: string, key: string, other: string)
    ensures Indexed(group, key) == Indexed(group, other) ==> key == other
  {
    var v, w := Indexed(group, key), Indexed(group, other);
    assert v[|group| + 1..|v| - 1] == key && w[|group| + 1..|w| - 1] == other;
  }

  /** What stripping does to any address: it drops a last bracket segment, and nothing else. */
  lemma StripIndexDropsLastIndex(addr: string)
    ensures forall g, k :: addr == g + "[" + k + "]" && '[' !in k ==> StripIndex(addr) == g
    ensures (forall g, k :: addr == g + "[" + k + "]" ==> '[' in k) ==> StripIndex(addr) == addr
  {
    forall g, k | addr == g + "[" + k + "]" && '[' !in k ensures StripIndex(addr) == g {
      StripIndexOfInstance(g, k);
    }
    if StripIndex(addr) != addr {
      var i := LastOpen(addr, |addr| - 1);
      var g, k := addr[..i], addr[i + 1..|addr| - 1];
      assert forall j :: 0 <= j < |k| ==> k[j] == addr[i + 1 + j];
      assert addr == g + "[" + k + "]" && '[' !in k;
    }
  }

  /** `indexResourcesByAddress`: the last row with a given address wins. */
  function Index(rs: seq<Resource>): (m: Rows)
    ensures WellKeyed(m)
  {
    if rs == [] then map[]
    else
      var last := rs[|rs| - 1];
      Index(rs[..|rs| - 1])[last.Address() := last]
  }

  lemma {:induction false} IndexKeys(rs: seq<Resource>)
    ensures Index(rs).Keys == set r | r in rs :: r.Address()
    ensures forall a :: a in Index(rs) ==> Index(rs)[a] in rs
  {
    if rs != [] {
      var front, last := rs[..|rs| - 1], rs[|rs| - 1];
      assert rs == front + [last];
      IndexKeys(front);
      assert forall r :: r in rs <==> r in front || r == last;
    }
  }

  /** Of the rows with one address, row `i` is the last. */
  predicate LastAt(rs: seq<Resource>, i: int) {
    0 <= i < |rs| && forall j :: i < j < |rs| ==> rs[j].Address() != rs[i].Address()
  }

  /** The last row with an address is the one that is found under it. */
  lemma {:induction false} IndexFindsLast(rs: seq<Resource>)
    ensures forall i :: LastAt(rs, i) ==> At(Index(rs), rs[i].Address()) == Some(rs[i])
    ensures forall a :: a in Index(rs) ==> exists i :: LastAt(rs, i) && rs[i].Address() == a
  {
    if rs != [] {
      var front, last := rs[..|rs| - 1], rs[|rs| - 1];
      assert rs == front + [last];
      IndexFindsLast(front);
      forall i | LastAt(rs, i) ensures At(Index(rs), rs[i].Address()) == Some(rs[i]) {
        if i < |front| {
          assert LastAt(front, i) && rs[|front|].Address() != rs[i].Address();
        }
      }
      forall a | a in Index(rs) ensures exists i :: LastAt(rs, i) && rs[i].Address() == a {
        if a == last.Address() {
          assert LastAt(rs, |front|);
        } else {
          var i :| LastAt(front, i) && front[i].Address() == a;
          assert LastAt(rs, i);
        }
      }
    }
  }

  method IndexResourcesByAddress(rs: seq<Resource>) returns (m: Rows)
    ensures m == Index(rs)
  {
    m := map[];
    for i := 0 to |rs|
      invariant m == Index(rs[..i])
    {
      assert rs[..i + 1][..i] == rs[..i];
      m := m[rs[i].Address() := rs[i]];
    }
    assert rs[..|rs|] == rs;
  }

  /** `slice.Build` on rows: the rows whose group is in the footprint. */
  function Restrict(m: Rows, footprint: set<string>): (r: Rows) {
    map a | a in m && a in footprint :: m[a]
  }

  /** The rows `slice.Build` keeps, in document order. */
  function Keep(rs: seq<Resource>, footprint: set<string>): seq<Resource> {
    if rs == [] then []
    else
      var last := rs[|rs| - 1];
      Keep(rs[..|rs| - 1], footprint) + if last.Address() in footprint then [last] else []
  }

  lemma IndexAppend(rs: seq<Resource>, r: Resource)
    ensures Index(rs + [r]) == Index(rs)[r.Address() := r]
  {
    assert (rs + [r])[..|rs|] == rs;
  }

  lemma RestrictUpdate(m: Rows, a: string, r: Resource, footprint: set<string>)
    ensures Restrict(m[a := r], footprint) ==
            if a in footprint then Restrict(m, footprint)[a := r] else Restrict(m, footprint)
  {
  }

  /** Slicing a document slices its rows. */
  lemma {:induction false} IndexOfSlice(rs: seq<Resource>, footprint: set<string>)
    ensures Index(Keep(rs, footprint)) == Restrict(Index(rs), footprint)
  {
    if rs != [] {
      var front, last := rs[..|rs| - 1], rs[|rs| - 1];
      IndexOfSlice(front, footprint);
      IndexAppend(Keep(front, footprint), last);
      RestrictUpdate(Index(front), last.Address(), last, footprint);
      assert Keep(front, footprint) + [] == Keep(front, footprint);
    }
  }

  /** A slice holds the rows of the footprint, each as often as the document does and in its
      order. */
  lemma {:induction false} SliceHoldsFootprint(rs: seq<Resource>, footprint: set<string>)
    ensures forall r :: multiset(Keep(rs, footprint))[r] ==
                        if r.Address() in footprint then multiset(rs)[r] else 0
    ensures forall i :: 0 <= i <= |rs| ==> Keep(rs[..i], footprint) <= Keep(rs, footprint)
  {
    if rs != [] {
      var front, last := rs[..|rs| - 1], rs[|rs| - 1];
      assert rs == front + [last];
      SliceHoldsFootprint(front, footprint);
      forall i | 0 <= i <= |rs| ensures Keep(rs[..i], footprint) <= Keep(rs, footprint) {
        if i < |rs| {
          assert rs[..i] == front[..i];
        } else {
          assert rs[..i] == rs;
        }
      }
    }
  }

  method Build(trunk: State, footprint: set<string>) returns (out: State)
    ensures out == trunk.(resources := Keep(trunk.resources, footprint))
  {
    var rs, kept := trunk.resources, [];
    for i := 0 to |rs|
      invariant kept == Keep(rs[..i], footprint)
    {
      assert rs[..i + 1][..i] == rs[..i];
      if rs[i].Address() in footprint {
        kept := kept + [rs[i]];
      }
    }
    assert rs[..|rs|] == rs;
    out := trunk.(resources := kept);
  }

  function Addresses(rs: seq<Resource>): (s: seq<string>)
    ensures |s| == |rs| && forall i :: 0 <= i < |rs| ==> s[i] == rs[i].Address()
  {
    seq(|rs|, i requires 0 <= i < |rs| => rs[i].Address())
  }

  /** `rs` enumerates the rows `m` in ascending address order. */
  predicate Lists(rs: seq<Resource>, m: Rows) {
    && Ascending(Addresses(rs))
    && (forall r :: r in rs ==> r.Address() in m && m[r.Address()] == r)
    && (forall a :: a in m ==> m[a] in rs)
  }

  /** Parsing back a listed document recovers the rows. */
  lemma IndexOfListing(rs: seq<Resource>, m: Rows)
    requires WellKeyed(m) && Lists(rs, m)
    ensures Index(rs) == m
  {
    AscendingIsDistinct(Addresses(rs));
    DistinctIndex(rs);
    IndexKeys(rs);
    forall a | a in m ensures a in Index(rs) && Index(rs)[a] == m[a] {
      assert m[a] in rs;
    }
    forall a | a in Index(rs) ensures a in m {
      var r :| r in rs && r.Address() == a;
    }
  }

  lemma {:induction false} DistinctIndex(rs: seq<Resource>)
    requires Distinct(Addresses(rs))
    ensures forall r :: r in rs ==> At(Index(rs), r.Address()) == Some(r)
  {
    IndexKeys(rs);
    if rs != [] {
      var front, last := rs[..|rs| - 1], rs[|rs| - 1];
      assert rs == front + [last];
      assert forall i :: 0 <= i < |front| ==> Addresses(front)[i] == Addresses(rs)[i];
      DistinctIndex(front);
      forall r | r in rs ensures At(Index(rs), r.Address()) == Some(r) {
        if r in front {
          var i :| 0 <= i < |front| && front[i] == r;
          assert Addresses(rs)[i] != Addresses(rs)[|rs| - 1];
        }
      }
    }
  }
}
