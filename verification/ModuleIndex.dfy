/** The module index of a graph snapshot (internal/backend/state_engine_graph_cache.go:172-226).
    Module paths and addresses are taken as already trimmed. */
module ModuleIndex {
  import opened Ordering
  import opened ScopeExpand

  datatype Resource = Resource(address: string, modulePath: string)

  const HEAD := "module"
  const PREFIX := "module."

  /** `strings.Split(s, ".")`. */
  function Split(s: string): (parts: seq<string>)
    ensures parts != []
  {
    if s == "" then [""]
    else if s[0] == '.' then [""] + Split(s[1..])
    else
      var rest := Split(s[1..]);
      [[s[0]] + rest[0]] + rest[1..]
  }

  /** `strings.Join(parts, ".")`. */
  function Join(parts: seq<string>): string {
    if parts == [] then "" else if |parts| == 1 then parts[0] else parts[0] + "." + Join(parts[1..])
  }

  /** The first `k` pairs of segments are module calls. */
  predicate Calls(parts: seq<string>, k: nat) {
    2 * k <= |parts| && forall j :: 0 <= j < k ==> parts[2 * j] == HEAD
  }

  /** Every enclosing module of a path, itself included. */
  function Prefixes(path: string): set<string> {
    var parts := Split(path);
    if PREFIX <= path then set k | 1 <= k <= |parts| && Calls(parts, k) :: Join(parts[..2 * k]) else {}
  }

  /** `modulePrefixFromAddress`: the leading module calls of an address. */
  function PathOf(r: Resource): string {
    if r.modulePath != "" then r.modulePath
    else if PREFIX <= r.address then Join(LeadingCalls(Split(r.address)))
    else ""
  }

  function LeadingCalls(parts: seq<string>): (r: seq<string>)
    ensures r <= parts && |r| % 2 == 0 && Calls(parts, |r| / 2)
    ensures !Calls(parts, |r| / 2 + 1)
  {
    if |parts| < 2 || parts[0] != HEAD then
      NoCalls(parts);
      []
    else
      var rest := LeadingCalls(parts[2..]);
      CallsShift(parts, |rest| / 2);
      CallsShift(parts, |rest| / 2 + 1);
      parts[..2] + rest
  }

  lemma NoCalls(parts: seq<string>)
    requires |parts| < 2 || parts[0] != HEAD
    ensures !Calls(parts, 1)
  {
    assert 2 * 0 == 0;
    if |parts| >= 2 {
      assert parts[2 * 0] != HEAD;
    }
  }

  lemma CallsShift(parts: seq<string>, k: nat)
    requires |parts| >= 2 && parts[0] == HEAD
    ensures Calls(parts, k + 1) <==> Calls(parts[2..], k)
  {
    if Calls(parts, k + 1) {
      forall j | 0 <= j < k ensures parts[2..][2 * j] == HEAD {
        assert parts[2 * (j + 1)] == HEAD;
      }
    }
    if Calls(parts[2..], k) {
      forall j | 0 <= j < k + 1 ensures parts[2 * j] == HEAD {
        if j > 0 { assert parts[2..][2 * (j - 1)] == HEAD; }
      }
    }
  }

  /** A full scan: the resources inside the module `prefix`. */
  function Scan(rs: seq<Resource>, prefix: string): set<string> {
    set r | r in rs && prefix in Prefixes(PathOf(r)) :: r.address
  }

  /** `expandModulePathPrefixes`, before deduplication. */
  method ExpandPrefixes(path: string) returns (out: set<string>)
    ensures out == Prefixes(path)
  {
    out := {};
    if !(PREFIX <= path) { return; }
    var parts := Split(path);
    var i := 0;
    while 2 * i + 1 < |parts| && parts[2 * i] == HEAD
      invariant Calls(parts, i)
      invariant out == set k | 1 <= k <= i && Calls(parts, k) :: Join(parts[..2 * k])
    {
      out := out + {Join(parts[..2 * (i + 1)])};
      i := i + 1;
    }
    assert !Calls(parts, i + 1);
    assert forall k: nat :: Calls(parts, k) && k >= i + 1 ==> Calls(parts, i + 1);
  }

  ghost predicate Indexes(rs: seq<Resource>, index: map<string, seq<string>>) {
    && (forall p :: p in index ==> Elements(index[p]) == Scan(rs, p))
    && (forall p :: p !in index ==> Scan(rs, p) == {})
  }

  lemma ScanOneMore(rs: seq<Resource>, r: Resource, p: string)
    ensures Scan(rs + [r], p) == Scan(rs, p) + (if p in Prefixes(PathOf(r)) then {r.address} else {})
  {
    assert forall x :: x in rs + [r] <==> x in rs || x == r;
  }

  /** `buildStateEngineModuleMembers`: looking a module up gives what a full scan gives. */
  method BuildModuleMembers(rs: seq<Resource>) returns (members: map<string, seq<string>>)
    requires forall r :: r in rs ==> r.address != ""
    ensures Indexes(rs, members)
    ensures forall p :: p in members ==> Ascending(members[p])
  {
    var raw: map<string, seq<string>> := map[];
    for i := 0 to |rs|
      invariant Indexes(rs[..i], raw)
    {
      var prefixes := ExpandPrefixes(PathOf(rs[i]));
      assert rs[..i + 1] == rs[..i] + [rs[i]];
      raw := AddToAll(rs[..i], rs[i], raw, prefixes);
    }
    assert rs[..|rs|] == rs;
    members := map[];
    var todo := raw.Keys;
    while todo != {}
      invariant todo <= raw.Keys && members.Keys == raw.Keys - todo
      invariant forall p :: p in members ==> Ascending(members[p]) && Elements(members[p]) == Scan(rs, p)
    {
      var p :| p in todo;
      todo := todo - {p};
      var list := DedupeSortedStrings(raw[p]);
      assert "" !in Scan(rs, p);
      members := members[p := list];
    }
  }

  method AddToAll(ghost rs: seq<Resource>, r: Resource, raw0: map<string, seq<string>>, prefixes: set<string>)
    returns (raw: map<string, seq<string>>)
    requires Indexes(rs, raw0) && prefixes == Prefixes(PathOf(r))
    ensures Indexes(rs + [r], raw)
  {
    raw := raw0;
    var todo := prefixes;
    while todo != {}
      invariant todo <= prefixes
      invariant PartlyAdded(rs, r, prefixes - todo, raw)
    {
      var p :| p in todo;
      AddOne(rs, r, prefixes - todo, raw, p);
      assert prefixes - (todo - {p}) == prefixes - todo + {p};
      todo := todo - {p};
      raw := raw[p := (if p in raw then raw[p] else []) + [r.address]];
    }
    assert prefixes - todo == prefixes;
    forall p ensures Scan(rs + [r], p) == Scan(rs, p) + (if p in prefixes then {r.address} else {}) {
      ScanOneMore(rs, r, p);
    }
  }

  /** `r` has been added under the prefixes `done`. */
  ghost predicate PartlyAdded(rs: seq<Resource>, r: Resource, done: set<string>, raw: map<string, seq<string>>) {
    && (forall p :: p in raw ==> Elements(raw[p]) == Scan(rs, p) + (if p in done then {r.address} else {}))
    && (forall p :: p !in raw ==> Scan(rs, p) == {} && p !in done)
  }

  lemma AddOne(rs: seq<Resource>, r: Resource, done: set<string>, raw: map<string, seq<string>>, p: string)
    requires PartlyAdded(rs, r, done, raw) && p !in done
    ensures PartlyAdded(rs, r, done + {p}, raw[p := (if p in raw then raw[p] else []) + [r.address]])
  {
    var list := if p in raw then raw[p] else [];
    assert Elements(list + [r.address]) == Elements(list) + {r.address};
    assert Elements(list) == Scan(rs, p);
  }

  // --------------------------------------------------------- modules by name

  predicate DotFree(parts: seq<string>) {
    forall k :: 0 <= k < |parts| ==> '.' !in parts[k]
  }

  /** The path of nested module calls: `module.a.module.b`. */
  function CallPath(names: seq<string>): string
  {
    if names == [] then ""
    else if |names| == 1 then "module." + names[0]
    else "module." + names[0] + "." + CallPath(names[1..])
  }

  /** `prefix` names a module that the path lies in, or is. */
  ghost predicate Encloses(prefix: string, path: string) {
    && (exists names :: names != [] && DotFree(names) && prefix == CallPath(names))
    && (path == prefix || prefix + "." <= path)
  }

  lemma {:induction false} SplitIsDotFree(s: string)
    ensures DotFree(Split(s)) && Join(Split(s)) == s
  {
    if s != "" {
      SplitIsDotFree(s[1..]);
      assert s == [s[0]] + s[1..];
      if s[0] != '.' {
        assert Split(s)[1..] == Split(s[1..])[1..];
      }
    }
  }

  /** Splitting where a dot-free part ends. */
  lemma {:induction false} SplitHead(part: string, rest: string)
    requires '.' !in part
    ensures Split(part) == [part]
    ensures Split(part + "." + rest) == [part] + Split(rest)
  {
    if part == "" {
      assert part + "." + rest == "." + rest && ("." + rest)[1..] == rest;
    } else {
      SplitHead(part[1..], rest);
      assert part[0] in part && part == [part[0]] + part[1..];
      assert (part + "." + rest)[1..] == part[1..] + "." + rest && (part + "." + rest)[0] == part[0];
    }
  }

  function Segments(names: seq<string>): seq<string> {
    if names == [] then [] else [HEAD, names[0]] + Segments(names[1..])
  }

  lemma {:induction false} SegmentsAreCalls(names: seq<string>)
    ensures |Segments(names)| == 2 * |names| && Calls(Segments(names), |names|)
    ensures DotFree(names) ==> DotFree(Segments(names))
  {
    if names != [] {
      SegmentsAreCalls(names[1..]);
      CallsShift(Segments(names), |names| - 1);
      assert Segments(names)[2..] == Segments(names[1..]);
    }
  }

  lemma JoinCall(name: string, rest: seq<string>)
    ensures Join([HEAD, name] + rest) == if rest == [] then "module." + name else "module." + name + "." + Join(rest)
  {
    var parts := [HEAD, name] + rest;
    assert parts[1..] == [name] + rest && parts[1..][1..] == rest;
    assert Join(parts) == HEAD + "." + Join(parts[1..]);
  }

  lemma {:induction false} CallPathIsJoined(names: seq<string>)
    requires names != []
    ensures CallPath(names) == Join(Segments(names))
  {
    JoinCall(names[0], Segments(names[1..]));
    SegmentsAreCalls(names[1..]);
    if |names| > 1 {
      CallPathIsJoined(names[1..]);
    }
  }

  lemma SplitLastCall(name: string)
    requires '.' !in name
    ensures Split("module." + name) == [HEAD, name]
  {
    assert "module." + name == HEAD + "." + name;
    SplitHead(HEAD, name);
    SplitHead(name, "");
  }

  lemma SplitCall(name: string, rest: string)
    requires '.' !in name
    ensures Split("module." + name + "." + rest) == [HEAD, name] + Split(rest)
  {
    Regroup("module." + name + "." + rest, name, rest);
    SplitHead(HEAD, name + "." + rest);
    SplitHead(name, rest);
  }

  lemma Regroup(path: string, name: string, rest: string)
    requires path == "module." + name + "." + rest
    ensures path == HEAD + "." + (name + "." + rest)
  {
  }

  lemma RegroupInner(call: string, inner: string, rest: string)
    ensures call + "." + inner + "." + rest == call + "." + (inner + "." + rest)
  {
  }

  /** Splitting a module path. */
  lemma {:induction false} SplitCallPath(names: seq<string>)
    requires names != [] && DotFree(names)
    ensures Split(CallPath(names)) == Segments(names)
  {
    if |names| == 1 {
      SplitLastCall(names[0]);
      assert Segments(names[1..]) == [];
    } else {
      SplitCallPath(names[1..]);
      SplitCall(names[0], CallPath(names[1..]));
    }
  }

  lemma Glue(a: seq<string>, b: seq<string>, c: seq<string>)
    ensures a + (b + c) == (a + b) + c
  {
  }

  /** Splitting what lies inside a module. */
  lemma {:induction false} SplitInside(names: seq<string>, rest: string)
    requires names != [] && DotFree(names)
    ensures Split(CallPath(names) + "." + rest) == Segments(names) + Split(rest)
  {
    if |names| == 1 {
      SplitCall(names[0], rest);
      assert Segments(names[1..]) == [];
      assert Segments(names) == [HEAD, names[0]];
    } else {
      SplitInside(names[1..], rest);
      SplitFurther(names[0], CallPath(names[1..]), rest, Segments(names[1..]));
    }
  }

  lemma SplitFurther(name: string, inner: string, rest: string, segments: seq<string>)
    requires '.' !in name && Split(inner + "." + rest) == segments + Split(rest)
    ensures Split("module." + name + "." + inner + "." + rest) == ([HEAD, name] + segments) + Split(rest)
  {
    RegroupInner("module." + name, inner, rest);
    SplitCall(name, inner + "." + rest);
    Glue([HEAD, name], segments, Split(rest));
  }

  function NamesOf(parts: seq<string>, k: nat): (names: seq<string>)
    requires 2 * k <= |parts|
    ensures |names| == k
  {
    if k == 0 then [] else [parts[1]] + NamesOf(parts[2..], k - 1)
  }

  lemma {:induction false} NamesMakeSegments(parts: seq<string>, k: nat)
    requires Calls(parts, k)
    ensures Segments(NamesOf(parts, k)) == parts[..2 * k]
    ensures DotFree(parts) ==> DotFree(NamesOf(parts, k))
  {
    if k > 0 {
      assert parts[2 * 0] == HEAD;
      CallsShift(parts, k - 1);
      NamesMakeSegments(parts[2..], k - 1);
      assert parts[..2 * k] == [parts[0], parts[1]] + parts[2..][..2 * (k - 1)];
      assert NamesOf(parts, k)[1..] == NamesOf(parts[2..], k - 1);
    }
  }

  lemma {:induction false} JoinParts(xs: seq<string>, ys: seq<string>)
    requires xs != []
    ensures Join(xs + ys) == if ys == [] then Join(xs) else Join(xs) + "." + Join(ys)
  {
    if |xs| > 1 {
      JoinParts(xs[1..], ys);
      assert (xs + ys)[1..] == xs[1..] + ys;
    } else if ys != [] {
      assert (xs + ys)[1..] == ys;
    } else {
      assert xs + ys == xs;
    }
  }

  /** The prefixes of a path are the modules it lies in, itself included. */
  lemma PrefixesEnclose(path: string, prefix: string)
    ensures prefix in Prefixes(path) <==> Encloses(prefix, path)
  {
    if prefix in Prefixes(path) {
      PrefixEncloses(path, prefix);
    }
    if Encloses(prefix, path) {
      EnclosingIsPrefix(path, prefix);
    }
  }

  /** The path `front` with more behind it, if there is more. */
  predicate Continues(path: string, front: string) {
    path == front || front + "." <= path
  }

  lemma ContinuesWith(front: string, rest: string)
    ensures Continues(front + "." + rest, front)
  {
  }

  lemma FrontIsPrefix(parts: seq<string>, n: nat)
    requires 0 < n <= |parts|
    ensures Continues(Join(parts), Join(parts[..n]))
  {
    assert parts == parts[..n] + parts[n..];
    JoinParts(parts[..n], parts[n..]);
    ContinuesWith(Join(parts[..n]), Join(parts[n..]));
  }

  lemma PrefixEncloses(path: string, prefix: string)
    requires prefix in Prefixes(path)
    ensures Encloses(prefix, path)
  {
    var parts := Split(path);
    var k :| 1 <= k <= |parts| && Calls(parts, k) && prefix == Join(parts[..2 * k]);
    SplitIsDotFree(path);
    NamesMakeSegments(parts, k);
    CallPathIsJoined(NamesOf(parts, k));
    FrontIsPrefix(parts, 2 * k);
  }

  lemma EnclosingIsPrefix(path: string, prefix: string)
    requires Encloses(prefix, path)
    ensures prefix in Prefixes(path)
  {
    var names :| names != [] && DotFree(names) && prefix == CallPath(names);
    var parts, k := Split(path), |names|;
    var rest := if path == prefix then "" else path[|prefix| + 1..];
    SplitCallPath(names);
    SplitInside(names, rest);
    SegmentsAreCalls(names);
    CallPathIsJoined(names);
    assert path == prefix || path == prefix + "." + rest;
    assert parts[..2 * k] == Segments(names);
    assert Calls(parts, k) by {
      forall j | 0 <= j < k ensures parts[2 * j] == HEAD {
        assert Segments(names)[2 * j] == HEAD;
      }
    }
    assert PREFIX <= path;
  }

  /** Where a resource lives: its module path, read off its address when the inventory has
      none. */
  function Place(r: Resource): string {
    if r.modulePath != "" then r.modulePath else r.address
  }

  /** What a lookup of a module finds, on the inventory: the resources that live in it. */
  lemma MembersLiveInside(rs: seq<Resource>, members: map<string, seq<string>>, prefix: string, a: string)
    requires Indexes(rs, members)
    ensures (prefix in members && a in members[prefix]) <==>
              exists r :: r in rs && r.address == a && Encloses(prefix, Place(r))
  {
    if prefix in members && a in members[prefix] {
      assert a in Elements(members[prefix]);
      var r :| r in rs && prefix in Prefixes(PathOf(r)) && r.address == a;
      PathEncloses(r, prefix);
    }
    if r :| r in rs && r.address == a && Encloses(prefix, Place(r)) {
      PathEncloses(r, prefix);
      assert a in Scan(rs, prefix);
      assert a in Elements(members[prefix]);
    }
  }

  lemma PathEncloses(r: Resource, prefix: string)
    ensures prefix in Prefixes(PathOf(r)) <==> Encloses(prefix, Place(r))
  {
    PrefixesEnclose(r.modulePath, prefix);
    PrefixesEnclose(r.address, prefix);
    if r.modulePath == "" {
      LeadingCallsSuffice(r.address, prefix);
    }
  }

  lemma StartsWithCall(address: string)
    requires PREFIX <= address
    ensures |Split(address)| >= 2 && Split(address)[0] == HEAD
  {
    var rest := address[|PREFIX|..];
    assert address == HEAD + "." + rest;
    SplitHead(HEAD, rest);
  }

  lemma LeadIsPath(parts: seq<string>, lead: seq<string>)
    requires DotFree(parts) && lead == LeadingCalls(parts) && lead != []
    ensures PREFIX <= Join(lead) && Split(Join(lead)) == lead
  {
    var k := |lead| / 2;
    assert parts[..2 * k] == lead;
    NamesMakeSegments(parts, k);
    var names := NamesOf(parts, k);
    CallPathIsJoined(names);
    SplitCallPath(names);
  }

  lemma FewerCalls(parts: seq<string>, k: nat, j: nat)
    ensures j <= k && Calls(parts, k) ==> Calls(parts, j)
  {
  }

  lemma CallsOfLead(parts: seq<string>, lead: seq<string>, k: nat)
    requires lead == LeadingCalls(parts)
    ensures Calls(parts, k) <==> Calls(lead, k)
    ensures Calls(parts, k) ==> 2 * k <= |lead| && lead[..2 * k] == parts[..2 * k]
  {
    FewerCalls(parts, k, |lead| / 2 + 1);
    if Calls(parts, k) {
      forall j | 0 <= j < k ensures lead[2 * j] == HEAD {
        assert parts[2 * j] == HEAD;
      }
    }
    if Calls(lead, k) {
      forall j | 0 <= j < k ensures parts[2 * j] == HEAD {
        assert lead[2 * j] == HEAD;
      }
    }
  }

  /** The leading calls of an address have the same prefixes as the address. */
  lemma LeadingCallsSuffice(address: string, prefix: string)
    ensures prefix in Prefixes(if PREFIX <= address then Join(LeadingCalls(Split(address))) else "") <==>
              prefix in Prefixes(address)
  {
    if PREFIX <= address {
      var parts := Split(address);
      var lead := LeadingCalls(parts);
      SplitIsDotFree(address);
      StartsWithCall(address);
      LeadIsPath(parts, lead);
      forall k: nat ensures Calls(parts, k) <==> Calls(lead, k)
        ensures Calls(parts, k) ==> 2 * k <= |lead| && lead[..2 * k] == parts[..2 * k]
      {
        CallsOfLead(parts, lead, k);
      }
      if prefix in Prefixes(address) {
        var k :| 1 <= k <= |parts| && Calls(parts, k) && prefix == Join(parts[..2 * k]);
        assert k <= |lead| && Calls(lead, k) && prefix == Join(lead[..2 * k]);
      }
    }
  }

  /** A snapshot built from the inventory meets what the scope walk relies on. */
  lemma SnapshotIsWellFormed(rs: seq<Resource>, adjacency: map<string, seq<string>>, members: map<string, seq<string>>)
    requires forall r :: r in rs ==> r.address != ""
    requires Indexes(rs, members)
    ensures Snapshot(set r | r in rs :: r.address, adjacency, members).WellFormed()
  {
    var snap := Snapshot(set r | r in rs :: r.address, adjacency, members);
    forall m | m in members ensures Elements(members[m]) <= snap.realized {
      assert Elements(members[m]) == Scan(rs, m);
    }
  }
}
