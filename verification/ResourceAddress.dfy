/** What a resource address determines (`TrunkResource.Address`, internal/slice/slice.go:74-83).
    The merge, the slice and the guard key rows by their address alone, so they are about
    resources only because different resources have different addresses. */
module ResourceAddress {
  import opened Ordering
  import opened Json
  import opened TrunkState

  /** One step of a module path: `module.name`, or `module.name[key]` under `count` or
      `for_each`. */
  datatype ModuleCall = ModuleCall(name: string, key: Option<string>)
  {
    function Spelled(): string {
      "module." + name + (if key.Some? then "[" + key.value + "]" else "")
    }

    predicate Plain() { '.' !in name && ']' !in name }
  }

  function ModulePath(calls: seq<ModuleCall>): string
    decreases |calls|, 0
  {
    if calls == [] then "" else Inside(calls[..|calls| - 1]) + calls[|calls| - 1].Spelled()
  }

  /** The prefix of everything in the module. */
  function Inside(calls: seq<ModuleCall>): string
    decreases |calls|, 1
  {
    if calls == [] then "" else ModulePath(calls) + "."
  }

  /** A resource as Terraform writes it; the text of module keys is arbitrary. */
  ghost predicate Proper(r: Resource) {
    && r.mode in {"managed", "data"} && '.' !in r.rtype && '.' !in r.name
    && exists calls: seq<ModuleCall> :: (forall c :: c in calls ==> c.Plain()) && r.modulePath == ModulePath(calls)
  }

  predicate SameResource(x: Resource, y: Resource) {
    x.modulePath == y.modulePath && x.mode == y.mode && x.rtype == y.rtype && x.name == y.name
  }

  predicate EndsInDot(p: string) {
    p == "" || p[|p| - 1] == '.'
  }

  lemma LastDot(p: string, s: string)
    requires EndsInDot(p) && '.' !in s
    ensures forall k :: |p| <= k < |p + s| ==> (p + s)[k] != '.'
    ensures p != "" ==> (p + s)[|p| - 1] == '.'
  {
    assert forall k :: |p| <= k < |p + s| ==> (p + s)[k] == s[k - |p|];
  }

  /** The last dot of a string is where a dot-free tail begins. */
  lemma SplitAtLastDot(p: string, s: string, q: string, t: string)
    requires EndsInDot(p) && EndsInDot(q) && '.' !in s && '.' !in t && p + s == q + t
    ensures p == q && s == t
  {
    LastDot(p, s);
    LastDot(q, t);
    var a := p + s;
    assert |p| == |q|;
    assert p == a[..|p|] && q == a[..|q|] && s == a[|p|..] && t == a[|q|..];
  }

  lemma KeyEndsInBracket(calls: seq<ModuleCall>)
    requires calls != []
    ensures ModulePath(calls) != ""
    ensures calls[|calls| - 1].key.Some? ==> ModulePath(calls)[|ModulePath(calls)| - 1] == ']'
  {
  }

  lemma EndsLikeItsTail(q: string, t: string)
    requires t != "" && ']' !in t
    ensures (q + t)[|q + t| - 1] != ']'
  {
    assert (q + t)[|q + t| - 1] == t[|t| - 1];
    assert t[|t| - 1] in t;
  }

  lemma BareCall(calls: seq<ModuleCall>)
    requires calls != [] && calls[|calls| - 1].key.None?
    ensures ModulePath(calls) == (Inside(calls[..|calls| - 1]) + "module.") + calls[|calls| - 1].name
  {
  }

  /** The last call of a path that does not end in a key. */
  lemma LastCall(calls: seq<ModuleCall>, q: string, t: string)
    requires calls != [] && calls[|calls| - 1].Plain() && EndsInDot(q) && '.' !in t && ']' !in t && t != ""
    requires ModulePath(calls) == q + t
    ensures Inside(calls[..|calls| - 1]) + "module." == q && calls[|calls| - 1].name == t
  {
    KeyEndsInBracket(calls);
    EndsLikeItsTail(q, t);
    BareCall(calls);
    SplitAtLastDot(Inside(calls[..|calls| - 1]) + "module.", calls[|calls| - 1].name, q, t);
  }

  /** A path in front of a bare `module` would end in one itself. */
  lemma OneCallLess(calls: seq<ModuleCall>, others: seq<ModuleCall>)
    ensures Inside(calls) + "module." == Inside(others) ==>
              others != [] && ModulePath(others) == Inside(calls) + "module"
  {
    var x, y := Inside(calls) + "module.", Inside(others);
    assert x[..|x| - 1] == Inside(calls) + "module";
    assert others != [] ==> y[..|y| - 1] == ModulePath(others);
  }

  /** No module path ends in a bare `module`. */
  lemma {:induction false} NeverEndsInModule(calls: seq<ModuleCall>, others: seq<ModuleCall>)
    requires forall c :: c in calls + others ==> c.Plain()
    ensures ModulePath(calls) != Inside(others) + "module"
    decreases |calls| + |others|
  {
    if calls != [] && ModulePath(calls) == Inside(others) + "module" {
      LastCall(calls, Inside(others), "module");
      var front := calls[..|calls| - 1];
      OneCallLess(front, others);
      NeverEndsInModule(others, front);
    }
  }

  /** No module path reads like the prefix of a data resource. */
  lemma NeverEndsInData(calls: seq<ModuleCall>, others: seq<ModuleCall>)
    requires forall c :: c in calls + others ==> c.Plain()
    ensures ModulePath(calls) != Inside(others) + "data"
  {
    if calls != [] && ModulePath(calls) == Inside(others) + "data" {
      LastCall(calls, Inside(others), "data");
      var front := calls[..|calls| - 1];
      OneCallLess(front, others);
      NeverEndsInModule(others, front);
    }
  }

  lemma PathIsEmpty(calls: seq<ModuleCall>)
    ensures ModulePath(calls) == "" <==> calls == []
  {
  }

  lemma InsideIsInjective(calls: seq<ModuleCall>, others: seq<ModuleCall>, tail: string)
    requires Inside(calls) + tail == Inside(others) + tail
    ensures ModulePath(calls) == ModulePath(others)
  {
    var a := Inside(calls) + tail;
    assert Inside(calls) == a[..|a| - |tail|] == Inside(others);
    PathIsEmpty(calls);
    PathIsEmpty(others);
    assert calls != [] ==> ModulePath(calls) == Inside(calls)[..|Inside(calls)| - 1];
    assert others != [] ==> ModulePath(others) == Inside(others)[..|Inside(others)| - 1];
  }

  /** Data resources and managed ones never share a prefix. */
  lemma DataApart(calls: seq<ModuleCall>, others: seq<ModuleCall>)
    requires forall c :: c in calls + others ==> c.Plain()
    ensures Inside(calls) + "data." != Inside(others)
  {
    if others != [] {
      NeverEndsInData(others, calls);
      var x, y := Inside(calls) + "data.", Inside(others);
      assert x[..|x| - 1] == Inside(calls) + "data" && y[..|y| - 1] == ModulePath(others);
    }
  }

  function DataPrefix(mode: string): string {
    if mode == "data" then "data." else ""
  }

  lemma AddressParts(r: Resource, calls: seq<ModuleCall>)
    requires r.modulePath == ModulePath(calls)
    ensures r.Address() == (((Inside(calls) + DataPrefix(r.mode)) + r.rtype) + ".") + r.name
    ensures EndsInDot(Inside(calls) + DataPrefix(r.mode))
  {
    PathIsEmpty(calls);
  }

  /** Different resources have different addresses. */
  lemma AddressIsInjective(x: Resource, y: Resource)
    requires Proper(x) && Proper(y)
    ensures x.Address() == y.Address() <==> SameResource(x, y)
  {
    var cx: seq<ModuleCall> :| (forall c :: c in cx ==> c.Plain()) && x.modulePath == ModulePath(cx);
    var cy: seq<ModuleCall> :| (forall c :: c in cy ==> c.Plain()) && y.modulePath == ModulePath(cy);
    AddressParts(x, cx);
    AddressParts(y, cy);
    if x.Address() == y.Address() {
      var px, py := Inside(cx) + DataPrefix(x.mode), Inside(cy) + DataPrefix(y.mode);
      SplitAtLastDot((px + x.rtype) + ".", x.name, (py + y.rtype) + ".", y.name);
      assert px + x.rtype == ((px + x.rtype) + ".")[..|px + x.rtype|];
      assert py + y.rtype == ((py + y.rtype) + ".")[..|py + y.rtype|];
      SplitAtLastDot(px, x.rtype, py, y.rtype);
      PrefixDecides(cx, x.mode, cy, y.mode);
    }
  }

  lemma PrefixDecides(cx: seq<ModuleCall>, mx: string, cy: seq<ModuleCall>, my: string)
    requires forall c :: c in cx + cy ==> c.Plain()
    requires mx in {"managed", "data"} && my in {"managed", "data"}
    requires Inside(cx) + DataPrefix(mx) == Inside(cy) + DataPrefix(my)
    ensures ModulePath(cx) == ModulePath(cy) && mx == my
  {
    DataApart(cx, cy);
    DataApart(cy, cx);
    assert Inside(cx) + "" == Inside(cx) && Inside(cy) + "" == Inside(cy);
    assert mx == my;
    InsideIsInjective(cx, cy, DataPrefix(mx));
  }
}
