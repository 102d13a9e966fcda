/** Building the config graph from parsed blocks (`loadOpenTofuGraph`,
    internal/configscope/opentofu_engine.go:104-169), including the pass that attributes the
    references of `locals` to every block that uses a local. */
module OpenTofuGraph {
  import opened Ordering
  import opened ScopeExpand
  import opened ConfigScope

  /** One reference of an expression: an address, or a local by name. */
  datatype Ref = To(addr: string) | Local(name: string)

  datatype LocalDef = LocalDef(name: string, refs: seq<Ref>)

  /** A resource, data or module block under its graph key, or a `locals` block. */
  datatype Block = Declares(key: string, refs: seq<Ref>) | Locals(defs: seq<LocalDef>)

  /** The extractor forgets which local was meant. */
  const MARKER := "__local__"

  function Spelled(r: Ref): string {
    match r case To(a) => a case Local(_) => MARKER
  }

  function SpelledAll(refs: seq<Ref>): (s: seq<string>)
    ensures Elements(s) == set r | r in refs :: Spelled(r)
  {
    if refs == [] then []
    else
      assert refs == [refs[0]] + refs[1..];
      [Spelled(refs[0])] + SpelledAll(refs[1..])
  }

  /** All references of a `locals` block, in order. */
  function DefRefs(defs: seq<LocalDef>): (s: seq<Ref>)
    ensures forall r :: r in s <==> exists d :: d in defs && r in d.refs
  {
    if defs == [] then []
    else
      assert defs == [defs[0]] + defs[1..];
      defs[0].refs + DefRefs(defs[1..])
  }

  function Keys(blocks: seq<Block>): set<string> {
    set b | b in blocks && b.Declares? :: b.key
  }

  function OwnRefs(blocks: seq<Block>, key: string): set<string> {
    set b, r | b in blocks && b.Declares? && b.key == key && r in b.refs :: Spelled(r)
  }

  function LocalRefs(blocks: seq<Block>): set<string> {
    set b, r | b in blocks && b.Locals? && r in DefRefs(b.defs) :: Spelled(r)
  }

  /** The edges of a key: its own references, and the references of all locals when any
      block under the key uses a local. */
  function EdgesOf(blocks: seq<Block>, key: string): set<string> {
    var own := OwnRefs(blocks, key);
    (own + if MARKER in own then LocalRefs(blocks) else {}) - {"", MARKER}
  }

  ghost predicate IsGraph(blocks: seq<Block>, g: Graph) {
    && g.Keys == Keys(blocks)
    && forall k :: k in g ==> Ascending(g[k]) && Elements(g[k]) == EdgesOf(blocks, k)
  }

  lemma RefsOneMore(blocks: seq<Block>, b: Block, key: string)
    ensures OwnRefs(blocks + [b], key) ==
            OwnRefs(blocks, key) + (if b.Declares? && b.key == key then set r | r in b.refs :: Spelled(r) else {})
    ensures LocalRefs(blocks + [b]) ==
            LocalRefs(blocks) + (if b.Locals? then set r | r in DefRefs(b.defs) :: Spelled(r) else {})
  {
    assert forall x :: x in blocks + [b] <==> x in blocks || x == b;
  }

  lemma KeysOneMore(blocks: seq<Block>, b: Block)
    ensures Keys(blocks + [b]) == Keys(blocks) + (if b.Declares? then {b.key} else {})
  {
    assert forall x :: x in blocks + [b] <==> x in blocks || x == b;
  }

  ghost predicate Collected(blocks: seq<Block>, raw: Graph, locals: set<string>) {
    && raw.Keys == Keys(blocks)
    && (forall k :: k in raw ==> Elements(raw[k]) == OwnRefs(blocks, k))
    && locals == LocalRefs(blocks)
  }

  /** opentofu_engine.go:112-150. */
  method Collect(blocks: seq<Block>) returns (raw: Graph, locals: set<string>)
    ensures Collected(blocks, raw, locals)
  {
    raw, locals := map[], {};
    for i := 0 to |blocks|
      invariant Collected(blocks[..i], raw, locals)
    {
      var b := blocks[i];
      assert blocks[..i + 1] == blocks[..i] + [b];
      KeysOneMore(blocks[..i], b);
      forall k ensures b.Declares? && k == b.key ==>
          OwnRefs(blocks[..i + 1], k) == OwnRefs(blocks[..i], k) + Elements(SpelledAll(b.refs))
        ensures !(b.Declares? && k == b.key) ==> OwnRefs(blocks[..i + 1], k) == OwnRefs(blocks[..i], k)
      {
        RefsOneMore(blocks[..i], b, k);
      }
      RefsOneMore(blocks[..i], b, "");
      match b
      case Declares(key, refs) =>
        NoRefsWithoutKey(blocks[..i], key);
        var old_ := if key in raw then raw[key] else [];
        assert Elements(old_ + SpelledAll(refs)) == Elements(old_) + Elements(SpelledAll(refs));
        raw := raw[key := old_ + SpelledAll(refs)];
      case Locals(defs) =>
        locals := locals + Elements(SpelledAll(DefRefs(defs)));
    }
    assert blocks[..|blocks|] == blocks;
  }

  lemma NoRefsWithoutKey(blocks: seq<Block>, key: string)
    ensures key !in Keys(blocks) ==> OwnRefs(blocks, key) == {}
  {
  }

  /** `loadOpenTofuGraph`. */
  method LoadGraph(blocks: seq<Block>) returns (g: Graph)
    ensures IsGraph(blocks, g)
  {
    var raw, locals := Collect(blocks);
    if locals == {} {
      g := NormalizeGraphRefs(raw);
      return;
    }
    var localDeps := SortedSetKeys(locals);
    var todo := raw.Keys;
    var full: Graph := map[];
    while todo != {}
      invariant todo <= raw.Keys && full.Keys == raw.Keys - todo
      invariant forall k :: k in full ==>
                  Elements(full[k]) == OwnRefs(blocks, k) + (if MARKER in OwnRefs(blocks, k) then locals else {})
    {
      var k :| k in todo;
      todo := todo - {k};
      assert MARKER in raw[k] <==> MARKER in Elements(raw[k]);
      assert Elements(raw[k] + localDeps) == Elements(raw[k]) + Elements(localDeps);
      full := full[k := if MARKER in raw[k] then raw[k] + localDeps else raw[k]];
    }
    g := NormalizeGraphRefs(full);
  }

  /** `normalizeGraphRefs`. */
  method NormalizeGraphRefs(raw: Graph) returns (g: Graph)
    ensures g.Keys == raw.Keys
    ensures forall k :: k in g ==> Ascending(g[k]) && Elements(g[k]) == Elements(raw[k]) - {"", MARKER}
  {
    g := map[];
    var todo := raw.Keys;
    while todo != {}
      invariant todo <= raw.Keys && g.Keys == raw.Keys - todo
      invariant forall k :: k in g ==> Ascending(g[k]) && Elements(g[k]) == Elements(raw[k]) - {"", MARKER}
    {
      var k :| k in todo;
      todo := todo - {k};
      var list := DedupeSortedStrings(raw[k]);
      var kept := WithoutMarker(list);
      g := g[k := kept];
    }
  }

  method WithoutMarker(list: seq<string>) returns (kept: seq<string>)
    requires Ascending(list)
    ensures Ascending(kept) && Elements(kept) == Elements(list) - {MARKER}
  {
    kept := [];
    for i := 0 to |list|
      invariant Ascending(kept) && Elements(kept) == Elements(list[..i]) - {MARKER}
    {
      assert list[..i + 1] == list[..i] + [list[i]];
      if list[i] != MARKER {
        forall j | 0 <= j < |kept| ensures Less(kept[j], list[i]) {
          assert kept[j] in Elements(kept);
          assert kept[j] in list[..i];
        }
        kept := kept + [list[i]];
      }
    }
    assert list[..|list|] == list;
  }

  // ------------------------------------------------------------------ theorems

  /** Reference `r` leads to address `a` through at most `n` locals. */
  ghost predicate LeadsTo(blocks: seq<Block>, r: Ref, a: string, n: nat)
    decreases n
  {
    match r
    case To(b) => a == b
    case Local(name) =>
      n > 0 && exists b, d, q :: b in blocks && b.Locals? && d in b.defs && d.name == name && q in d.refs
                                 && LeadsTo(blocks, q, a, n - 1)
  }

  /** An address at the end of a chain of locals is mentioned in some `locals` block. */
  lemma {:induction false} ChainEndsInLocals(blocks: seq<Block>, r: Ref, a: string, n: nat)
    requires r.Local? && LeadsTo(blocks, r, a, n)
    ensures a in LocalRefs(blocks)
    decreases n
  {
    var b, d, q :| b in blocks && b.Locals? && d in b.defs && d.name == r.name && q in d.refs
                   && LeadsTo(blocks, q, a, n - 1);
    if q.To? {
      assert q in DefRefs(b.defs) && Spelled(q) == a;
    } else {
      ChainEndsInLocals(blocks, q, a, n - 1);
    }
  }

  /** The graph is sound for locals: an address that a block refers to, directly or through
      any chain of locals in any files, is among the edges of the block's key. */
  lemma LocalsAreFollowed(blocks: seq<Block>, g: Graph, block: Block, r: Ref, a: string, n: nat)
    requires IsGraph(blocks, g)
    requires block in blocks && block.Declares? && r in block.refs && LeadsTo(blocks, r, a, n)
    requires a != "" && a != MARKER
    ensures block.key in g && a in g[block.key]
  {
    assert Spelled(r) in OwnRefs(blocks, block.key);
    if r.Local? {
      ChainEndsInLocals(blocks, r, a, n);
    }
    assert a in EdgesOf(blocks, block.key);
    assert a in Elements(g[block.key]);
  }

  /** Some `locals` block refers to `a`. */
  predicate LocalsReferTo(blocks: seq<Block>, a: string) {
    exists b, d :: b in blocks && b.Locals? && d in b.defs && To(a) in d.refs
  }

  predicate IsLocalUse(r: Ref) {
    r.Local? || r == To("__local__")
  }

  /** Some block under the key uses a local, whichever. */
  predicate UsesLocals(blocks: seq<Block>, key: string) {
    exists b, r :: b in blocks && b.Declares? && b.key == key && r in b.refs && IsLocalUse(r)
  }

  /** The edges of a key, on the blocks: the addresses its blocks refer to, and, if one of them
      uses a local, the addresses any `locals` block refers to. */
  lemma EdgesAreReferences(blocks: seq<Block>, g: Graph, key: string, a: string)
    requires IsGraph(blocks, g)
    ensures key in g <==> exists b :: b in blocks && b.Declares? && b.key == key
    ensures key in g ==>
              (a in g[key] <==>
                && a != "" && a != "__local__"
                && (|| RefersTo(blocks, key, a)
                    || (UsesLocals(blocks, key) && LocalsReferTo(blocks, a))))
  {
    if key in g {
      assert a in g[key] <==> a in Elements(g[key]);
      MarkerIsLocalUse(blocks, key);
      if a != MARKER {
        OwnRefsAre(blocks, key, a);
        LocalRefsAre(blocks, a);
      }
    }
  }

  lemma MarkerIsLocalUse(blocks: seq<Block>, key: string)
    ensures MARKER in OwnRefs(blocks, key) <==> UsesLocals(blocks, key)
  {
    if MARKER in OwnRefs(blocks, key) {
      var b, r :| b in blocks && b.Declares? && b.key == key && r in b.refs && Spelled(r) == MARKER;
      assert IsLocalUse(r);
    }
    if UsesLocals(blocks, key) {
      var b, r :| b in blocks && b.Declares? && b.key == key && r in b.refs && IsLocalUse(r);
      assert Spelled(r) == MARKER;
    }
  }

  predicate RefersTo(blocks: seq<Block>, key: string, a: string) {
    exists b :: b in blocks && b.Declares? && b.key == key && To(a) in b.refs
  }

  lemma OwnRefsAre(blocks: seq<Block>, key: string, a: string)
    requires a != MARKER
    ensures a in OwnRefs(blocks, key) <==> RefersTo(blocks, key, a)
  {
    if a in OwnRefs(blocks, key) {
      var b, r :| b in blocks && b.Declares? && b.key == key && r in b.refs && Spelled(r) == a;
      assert r == To(a);
    }
    if RefersTo(blocks, key, a) {
      var b :| b in blocks && b.Declares? && b.key == key && To(a) in b.refs;
      assert Spelled(To(a)) == a;
    }
  }

  lemma LocalRefsAre(blocks: seq<Block>, a: string)
    requires a != MARKER
    ensures a in LocalRefs(blocks) <==> LocalsReferTo(blocks, a)
  {
    if a in LocalRefs(blocks) {
      var b, r :| b in blocks && b.Locals? && r in DefRefs(b.defs) && Spelled(r) == a;
      assert r == To(a);
    }
    if b, d :| b in blocks && b.Locals? && d in b.defs && To(a) in d.refs {
      assert To(a) in DefRefs(b.defs) && Spelled(To(a)) == a;
    }
  }

  /** The graph does not depend on the order of files and blocks, nor on repetition. */
  lemma GraphIgnoresBlockOrder(blocks: seq<Block>, blocks': seq<Block>, g: Graph, g': Graph)
    requires IsGraph(blocks, g) && IsGraph(blocks', g')
    requires forall b :: b in blocks <==> b in blocks'
    ensures g == g'
  {
    assert g.Keys == g'.Keys;
    assert LocalRefs(blocks) == LocalRefs(blocks');
    forall k | k in g ensures g[k] == g'[k] {
      assert OwnRefs(blocks, k) == OwnRefs(blocks', k);
      AscendingIsUnique(g[k], g'[k]);
    }
  }
}
