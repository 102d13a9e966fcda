/** The client side of scope discovery: the config graph walk of
    internal/configscope/opentofu_engine.go and the intent of internal/configscope/discovery.go.
    Addresses are taken as already trimmed; HCL blocks are taken as their reference lists. */
module ConfigScope {
  import opened Ordering
  import opened Reachability
  import opened ScopeExpand

  /** Address to its normalized dependency list. */
  type Graph = map<string, seq<string>>

  const MODULE := "module."

  predicate IsModule(addr: string) {
    MODULE <= addr
  }

  /** The part of `s` before its first dot. */
  function Segment(s: string): (r: string)
    ensures '.' !in r
  {
    if s == "" || s[0] == '.' then "" else [s[0]] + Segment(s[1..])
  }

  /** `moduleHead`: the module call an address goes through, or nothing. */
  function ModuleHead(addr: string): string {
    if IsModule(addr) then MODULE + Segment(addr[|MODULE|..]) else ""
  }

  lemma {:induction false} SegmentOfDotFree(s: string)
    requires '.' !in s
    ensures Segment(s) == s
  {
    if s != "" {
      assert s[0] in s && s == [s[0]] + s[1..];
      SegmentOfDotFree(s[1..]);
    }
  }

  lemma HeadOfHead(addr: string)
    ensures ModuleHead(addr) != "" ==> ModuleHead(ModuleHead(addr)) == ModuleHead(addr)
  {
    if IsModule(addr) {
      var head := ModuleHead(addr);
      assert head[..|MODULE|] == MODULE && head[|MODULE|..] == Segment(addr[|MODULE|..]);
      SegmentOfDotFree(Segment(addr[|MODULE|..]));
    }
  }

  /** `head` is the module call that `addr` goes through: `module.name`, up to the end of the
      address or its next dot. */
  ghost predicate GoesThrough(addr: string, head: string) {
    exists name, rest ::
      && '.' !in name && (rest == "" || rest[0] == '.')
      && head == "module." + name && addr == head + rest
  }

  lemma {:induction false} SegmentStops(s: string)
    ensures Segment(s) <= s && (Segment(s) == s || s[|Segment(s)|] == '.')
  {
    if s != "" && s[0] != '.' {
      SegmentStops(s[1..]);
    }
  }

  lemma {:induction false} SegmentOf(name: string, rest: string)
    requires '.' !in name && (rest == "" || rest[0] == '.')
    ensures Segment(name + rest) == name
  {
    if name == "" {
      assert name + rest == rest;
    } else {
      assert name[0] in name && (name + rest)[1..] == name[1..] + rest;
      SegmentOf(name[1..], rest);
      assert name == [name[0]] + name[1..];
    }
  }

  lemma HeadIsGoneThrough(addr: string)
    requires MODULE <= addr
    ensures GoesThrough(addr, ModuleHead(addr))
  {
    var tail := addr[|MODULE|..];
    SegmentStops(tail);
    var name, rest := Segment(tail), tail[|Segment(tail)|..];
    assert addr == MODULE + tail && tail == name + rest;
    assert addr == (MODULE + name) + rest;
  }

  lemma GoneThroughIsHead(addr: string, name: string, rest: string)
    requires '.' !in name && (rest == "" || rest[0] == '.') && addr == ("module." + name) + rest
    ensures ModuleHead(addr) == "module." + name
  {
    SegmentOf(name, rest);
    assert addr == MODULE + (name + rest);
    assert addr[..|MODULE|] == MODULE && addr[|MODULE|..] == name + rest;
  }

  /** What a module head is; an address outside any module has none. */
  lemma ModuleHeadIs(addr: string, head: string)
    ensures head != "" ==> (ModuleHead(addr) == head <==> GoesThrough(addr, head))
    ensures ModuleHead(addr) == "" <==> !("module." <= addr)
  {
    if IsModule(addr) {
      HeadIsGoneThrough(addr);
    }
    if GoesThrough(addr, head) {
      var name, rest :| '.' !in name && (rest == "" || rest[0] == '.') && head == "module." + name
        && addr == head + rest;
      GoneThroughIsHead(addr, name, rest);
    }
  }

  function DepsOf(graph: Graph, a: string): set<string> {
    if a in graph then NonEmpty(graph[a]) else {}
  }

  /** The edges the closure is meant to follow: graph edges, and from a nested address to the
      module call it goes through. */
  ghost function Declared(graph: Graph): Edges {
    a => DepsOf(graph, a) + ({ModuleHead(a)} - {""})
  }

  function WithHead(addr: string): set<string> {
    {addr, ModuleHead(addr)} - {""}
  }

  method Push(seen0: set<string>, queue0: seq<string>, addr: string) returns (seen: set<string>, queue: seq<string>)
    requires seen0 == Elements(queue0) && Distinct(queue0)
    ensures seen == Elements(queue) && Distinct(queue) && queue0 <= queue
    ensures seen == seen0 + ({addr} - {""})
  {
    seen, queue := seen0, queue0;
    if addr == "" || addr in seen { return; }
    assert Elements(queue + [addr]) == Elements(queue) + {addr};
    seen, queue := seen + {addr}, queue + [addr];
  }

  /** Push an address and, when it differs, its module head. */
  method PushWithHead(seen0: set<string>, queue0: seq<string>, addr: string)
    returns (seen: set<string>, queue: seq<string>)
    requires seen0 == Elements(queue0) && Distinct(queue0)
    ensures seen == Elements(queue) && Distinct(queue) && queue0 <= queue
    ensures seen == seen0 + WithHead(addr)
  {
    seen, queue := Push(seen0, queue0, addr);
    var head := ModuleHead(addr);
    if head != "" && head != addr {
      seen, queue := Push(seen, queue, head);
    }
  }

  method PushAllWithHeads(seen0: set<string>, queue0: seq<string>, addrs: seq<string>)
    returns (seen: set<string>, queue: seq<string>)
    requires seen0 == Elements(queue0) && Distinct(queue0)
    ensures seen == Elements(queue) && Distinct(queue) && queue0 <= queue
    ensures seen == seen0 + AllWithHeads(addrs)
  {
    seen, queue := seen0, queue0;
    for i := 0 to |addrs|
      invariant seen == Elements(queue) && Distinct(queue) && queue0 <= queue
      invariant seen == seen0 + AllWithHeads(addrs[..i])
    {
      HeadsOneMore(addrs[..i], addrs[i]);
      assert addrs[..i + 1] == addrs[..i] + [addrs[i]];
      seen, queue := PushWithHead(seen, queue, addrs[i]);
    }
    assert addrs[..|addrs|] == addrs;
  }

  function AllWithHeads(addrs: seq<string>): set<string> {
    set a, x | a in addrs && x in WithHead(a) :: x
  }

  lemma HeadsOneMore(addrs: seq<string>, a: string)
    ensures AllWithHeads(addrs + [a]) == AllWithHeads(addrs) + WithHead(a)
  {
    forall x | x in AllWithHeads(addrs) ensures x in AllWithHeads(addrs + [a]) {
      var b :| b in addrs && x in WithHead(b);
      assert b in addrs + [a];
    }
    assert a in addrs + [a];
  }

  /** What holds of the worklist before entry `i` is expanded. */
  ghost predicate Expanding(graph: Graph, targets: set<string>, queue: seq<string>, i: nat) {
    && i <= |queue| && Distinct(queue) && "" !in queue
    && (forall t :: t in targets ==> t in queue)
    && (forall x :: x in queue ==> Reachable(Declared(graph), targets, x))
    && (forall x :: x in queue ==> ModuleHead(x) == "" || ModuleHead(x) in queue)
    && (forall k :: 0 <= k < i ==> DepsOf(graph, queue[k]) <= Elements(queue))
  }

  lemma ExpandStart(graph: Graph, targets: seq<string>, queue: seq<string>)
    requires Elements(queue) == AllWithHeads(targets) && Distinct(queue)
    ensures Expanding(graph, NonEmpty(targets), queue, 0)
  {
    forall t | t in NonEmpty(targets) ensures t in queue {
      assert t in WithHead(t);
      assert t in Elements(queue);
    }
    forall x | x in queue
      ensures Reachable(Declared(graph), NonEmpty(targets), x)
      ensures ModuleHead(x) == "" || ModuleHead(x) in queue
      ensures x != ""
    {
      assert x in Elements(queue);
      var t :| t in targets && x in WithHead(t);
      HeadReached(graph, NonEmpty(targets), t, x);
      HeadOfHead(t);
      assert ModuleHead(x) != "" ==> ModuleHead(x) in WithHead(t);
      assert ModuleHead(x) != "" ==> ModuleHead(x) in Elements(queue);
    }
  }

  /** A source or its head is reachable. */
  lemma HeadReached(graph: Graph, from: set<string>, t: string, x: string)
    requires t != "" ==> t in from || Reachable(Declared(graph), from, t)
    requires x in WithHead(t)
    ensures Reachable(Declared(graph), from, x)
  {
    if t != "" {
      if t in from { SourcesAreReachable(Declared(graph), from, t); }
      if x != t { ReachOneMore(Declared(graph), from, t, x); }
    }
  }

  /** An address pushed while expanding `cur`. */
  lemma NewEntry(graph: Graph, targets: set<string>, cur: string, x: string)
    requires Reachable(Declared(graph), targets, cur) && cur in graph
    requires x in AllWithHeads(graph[cur])
    ensures Reachable(Declared(graph), targets, x) && x != ""
    ensures ModuleHead(x) == "" || ModuleHead(x) in AllWithHeads(graph[cur])
  {
    var d :| d in graph[cur] && x in WithHead(d);
    if d != "" {
      assert d in DepsOf(graph, cur);
      ReachOneMore(Declared(graph), targets, cur, d);
    }
    HeadReached(graph, targets, d, x);
    HeadOfHead(d);
    assert ModuleHead(x) != "" ==> ModuleHead(x) in WithHead(d);
  }

  lemma DepsAreEntries(graph: Graph, cur: string)
    requires cur in graph
    ensures DepsOf(graph, cur) <= AllWithHeads(graph[cur])
  {
    forall d | d in DepsOf(graph, cur) ensures d in AllWithHeads(graph[cur]) {
      assert d in WithHead(d);
    }
  }

  lemma EntryIsRight(graph: Graph, targets: set<string>, queue: seq<string>, i: nat, queue': seq<string>, x: string)
    requires Expanding(graph, targets, queue, i) && i < |queue|
    requires Elements(queue') == Elements(queue) + AllWithHeads(if queue[i] in graph then graph[queue[i]] else [])
    requires x in queue'
    ensures Reachable(Declared(graph), targets, x) && x != ""
    ensures ModuleHead(x) == "" || ModuleHead(x) in queue'
  {
    assert x in Elements(queue');
    if x in queue {
      assert ModuleHead(x) != "" ==> ModuleHead(x) in Elements(queue);
    } else {
      NewEntry(graph, targets, queue[i], x);
      assert ModuleHead(x) != "" ==> ModuleHead(x) in Elements(queue');
    }
  }

  lemma ExpandOneMore(graph: Graph, targets: set<string>, queue: seq<string>, i: nat, queue': seq<string>)
    requires Expanding(graph, targets, queue, i) && i < |queue|
    requires queue <= queue' && Distinct(queue')
    requires Elements(queue') == Elements(queue) + AllWithHeads(if queue[i] in graph then graph[queue[i]] else [])
    ensures Expanding(graph, targets, queue', i + 1)
  {
    forall x | x in queue'
      ensures Reachable(Declared(graph), targets, x)
      ensures ModuleHead(x) == "" || ModuleHead(x) in queue'
      ensures x != ""
    {
      EntryIsRight(graph, targets, queue, i, queue', x);
    }
    if queue[i] in graph { DepsAreEntries(graph, queue[i]); }
    forall k | 0 <= k < i + 1 ensures DepsOf(graph, queue'[k]) <= Elements(queue') {
      assert queue'[k] == queue[k];
    }
    forall t | t in targets ensures t in queue' {
      assert t in Elements(queue);
    }
  }

  lemma ExpandDone(graph: Graph, targets: set<string>, queue: seq<string>)
    requires Expanding(graph, targets, queue, |queue|)
    ensures IsReach(Declared(graph), targets, Elements(queue))
  {
    forall a, d | a in Elements(queue) && d in Declared(graph)(a) ensures d in Elements(queue) {
      var k :| 0 <= k < |queue| && queue[k] == a;
      assert DepsOf(graph, queue[k]) <= Elements(queue);
    }
    ClosedAndReachable(Declared(graph), targets, Elements(queue));
  }

  function Universe(graph: Graph, targets: seq<string>): set<string> {
    AllWithHeads(targets) + set a, x | a in graph && x in AllWithHeads(graph[a]) :: x
  }

  /** `expandTargetSliceAddressesFromGraph`: the least set that holds the targets and is
      closed under graph edges and module heads, sorted. */
  method ExpandTargets(graph: Graph, targets: seq<string>) returns (out: seq<string>)
    ensures Ascending(out)
    ensures IsReach(Declared(graph), NonEmpty(targets), Elements(out))
  {
    var seen, queue := PushAllWithHeads({}, [], targets);
    ExpandStart(graph, targets, queue);
    ghost var universe := Universe(graph, targets);
    var i := 0;
    while i < |queue|
      invariant seen == Elements(queue) <= universe
      invariant Expanding(graph, NonEmpty(targets), queue, i)
      decreases universe - Elements(queue[..i])
    {
      var cur := queue[i];
      ghost var queue0 := queue;
      var deps := if cur in graph then graph[cur] else [];
      seen, queue := PushAllWithHeads(seen, queue, deps);
      ExpandOneMore(graph, NonEmpty(targets), queue0, i, queue);
      NextEntry(universe, queue, i);
      assert queue[..i] == queue0[..i];
      i := i + 1;
    }
    ExpandDone(graph, NonEmpty(targets), queue);
    out := SortedSetKeys(seen);
  }

  lemma NextEntry(universe: set<string>, queue: seq<string>, i: nat)
    requires i < |queue| && Distinct(queue) && queue[i] in universe
    ensures universe - Elements(queue[..i + 1]) < universe - Elements(queue[..i])
  {
    assert queue[..i + 1] == queue[..i] + [queue[i]];
    assert queue[i] in universe - Elements(queue[..i]);
    assert queue[i] in Elements(queue[..i + 1]);
  }

  /** From one address of the closure to another: a declared reference, or the module call. */
  ghost predicate Leads(graph: Graph, a: string, b: string) {
    (a in graph && b in graph[a] && b != "") || GoesThrough(a, b)
  }

  /** A chain of such steps from a target. */
  ghost predicate Chain(graph: Graph, targets: seq<string>, p: seq<string>) {
    p != [] && p[0] in targets && p[0] != "" && forall k :: 0 < k < |p| ==> ChainStep(graph, p, k)
  }

  ghost predicate ChainStep(graph: Graph, p: seq<string>, k: nat)
    requires 0 < k < |p|
  {
    Leads(graph, p[k - 1], p[k])
  }

  /** The expanded targets, on the graph as it was loaded. */
  lemma ExpandedIsWhatChainsReach(graph: Graph, targets: seq<string>, candidates: seq<string>, a: string)
    requires IsReach(Declared(graph), NonEmpty(targets), Elements(candidates))
    ensures a in candidates <==> exists p :: Chain(graph, targets, p) && p[|p| - 1] == a
  {
    var succ := Declared(graph);
    forall p: seq<string> | p != []
      ensures Path(succ, p) && p[0] in NonEmpty(targets) <==> Chain(graph, targets, p)
    {
      forall k | 0 < k < |p| ensures Hop(succ, p, k) <==> ChainStep(graph, p, k) {
        ModuleHeadIs(p[k - 1], p[k]);
        assert GoesThrough(p[k - 1], p[k]) ==> p[k] != "";
      }
    }
    assert a in candidates <==> Reachable(succ, NonEmpty(targets), a);
  }

  // ------------------------------------------------------------------ intent

  datatype Intent = Intent(
    planningTargets: seq<string>, selectors: seq<Selector>,
    explicitWrite: seq<string>, explicitRead: seq<string>,
    undeployed: seq<string>, removed: seq<string>, configNodes: seq<ConfigNode>)

  function SelectorFor(t: string): Selector {
    Selector(if IsModule(t) then ModulePrefix else ResourceAddress, t)
  }

  /** One selector per target, in the order in which the targets first occur. */
  ghost predicate Selects(targets: seq<string>, selectors: seq<Selector>) {
    && (forall s :: s in selectors <==> exists t :: t in NonEmpty(targets) && s == SelectorFor(t))
    && (forall s :: s in selectors ==> s.value in targets)
    && InOrder(targets, selectors)
  }

  /** The targets are taken up where they first occur. */
  ghost predicate InOrder(targets: seq<string>, selectors: seq<Selector>) {
    forall i, j :: 0 <= i < j < |selectors| ==>
      FirstAt(targets, selectors[i].value) < FirstAt(targets, selectors[j].value)
  }

  /** Where `t` first occurs, or the length when it does not. */
  function FirstAt(targets: seq<string>, t: string): (k: nat)
    ensures k <= |targets| && (k < |targets| ==> targets[k] == t) && t !in targets[..k]
  {
    if targets == [] || targets[0] == t then 0
    else
      var later := FirstAt(targets[1..], t);
      assert targets[..later + 1] == [targets[0]] + targets[1..][..later];
      later + 1
  }

  ghost predicate IsIntent(targets: seq<string>, root: set<string>, removed: set<string>,
                           candidates: seq<string>, graph: Graph, intent: Intent) {
    && intent.planningTargets == targets
    && Selects(targets, intent.selectors)
    && Ascending(intent.explicitWrite) && Elements(intent.explicitWrite) == root - {""}
    && Ascending(intent.undeployed) && Elements(intent.undeployed) == NonEmpty(candidates)
    && Ascending(intent.explicitRead) && Elements(intent.explicitRead) == NonEmpty(candidates) - root
    && Ascending(intent.removed)
    && Elements(intent.removed) == (set a | a in root && a != "" && !IsModule(a) && (a in removed || a !in graph))
    && IsNodeList(graph, root + NonEmpty(candidates), intent.configNodes)
  }

  ghost predicate IsNode(graph: Graph, n: ConfigNode) {
    n.address in graph && Ascending(n.dependencies) && Elements(n.dependencies) == NonEmpty(graph[n.address])
  }

  /** One node per address of `addrs` that the graph declares, in address order, each with its
      dependencies sorted and without duplicates. */
  ghost predicate IsNodeList(graph: Graph, addrs: set<string>, nodes: seq<ConfigNode>) {
    && (forall i, j :: 0 <= i < j < |nodes| ==> Less(nodes[i].address, nodes[j].address))
    && (forall n :: n in nodes ==> n.address in addrs - {""} && IsNode(graph, n))
    && (forall a :: a in addrs - {""} && a in graph ==> exists n :: n in nodes && n.address == a)
  }

  /** `buildIntent`. */
  method BuildIntent(targets: seq<string>, root: set<string>, removed: set<string>,
                     candidates: seq<string>, graph: Graph) returns (intent: Intent)
    ensures IsIntent(targets, root, removed, candidates, graph, intent)
  {
    var selectors := BuildSelectors(targets);
    var write := SortedSetKeys(root - {""});
    var read: seq<string> := [];
    for i := 0 to |candidates|
      invariant Elements(read) == NonEmpty(candidates[..i]) - root
    {
      assert candidates[..i + 1] == candidates[..i] + [candidates[i]];
      if candidates[i] != "" && candidates[i] !in root {
        read := read + [candidates[i]];
      }
    }
    assert candidates[..|candidates|] == candidates;
    read := DedupeSortedStrings(read);
    var undeployed := DedupeSortedStrings(candidates);
    var gone := BuildRemovedCandidates(root, removed, graph);
    var nodes := BuildConfigNodes(graph, write + read + undeployed);
    assert Elements(write + read + undeployed) == Elements(write) + Elements(read) + Elements(undeployed);
    assert Elements(write + read + undeployed) - {""} == (root + NonEmpty(candidates)) - {""};
    intent := Intent(targets, selectors, write, read, undeployed, gone, nodes);
  }

  lemma FirstAtIs(targets: seq<string>, t: string, k: nat)
    requires k < |targets| && targets[k] == t && t !in targets[..k]
    ensures FirstAt(targets, t) == k
  {
    var first := FirstAt(targets, t);
    assert forall m :: 0 <= m < k ==> targets[m] in targets[..k];
    assert forall m :: 0 <= m < first ==> targets[m] in targets[..first];
  }

  lemma FirstAtGrows(targets: seq<string>, last: string, t: string)
    requires t in targets + [last]
    ensures t in targets ==> FirstAt(targets + [last], t) == FirstAt(targets, t) < |targets|
    ensures t !in targets ==> FirstAt(targets + [last], t) == |targets|
  {
    if t in targets {
      var k := FirstAt(targets, t);
      assert targets[..|targets|] == targets;
      assert (targets + [last])[..k] == targets[..k];
      FirstAtIs(targets + [last], t, k);
    } else {
      assert (targets + [last])[..|targets|] == targets;
      FirstAtIs(targets + [last], t, |targets|);
    }
  }

  lemma OrderOneMore(targets: seq<string>, t: string, out: seq<Selector>)
    requires InOrder(targets, out) && forall s :: s in out ==> s.value in targets
    ensures InOrder(targets + [t], out)
    ensures t !in targets ==> InOrder(targets + [t], out + [SelectorFor(t)])
  {
    forall i | 0 <= i < |out|
      ensures FirstAt(targets + [t], out[i].value) == FirstAt(targets, out[i].value) < |targets|
    {
      assert out[i] in out;
      FirstAtGrows(targets, t, out[i].value);
    }
    if t !in targets {
      FirstAtGrows(targets, t, t);
    }
  }

  function AddSelector(out: seq<Selector>, t: string): seq<Selector> {
    if t == "" || SelectorFor(t) in out then out else out + [SelectorFor(t)]
  }

  lemma SelectorsOneMore(targets: seq<string>, t: string, out: seq<Selector>)
    requires Selects(targets, out)
    ensures Selects(targets + [t], AddSelector(out, t))
  {
    OrderOneMore(targets, t, out);
    assert NonEmpty(targets + [t]) == NonEmpty(targets) + ({t} - {""});
    assert t != "" && t in targets ==> t in NonEmpty(targets) && SelectorFor(t) in out;
  }

  /** discovery.go:168-178 with `dedupeSelectors`. */
  method BuildSelectors(targets: seq<string>) returns (out: seq<Selector>)
    ensures Selects(targets, out)
  {
    out := [];
    for i := 0 to |targets|
      invariant Selects(targets[..i], out)
    {
      SelectorsOneMore(targets[..i], targets[i], out);
      assert targets[..i + 1] == targets[..i] + [targets[i]];
      out := AddSelector(out, targets[i]);
    }
    assert targets[..|targets|] == targets;
  }

  /** `buildRemovedCandidates`. */
  method BuildRemovedCandidates(root: set<string>, removed: set<string>, graph: Graph) returns (out: seq<string>)
    ensures Ascending(out)
    ensures Elements(out) == set a | a in root && a != "" && !IsModule(a) && (a in removed || a !in graph)
  {
    var todo, list := root, [];
    while todo != {}
      invariant todo <= root
      invariant Elements(list) == set a | a in root - todo && a != "" && !IsModule(a) && (a in removed || a !in graph)
    {
      var a :| a in todo;
      todo := todo - {a};
      if a == "" || IsModule(a) { continue; }
      if a in removed {
        list := list + [a];
        continue;
      }
      if a in graph { continue; }
      list := list + [a];
    }
    out := DedupeSortedStrings(list);
  }

  /** `buildConfigNodes`. */
  method BuildConfigNodes(graph: Graph, addresses: seq<string>) returns (nodes: seq<ConfigNode>)
    ensures IsNodeList(graph, Elements(addresses), nodes)
  {
    var addrs := DedupeSortedStrings(addresses);
    AscendingIsDistinct(addrs);
    nodes := [];
    for i := 0 to |addrs|
      invariant IsNodeList(graph, Elements(addrs[..i]), nodes)
    {
      assert addrs[..i + 1] == addrs[..i] + [addrs[i]];
      assert addrs[i] !in addrs[..i];
      assert addrs[i] in Elements(addrs);
      forall n | n in nodes ensures Less(n.address, addrs[i]) {
        assert n.address in addrs[..i];
      }
      if addrs[i] in graph {
        var deps := DedupeSortedStrings(graph[addrs[i]]);
        var n := ConfigNode(addrs[i], deps);
        NodeAppended(graph, addrs[..i], addrs[i], nodes, n);
        nodes := nodes + [n];
      } else {
        assert Elements(addrs[..i + 1]) == Elements(addrs[..i]) + {addrs[i]};
      }
    }
    assert addrs[..|addrs|] == addrs;
  }

  lemma NodeAppended(graph: Graph, addrs: seq<string>, a: string, nodes: seq<ConfigNode>, n: ConfigNode)
    requires IsNodeList(graph, Elements(addrs), nodes) && a !in addrs && a != "" && a in graph
    requires n.address == a && IsNode(graph, n)
    requires forall m :: m in nodes ==> Less(m.address, a)
    ensures IsNodeList(graph, Elements(addrs + [a]), nodes + [n])
  {
    forall i | 0 <= i < |nodes| ensures Less(nodes[i].address, a) {
      assert nodes[i] in nodes;
    }
    forall m | m in nodes + [n] ensures m.address in Elements(addrs + [a]) - {""} && IsNode(graph, m) {
      assert m in nodes || m == n;
    }
    forall b | b in Elements(addrs + [a]) - {""} && b in graph
      ensures exists m :: m in nodes + [n] && m.address == b
    {
      if b == a {
        assert n in nodes + [n];
      } else {
        assert b in Elements(addrs);
        var m :| m in nodes && m.address == b;
        assert m in nodes + [n];
      }
    }
  }

  /** `DiscoverForTargets` of the OpenTofu engine, after the graph is loaded. */
  method DiscoverForTargets(graph: Graph, targets: seq<string>) returns (intent: Intent, candidates: seq<string>)
    ensures IsReach(Declared(graph), NonEmpty(targets), Elements(candidates))
    ensures IsIntent(targets, RootResources(targets), {}, candidates, graph, intent)
  {
    candidates := ExpandTargets(graph, targets);
    intent := BuildIntent(targets, RootResources(targets), {}, candidates, graph);
  }

  function RootResources(targets: seq<string>): set<string> {
    set t | t in targets && t != "" && !IsModule(t)
  }

  /** The wire form of an intent (cmd/kl/state_engine_client.go:195-205). */
  function ToRequest(intent: Intent): Request {
    Request(intent.selectors, intent.configNodes, intent.explicitWrite, intent.explicitRead, intent.undeployed,
      intent.removed)
  }
}
