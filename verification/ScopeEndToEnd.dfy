/** The client's intent and the backend's verdict taken together. */
module ScopeEndToEnd {
  import opened Ordering
  import opened Reachability
  import opened ScopeExpand
  import opened ConfigScope

  /** What the backend still cannot place: state-edge dependencies of visited realized
      resources that are neither realized nor in the client's config closure. */
  function StrayStateEdges(snap: Snapshot, visited: set<string>, closure: set<string>): set<string> {
    set a, d | a in visited * snap.realized && d in StateEdges(snap, a) && d !in snap.realized && d !in closure :: d
  }

  /** The config graph the backend rebuilds is the client's, restricted to the closure. */
  lemma ConfigGraphOfNodes(graph: Graph, addrs: set<string>, nodes: seq<ConfigNode>)
    requires IsNodeList(graph, addrs, nodes)
    ensures ConfigGraphOf(nodes).Keys == (addrs - {""}) * graph.Keys
    ensures forall a :: a in ConfigGraphOf(nodes) ==> ConfigGraphOf(nodes)[a] == NonEmpty(graph[a])
  {
    forall i, j | 0 <= i < j < |nodes| ensures nodes[i].address != nodes[j].address {
      LessIsStrict(nodes[i].address, nodes[i].address);
    }
    NodesToGraph(nodes);
    forall a ensures a in ConfigGraphOf(nodes) <==> a in (addrs - {""}) * graph.Keys {
      if a in ConfigGraphOf(nodes) {
        var n :| n in nodes && n.address == a;
      }
    }
    forall a | a in ConfigGraphOf(nodes) ensures ConfigGraphOf(nodes)[a] == NonEmpty(graph[a]) {
      var n :| n in nodes && n.address == a;
    }
  }

  lemma {:induction false} NodesToGraph(nodes: seq<ConfigNode>)
    requires forall i, j :: 0 <= i < j < |nodes| ==> nodes[i].address != nodes[j].address
    ensures forall a :: a in ConfigGraphOf(nodes) <==> a != "" && exists n :: n in nodes && n.address == a
    ensures forall n :: n in nodes && n.address != "" ==>
              n.address in ConfigGraphOf(nodes) && ConfigGraphOf(nodes)[n.address] == NonEmpty(n.dependencies)
  {
    if nodes != [] {
      var front, last := nodes[..|nodes| - 1], nodes[|nodes| - 1];
      assert nodes == front + [last];
      NodesToGraph(front);
      forall n | n in front ensures n.address != last.address {
        var i :| 0 <= i < |front| && front[i] == n;
        assert nodes[i].address != nodes[|nodes| - 1].address;
      }
      assert forall n :: n in nodes <==> n in front || n == last;
    }
  }

  /** Every address the client asks about explicitly lies in its closure. */
  lemma ExplicitIsInClosure(graph: Graph, targets: seq<string>, candidates: seq<string>, intent: Intent, snap: Snapshot)
    requires IsReach(Declared(graph), NonEmpty(targets), Elements(candidates))
    requires IsIntent(targets, RootResources(targets), {}, candidates, graph, intent)
    ensures Missing(snap, ToRequest(intent)) <= NonEmpty(candidates)
    ensures NonEmpty(ToRequest(intent).undeployed) == NonEmpty(candidates)
  {
    ReachIsClosed(Declared(graph), NonEmpty(targets), Elements(candidates));
    SelectorsAreTargets(targets, intent);
    assert NonEmpty(intent.explicitWrite) <= NonEmpty(targets);
    assert NonEmpty(intent.explicitRead) <= NonEmpty(candidates);
  }

  lemma SelectorsAreTargets(targets: seq<string>, intent: Intent)
    requires forall s :: s in intent.selectors <==> exists t :: t in NonEmpty(targets) && s == SelectorFor(t)
    ensures (set s | s in intent.selectors && s.kind.ResourceAddress? && s.value != "" :: s.value) <= NonEmpty(targets)
  {
    forall s | s in intent.selectors ensures s.value in NonEmpty(targets) {
      var t :| t in NonEmpty(targets) && s == SelectorFor(t);
    }
  }

  /** A config edge of a node in the closure stays in the closure. */
  lemma ConfigEdgeStaysInClosure(graph: Graph, targets: set<string>, closure: set<string>, a: string, d: string)
    requires IsReach(Declared(graph), targets, closure)
    requires a in closure && d in DepsOf(graph, a)
    ensures d in closure
  {
    ReachStep(Declared(graph), targets, closure, a, d);
  }

  lemma UnresolvedOutsideClosure(graph: Graph, targets: set<string>, closure: set<string>, snap: Snapshot,
                                 cg: ConfigGraph, visited: set<string>)
    requires IsReach(Declared(graph), targets, closure) && "" !in closure
    requires cg.Keys == closure * graph.Keys && forall a :: a in cg ==> cg[a] == NonEmpty(graph[a])
    ensures Unresolved(snap, cg, visited) - closure == StrayStateEdges(snap, visited, closure)
  {
    forall d ensures d in Unresolved(snap, cg, visited) - closure <==> d in StrayStateEdges(snap, visited, closure) {
      if d in Unresolved(snap, cg, visited) - closure {
        var a :| a in visited && d in Deps(snap, cg, a) && !Known(snap, cg, d);
        if d !in StateEdges(snap, a) {
          ConfigEdgeStaysInClosure(graph, targets, closure, a, d);
        }
      }
      if d in StrayStateEdges(snap, visited, closure) {
        var a :| a in visited * snap.realized && d in StateEdges(snap, a) && d !in snap.realized && d !in closure;
        assert d in Deps(snap, cg, a) && !Known(snap, cg, d);
      }
    }
  }

  /** Client and server together.  For an intent built from targets, the backend's
      unknown-missing set is exactly the stray state edges: no selector, explicit candidate
      or config edge can make the scope unsafe on its own. */
  lemma OnlyStateEdgesMakeScopeUnsafe(graph: Graph, targets: seq<string>, candidates: seq<string>, intent: Intent,
                                      snap: Snapshot, visited: set<string>, c: Contract)
    requires IsReach(Declared(graph), NonEmpty(targets), Elements(candidates))
    requires IsIntent(targets, RootResources(targets), {}, candidates, graph, intent)
    requires IsContract(snap, ToRequest(intent), visited, c)
    ensures Elements(c.unknownMissing) == StrayStateEdges(snap, visited, NonEmpty(candidates))
    ensures c.safe <==> StrayStateEdges(snap, visited, NonEmpty(candidates)) == {}
  {
    var req, closure := ToRequest(intent), Elements(candidates);
    ClosureHasNoEmpty(graph, targets, closure);
    ExplicitIsInClosure(graph, targets, candidates, intent, snap);
    SentGraph(graph, targets, candidates, intent);
    UnresolvedOutsideClosure(graph, NonEmpty(targets), closure, snap, ConfigGraphOf(req.configNodes), visited);
    UnknownIs(snap, req, visited, closure);
    ElementsOfEmpty(c.unknownMissing);
  }

  lemma UnknownIs(snap: Snapshot, req: Request, visited: set<string>, closure: set<string>)
    requires Missing(snap, req) <= closure && NonEmpty(req.undeployed) == closure
    ensures Unknown(snap, req, visited) == Unresolved(snap, ConfigGraphOf(req.configNodes), visited) - closure
  {
  }

  lemma SentGraph(graph: Graph, targets: seq<string>, candidates: seq<string>, intent: Intent)
    requires IsReach(Declared(graph), NonEmpty(targets), Elements(candidates)) && "" !in Elements(candidates)
    requires IsIntent(targets, RootResources(targets), {}, candidates, graph, intent)
    ensures var cg := ConfigGraphOf(intent.configNodes);
            cg.Keys == Elements(candidates) * graph.Keys && forall a :: a in cg ==> cg[a] == NonEmpty(graph[a])
  {
    RootsInClosure(graph, targets, Elements(candidates));
    var addrs := RootResources(targets) + NonEmpty(candidates);
    ConfigGraphOfNodes(graph, addrs, intent.configNodes);
    assert addrs - {""} == Elements(candidates);
  }

  lemma RootsInClosure(graph: Graph, targets: seq<string>, closure: set<string>)
    requires IsReach(Declared(graph), NonEmpty(targets), closure)
    ensures RootResources(targets) <= closure
  {
    forall t | t in RootResources(targets) ensures t in closure {
      SourcesAreReachable(Declared(graph), NonEmpty(targets), t);
    }
  }

  lemma ClosureHasNoEmpty(graph: Graph, targets: seq<string>, closure: set<string>)
    requires IsReach(Declared(graph), NonEmpty(targets), closure)
    ensures "" !in closure
  {
    var inner := closure - {""};
    forall a, d | a in inner && d in Declared(graph)(a) ensures d in inner {
      ReachStep(Declared(graph), NonEmpty(targets), closure, a, d);
    }
    ReachIsClosed(Declared(graph), NonEmpty(targets), closure);
    if "" in closure {
      ReachableIsLeast(Declared(graph), NonEmpty(targets), inner, "");
    }
  }

  /** A target that names a resource, not a module. */
  predicate NamesResource(targets: seq<string>, a: string) {
    a in targets && a != "" && !("module." <= a)
  }

  /** The request that goes out for given targets, read off the targets, the closure and the
      graph: a selector per target, of the kind its address shows; the resources among the
      targets to write, the rest of the closure to read, all of the closure announced as
      undeployed, the resources the graph does not declare announced as removed; and a node for
      every address of the closure that the graph declares. */
  lemma RequestFromTargets(graph: Graph, targets: seq<string>, candidates: seq<string>, intent: Intent, a: string)
    requires IsReach(Declared(graph), NonEmpty(targets), Elements(candidates))
    requires IsIntent(targets, RootResources(targets), {}, candidates, graph, intent)
    ensures var req := ToRequest(intent);
            && (Selector(ModulePrefix, a) in req.selectors <==> a in targets && "module." <= a)
            && (Selector(ResourceAddress, a) in req.selectors <==> NamesResource(targets, a))
            && (a in req.explicitWrite <==> NamesResource(targets, a))
            && (a in req.explicitRead <==> a in candidates && !NamesResource(targets, a))
            && (a in req.undeployed <==> a in candidates)
            && (a in req.removed <==> NamesResource(targets, a) && a !in graph)
            && ((exists n :: n in req.configNodes && n.address == a) <==> a in candidates && a in graph)
            && (forall n, d :: n in req.configNodes && n.address == a ==>
                  a in graph && (d in n.dependencies <==> d in graph[a] && d != ""))
  {
    ClosureHasNoEmpty(graph, targets, Elements(candidates));
    RootsInClosure(graph, targets, Elements(candidates));
    SelectorKinds(targets, intent, a);
    assert a in intent.explicitWrite <==> a in Elements(intent.explicitWrite);
    assert a in intent.explicitRead <==> a in Elements(intent.explicitRead);
    assert a in intent.undeployed <==> a in Elements(intent.undeployed);
    assert a in intent.removed <==> a in Elements(intent.removed);
    assert a in candidates <==> a in Elements(candidates);
    NodesSent(graph, RootResources(targets) + NonEmpty(candidates), intent.configNodes, a);
  }

  lemma SelectorKinds(targets: seq<string>, intent: Intent, a: string)
    requires Selects(targets, intent.selectors)
    ensures Selector(ModulePrefix, a) in intent.selectors <==> a in targets && "module." <= a
    ensures Selector(ResourceAddress, a) in intent.selectors <==> NamesResource(targets, a)
  {
    assert forall t :: SelectorFor(t).value == t;
    assert a in targets && a != "" ==> SelectorFor(a) in intent.selectors;
  }

  lemma NodesSent(graph: Graph, addrs: set<string>, nodes: seq<ConfigNode>, a: string)
    requires IsNodeList(graph, addrs, nodes)
    ensures (exists n :: n in nodes && n.address == a) <==> a in addrs && a != "" && a in graph
    ensures forall n, d :: n in nodes && n.address == a ==>
              a in graph && (d in n.dependencies <==> d in graph[a] && d != "")
  {
    forall n, d | n in nodes && n.address == a
      ensures a in graph && (d in n.dependencies <==> d in graph[a] && d != "")
    {
      assert IsNode(graph, n);
      assert d in n.dependencies <==> d in Elements(n.dependencies);
    }
  }
}
