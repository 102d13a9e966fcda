/** The expanded scope read off the request and the snapshot as they are given: recorded
    dependency lists, config nodes in the order sent, selectors and candidates.  Nothing here
    is said through the sets the walk works with. */
module ScopeOnInput {
  import opened Ordering
  import opened Reachability
  import opened ScopeExpand

  /** Node `i` is the last one sent for its address. */
  predicate LastNode(nodes: seq<ConfigNode>, i: int) {
    0 <= i < |nodes| && nodes[i].address != "" && forall j :: i < j < |nodes| ==> nodes[j].address != nodes[i].address
  }

  /** The config node of `a` lists `d`. */
  predicate ListedBy(nodes: seq<ConfigNode>, a: string, d: string) {
    exists i :: 0 <= i < |nodes| && LastNode(nodes, i) && nodes[i].address == a && d in nodes[i].dependencies
  }

  /** `d` is a recorded dependency of `a`: of the realized resource, or of its config node. */
  predicate Recorded(snap: Snapshot, nodes: seq<ConfigNode>, a: string, d: string) {
    d != "" && ((a in snap.realized && a in snap.adjacency && d in snap.adjacency[a]) || ListedBy(nodes, a, d))
  }

  /** One of the two graphs knows the address. */
  predicate Placed(snap: Snapshot, nodes: seq<ConfigNode>, a: string) {
    a in snap.realized || (a != "" && exists n :: n in nodes && n.address == a)
  }

  /** The selector picks a realized resource: by its address, or as a member of its module. */
  predicate Picks(snap: Snapshot, s: Selector, a: string) {
    || (s.kind.ResourceAddress? && s.value == a && a in snap.realized)
    || (s.kind.ModulePrefix? && s.value != "" && s.value in snap.moduleMembers && a in snap.moduleMembers[s.value])
  }

  /** A realized resource that the request asks to write. */
  predicate AskedToWrite(snap: Snapshot, req: Request, a: string) {
    || (a in snap.realized && a != "" && a in req.explicitWrite)
    || exists s :: s in req.selectors && Picks(snap, s, a)
  }

  /** Where the walk starts. */
  predicate Asked(snap: Snapshot, req: Request, a: string) {
    AskedToWrite(snap, req, a) || (a != "" && (a in req.explicitWrite || a in req.explicitRead))
  }

  /** An address the request names that is not realized. */
  predicate NamedButMissing(snap: Snapshot, req: Request, a: string) {
    && a != "" && a !in snap.realized
    && (a in req.explicitWrite || a in req.explicitRead || Selector(ResourceAddress, a) in req.selectors)
  }

  lemma {:induction false} GraphHasLastNodes(nodes: seq<ConfigNode>, a: string, d: string)
    ensures a in ConfigGraphOf(nodes) <==> a != "" && exists n :: n in nodes && n.address == a
    ensures a in ConfigGraphOf(nodes) && d in ConfigGraphOf(nodes)[a] <==> d != "" && ListedBy(nodes, a, d)
  {
    if nodes != [] {
      var front, last := nodes[..|nodes| - 1], nodes[|nodes| - 1];
      assert nodes == front + [last];
      GraphHasLastNodes(front, a, d);
      if last.address == a && a != "" {
        assert LastNode(nodes, |front|);
        assert forall i :: LastNode(nodes, i) && nodes[i].address == a ==> i == |front|;
      } else {
        assert forall i :: 0 <= i < |front| && front[i].address == a ==> (LastNode(nodes, i) <==> LastNode(front, i));
      }
    }
  }

  lemma EdgesAreRecorded(snap: Snapshot, nodes: seq<ConfigNode>, a: string, d: string)
    ensures d in Deps(snap, ConfigGraphOf(nodes), a) <==> Recorded(snap, nodes, a, d)
    ensures Known(snap, ConfigGraphOf(nodes), a) <==> Placed(snap, nodes, a)
  {
    GraphHasLastNodes(nodes, a, d);
  }

  lemma StartsAreAsked(snap: Snapshot, req: Request, a: string)
    ensures a in SelectedWrite(snap, req) <==> AskedToWrite(snap, req, a)
    ensures a in Seeds(snap, req) <==> Asked(snap, req, a)
    ensures a in Missing(snap, req) <==> NamedButMissing(snap, req, a)
  {
    assert forall s :: s in req.selectors && s.kind.ResourceAddress? && s.value == a ==>
      s == Selector(ResourceAddress, a);
    assert forall s :: s in req.selectors ==> (a in SelectedBy(snap, s) <==> Picks(snap, s, a));
  }

  // ------------------------------------------------------------------ theorems

  ghost predicate TrailStep(snap: Snapshot, req: Request, p: seq<string>, k: nat)
    requires 0 < k < |p|
  {
    Recorded(snap, req.configNodes, p[k - 1], p[k]) && Placed(snap, req.configNodes, p[k])
  }

  /** A chain of recorded dependencies from something asked for; all but its first address are
      known to one of the graphs. */
  ghost predicate Trail(snap: Snapshot, req: Request, p: seq<string>) {
    && p != [] && Asked(snap, req, p[0])
    && forall k :: 0 < k < |p| ==> TrailStep(snap, req, p, k)
  }

  lemma TrailsAreWalked(snap: Snapshot, req: Request, a: string)
    ensures Reachable(Walk(snap, ConfigGraphOf(req.configNodes)), Seeds(snap, req), a) <==>
              exists p :: Trail(snap, req, p) && p[|p| - 1] == a
  {
    var succ := Walk(snap, ConfigGraphOf(req.configNodes));
    forall p: seq<string> | p != []
      ensures Path(succ, p) && p[0] in Seeds(snap, req) <==> Trail(snap, req, p)
    {
      StartsAreAsked(snap, req, p[0]);
      forall k | 0 < k < |p| ensures Hop(succ, p, k) <==> TrailStep(snap, req, p, k) {
        EdgesAreRecorded(snap, req.configNodes, p[k - 1], p[k]);
        EdgesAreRecorded(snap, req.configNodes, p[k], p[k]);
      }
    }
  }

  /** The scope is what trails lead to: the realized part is fetched, what only the
      configuration knows is required from it. */
  lemma ScopeIsWhatTrailsReach(snap: Snapshot, req: Request, visited: set<string>, c: Contract, a: string)
    requires snap.WellFormed() && IsContract(snap, req, visited, c)
    ensures a in c.fetch <==> a in snap.realized && exists p :: Trail(snap, req, p) && p[|p| - 1] == a
    ensures a in c.configRequired <==>
              && a !in snap.realized && Placed(snap, req.configNodes, a)
              && exists p :: Trail(snap, req, p) && p[|p| - 1] == a
    ensures a in c.write <==> AskedToWrite(snap, req, a)
    ensures a in c.read <==> a in c.fetch && !AskedToWrite(snap, req, a)
  {
    TrailsAreWalked(snap, req, a);
    FetchedIsVisited(snap, req, visited, c);
    EdgesAreRecorded(snap, req.configNodes, a, a);
    StartsAreAsked(snap, req, a);
    assert a in c.fetch <==> a in Elements(c.fetch);
    assert a in c.configRequired <==> a in Elements(c.configRequired);
    assert a in c.write <==> a in Elements(c.write);
    assert a in c.read <==> a in Elements(c.read);
  }

  /** Nothing gets lost.  Every recorded dependency of a fetched or config-required address is
      fetched, config-required, listed as undeployed or listed as unknown; never unknown when
      the verdict is safe. */
  lemma DependenciesAreAccountedFor(snap: Snapshot, req: Request, visited: set<string>, c: Contract, a: string,
                                    d: string)
    requires snap.WellFormed() && IsContract(snap, req, visited, c)
    requires a in c.fetch || a in c.configRequired
    requires Recorded(snap, req.configNodes, a, d)
    ensures d in c.fetch || d in c.configRequired || d in c.undeployed || d in c.unknownMissing
    ensures c.safe ==> d in c.fetch || d in c.configRequired || d in c.undeployed
  {
    var cg := ConfigGraphOf(req.configNodes);
    FetchedIsVisited(snap, req, visited, c);
    EdgesAreRecorded(snap, req.configNodes, a, d);
    EdgesAreRecorded(snap, req.configNodes, d, d);
    assert a in Elements(c.fetch) || a in Elements(c.configRequired);
    if Known(snap, cg, d) {
      KnownDepIsVisited(snap, cg, Seeds(snap, req), visited, a, d);
      assert d in Elements(c.fetch) || d in Elements(c.configRequired);
    } else {
      assert d in Unresolved(snap, cg, visited);
      assert d in Elements(c.undeployed) || d in Elements(c.unknownMissing);
    }
  }

  /** A dependency met on the walk that neither graph knows. */
  ghost predicate Stray(snap: Snapshot, req: Request, d: string) {
    && !Placed(snap, req.configNodes, d)
    && exists p :: Trail(snap, req, p) && Recorded(snap, req.configNodes, p[|p| - 1], d)
  }

  /** The lists of what is missing, and the verdict. */
  lemma MissingIsAnnouncedOrUnknown(snap: Snapshot, req: Request, visited: set<string>, c: Contract, d: string)
    requires IsContract(snap, req, visited, c)
    ensures d in c.missing <==> NamedButMissing(snap, req, d)
    ensures d in c.removedConfig <==> d != "" && d in req.removed
    ensures d in c.undeployed <==>
              && d != "" && d in req.undeployed
              && ((NamedButMissing(snap, req, d) && d !in req.removed) || Stray(snap, req, d))
    ensures d in c.unknownMissing <==>
              && d !in req.undeployed
              && ((NamedButMissing(snap, req, d) && d !in req.removed) || Stray(snap, req, d))
    ensures c.safe <==> c.unknownMissing == []
  {
    StartsAreAsked(snap, req, d);
    StraysAreUnresolved(snap, req, visited, d);
    assert d in c.missing <==> d in Elements(c.missing);
    assert d in c.removedConfig <==> d in Elements(c.removedConfig);
    assert d in c.undeployed <==> d in Elements(c.undeployed);
    assert d in c.unknownMissing <==> d in Elements(c.unknownMissing);
  }

  lemma StraysAreUnresolved(snap: Snapshot, req: Request, visited: set<string>, d: string)
    requires IsReach(Walk(snap, ConfigGraphOf(req.configNodes)), Seeds(snap, req), visited)
    ensures d in Unresolved(snap, ConfigGraphOf(req.configNodes), visited) <==> Stray(snap, req, d)
  {
    var cg := ConfigGraphOf(req.configNodes);
    EdgesAreRecorded(snap, req.configNodes, d, d);
    if d in Unresolved(snap, cg, visited) {
      var a :| a in visited && d in Deps(snap, cg, a);
      TrailsAreWalked(snap, req, a);
      EdgesAreRecorded(snap, req.configNodes, a, d);
    }
    if Stray(snap, req, d) {
      var p :| Trail(snap, req, p) && Recorded(snap, req.configNodes, p[|p| - 1], d);
      TrailsAreWalked(snap, req, p[|p| - 1]);
      EdgesAreRecorded(snap, req.configNodes, p[|p| - 1], d);
    }
  }
}
