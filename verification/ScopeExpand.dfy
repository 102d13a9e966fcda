/** The backend scope walk (internal/backend/state_engine.go:255-563), without HTTP.
    Addresses are taken as already trimmed. */
module ScopeExpand {
  import opened Ordering
  import opened Reachability

  /** The realized-state graph of one serial. */
  datatype Snapshot = Snapshot(
    realized: set<string>, adjacency: map<string, seq<string>>, moduleMembers: map<string, seq<string>>)
  {
    /** Addresses are non-empty, and the module index lists realized resources only. */
    predicate WellFormed() {
      && "" !in realized
      && forall m :: m in moduleMembers ==> Elements(moduleMembers[m]) <= realized
    }
  }

  datatype Kind = ResourceAddress | ModulePrefix | OtherKind
  datatype Selector = Selector(kind: Kind, value: string)
  datatype ConfigNode = ConfigNode(address: string, dependencies: seq<string>)

  datatype Request = Request(
    selectors: seq<Selector>, configNodes: seq<ConfigNode>,
    explicitWrite: seq<string>, explicitRead: seq<string>,
    undeployed: seq<string>, removed: seq<string>)

  datatype Reservation = Reservation(address: string, write: bool)

  datatype Contract = Contract(
    fetch: seq<string>, write: seq<string>, read: seq<string>,
    configRequired: seq<string>, removedConfig: seq<string>,
    missing: seq<string>, undeployed: seq<string>, unknownMissing: seq<string>,
    reservations: seq<Reservation>, safe: bool)

  function NonEmpty(s: seq<string>): set<string> {
    Elements(s) - {""}
  }

  type ConfigGraph = map<string, set<string>>

  /** A later node with the same address replaces an earlier one. */
  function ConfigGraphOf(nodes: seq<ConfigNode>): ConfigGraph {
    if nodes == [] then map[]
    else
      var n := nodes[|nodes| - 1];
      var front := ConfigGraphOf(nodes[..|nodes| - 1]);
      if n.address == "" then front else front[n.address := NonEmpty(n.dependencies)]
  }

  function Members(snap: Snapshot, prefix: string): set<string> {
    if prefix in snap.moduleMembers then Elements(snap.moduleMembers[prefix]) else {}
  }

  function SelectedBy(snap: Snapshot, s: Selector): set<string> {
    match s.kind
    case ResourceAddress => if s.value in snap.realized then {s.value} else {}
    case ModulePrefix => if s.value != "" then Members(snap, s.value) else {}
    case OtherKind => {}
  }

  function SelectedWrite(snap: Snapshot, req: Request): set<string> {
    (set s, a | s in req.selectors && a in SelectedBy(snap, s) :: a)
    + (NonEmpty(req.explicitWrite) * snap.realized)
  }

  function Seeds(snap: Snapshot, req: Request): set<string> {
    SelectedWrite(snap, req) + NonEmpty(req.explicitWrite) + NonEmpty(req.explicitRead)
  }

  function StateEdges(snap: Snapshot, a: string): set<string> {
    if a in snap.realized && a in snap.adjacency then NonEmpty(snap.adjacency[a]) else {}
  }

  function ConfigEdges(cg: ConfigGraph, a: string): set<string> {
    if a in cg then cg[a] else {}
  }

  /** Dependencies of an address: state edges of a realized resource, and config edges. */
  function Deps(snap: Snapshot, cg: ConfigGraph, a: string): set<string> {
    StateEdges(snap, a) + ConfigEdges(cg, a)
  }

  predicate Known(snap: Snapshot, cg: ConfigGraph, a: string) {
    a in snap.realized || a in cg
  }

  ghost function Walk(snap: Snapshot, cg: ConfigGraph): Edges {
    a => KnownDeps(snap, cg, a)
  }

  function KnownDeps(snap: Snapshot, cg: ConfigGraph, a: string): set<string> {
    KnownOf(snap, cg, Deps(snap, cg, a))
  }

  function KnownOf(snap: Snapshot, cg: ConfigGraph, deps: set<string>): set<string> {
    set d | d in deps && Known(snap, cg, d)
  }

  function UnknownOf(snap: Snapshot, cg: ConfigGraph, deps: set<string>): set<string> {
    set d | d in deps && !Known(snap, cg, d)
  }

  /** Dependencies of visited addresses that neither graph knows. */
  function Unresolved(snap: Snapshot, cg: ConfigGraph, visited: set<string>): set<string> {
    set a, d | a in visited && d in Deps(snap, cg, a) && !Known(snap, cg, d) :: d
  }

  /** Explicitly requested addresses that are not realized. */
  function Missing(snap: Snapshot, req: Request): set<string> {
    (NonEmpty(req.explicitWrite) + NonEmpty(req.explicitRead)
     + (set s | s in req.selectors && s.kind.ResourceAddress? && s.value != "" :: s.value)) - snap.realized
  }

  function Unknown(snap: Snapshot, req: Request, visited: set<string>): set<string> {
    (Missing(snap, req) - NonEmpty(req.removed) - NonEmpty(req.undeployed))
    + (Unresolved(snap, ConfigGraphOf(req.configNodes), visited) - NonEmpty(req.undeployed))
  }

  /** `c` is the contract for the addresses `visited` by the walk. */
  ghost predicate IsContract(snap: Snapshot, req: Request, visited: set<string>, c: Contract) {
    var cg := ConfigGraphOf(req.configNodes);
    var write := SelectedWrite(snap, req);
    && IsReach(Walk(snap, cg), Seeds(snap, req), visited)
    && Ascending(c.fetch) && Ascending(c.write) && Ascending(c.read) && Ascending(c.configRequired)
    && Ascending(c.removedConfig) && Ascending(c.missing) && Ascending(c.undeployed) && Ascending(c.unknownMissing)
    && Elements(c.write) == write
    && Elements(c.read) == (visited * snap.realized) - write
    && Elements(c.fetch) == Elements(c.write) + Elements(c.read)
    && Elements(c.configRequired) == ConfigOnly(snap, cg, visited)
    && Elements(c.removedConfig) == NonEmpty(req.removed)
    && Elements(c.missing) == Missing(snap, req)
    && Elements(c.undeployed) ==
         ((Missing(snap, req) - NonEmpty(req.removed)) + Unresolved(snap, cg, visited)) * NonEmpty(req.undeployed)
    && Elements(c.unknownMissing) == Unknown(snap, req, visited)
    && c.safe == (c.unknownMissing == [])
    && c.reservations == ReservationsFor(c.write, true) + ReservationsFor(c.read, false)
  }

  function ReservationsFor(addrs: seq<string>, write: bool): (r: seq<Reservation>)
    ensures |r| == |addrs|
    ensures forall i :: 0 <= i < |r| ==> r[i] == Reservation(addrs[i], write)
  {
    seq(|addrs|, i requires 0 <= i < |addrs| => Reservation(addrs[i], write))
  }

  // ----------------------------------------------------------------- the walk

  /** The work queue: everything ever pushed, and what is still to be taken off. */
  datatype Queue = Queue(pushed: set<string>, pending: seq<string>)

  function Push(q: Queue, addr: string): Queue {
    if addr == "" || addr in q.pushed then q else Queue(q.pushed + {addr}, q.pending + [addr])
  }

  method PushAll(q0: Queue, addrs: set<string>) returns (q: Queue)
    ensures q.pushed == q0.pushed + (addrs - {""})
    ensures Elements(q.pending) == Elements(q0.pending) + (addrs - {""} - q0.pushed)
  {
    q := q0;
    var todo := addrs;
    while todo != {}
      invariant todo <= addrs
      invariant q.pushed == q0.pushed + (addrs - todo - {""})
      invariant Elements(q.pending) == Elements(q0.pending) + (addrs - todo - {""} - q0.pushed)
    {
      var a :| a in todo;
      todo := todo - {a};
      q := Push(q, a);
    }
  }

  /** state_engine.go:376-386: push the known dependencies, record the others as unresolved. */
  method Visit(snap: Snapshot, cg: ConfigGraph, deps: seq<string>, q0: Queue, unresolved0: set<string>)
    returns (q: Queue, unresolved: set<string>)
    requires "" !in deps
    ensures q.pushed == q0.pushed + KnownOf(snap, cg, Elements(deps))
    ensures Elements(q.pending) == Elements(q0.pending) + (KnownOf(snap, cg, Elements(deps)) - q0.pushed)
    ensures unresolved == unresolved0 + UnknownOf(snap, cg, Elements(deps))
  {
    q, unresolved := q0, unresolved0;
    for i := 0 to |deps|
      invariant q.pushed == q0.pushed + KnownOf(snap, cg, Elements(deps[..i]))
      invariant Elements(q.pending) == Elements(q0.pending) + (KnownOf(snap, cg, Elements(deps[..i])) - q0.pushed)
      invariant unresolved == unresolved0 + UnknownOf(snap, cg, Elements(deps[..i]))
    {
      assert deps[..i + 1] == deps[..i] + [deps[i]];
      assert deps[i] in deps;
      if deps[i] in snap.realized {
        q := Push(q, deps[i]);
      } else if deps[i] in cg {
        q := Push(q, deps[i]);
      } else {
        unresolved := unresolved + {deps[i]};
      }
    }
    assert deps[..|deps|] == deps;
  }

  /** state_engine.go:372-405: the dependency list of one address; a realized resource has
      state edges and config edges, a config-only node has config edges. */
  method DepsList(snap: Snapshot, cg: ConfigGraph, addr: string) returns (deps: seq<string>)
    requires CleanGraph(cg)
    ensures Elements(deps) == Deps(snap, cg, addr)
    ensures "" !in deps
  {
    var config := SortedSetKeys(ConfigEdges(cg, addr));
    if addr in snap.realized {
      var state := if addr in snap.adjacency then snap.adjacency[addr] else [];
      deps := DedupeSortedStrings(state + config);
      assert Elements(state + config) == Elements(state) + Elements(config);
      assert "" !in Elements(config);
    } else {
      deps := config;
    }
    assert "" !in Elements(deps);
  }

  predicate CleanGraph(cg: ConfigGraph) {
    forall a :: a in cg ==> "" !in cg[a]
  }

  /** What holds of the walk between two visits. */
  ghost predicate Walking(snap: Snapshot, cg: ConfigGraph, seeds: set<string>,
                          q: Queue, visited: set<string>, unresolved: set<string>) {
    && q.pushed == visited + Elements(q.pending)
    && seeds <= q.pushed <= seeds + snap.realized + cg.Keys
    && (forall x :: x in q.pushed ==> Reachable(Walk(snap, cg), seeds, x))
    && (forall a :: a in visited ==> KnownDeps(snap, cg, a) <= q.pushed)
    && unresolved == Unresolved(snap, cg, visited)
  }

  /** Take the head off the queue and visit it. */
  method VisitHead(snap: Snapshot, cg: ConfigGraph, ghost seeds: set<string>, q0: Queue,
                   ghost seen: set<string>, unresolved0: set<string>)
    returns (q: Queue, unresolved: set<string>)
    requires Walking(snap, cg, seeds, q0, seen, unresolved0) && q0.pending != [] && CleanGraph(cg)
    ensures Walking(snap, cg, seeds, q, seen + {q0.pending[0]}, unresolved)
  {
    var deps := DepsList(snap, cg, q0.pending[0]);
    q, unresolved := Visit(snap, cg, deps, Queue(q0.pushed, q0.pending[1..]), unresolved0);
    VisitKeepsWalking(snap, cg, seeds, q0, seen, unresolved0, q0.pending[0], q, unresolved);
  }

  method WalkScope(snap: Snapshot, cg: ConfigGraph, seeds: set<string>)
    returns (visited: set<string>, requiredConfig: set<string>, unresolved: set<string>)
    requires "" !in seeds && CleanGraph(cg)
    ensures IsReach(Walk(snap, cg), seeds, visited)
    ensures requiredConfig == ConfigOnly(snap, cg, visited)
    ensures unresolved == Unresolved(snap, cg, visited)
  {
    var q := PushAll(Queue({}, []), seeds);
    visited, requiredConfig, unresolved := {}, {}, {};
    ghost var universe := seeds + snap.realized + cg.Keys;
    StartWalking(snap, cg, seeds, q);
    while q.pending != []
      invariant Walking(snap, cg, seeds, q, visited, unresolved)
      invariant requiredConfig == ConfigOnly(snap, cg, visited)
      decreases universe - visited, |q.pending|
    {
      var addr := q.pending[0];
      if addr in visited {
        SkipKeepsWalking(snap, cg, seeds, q, visited, unresolved);
        q := q.(pending := q.pending[1..]);
        continue;
      }
      assert addr in Elements(q.pending);
      Shrinks(universe, visited, addr);
      ConfigOneMore(snap, cg, visited, addr);
      q, unresolved := VisitHead(snap, cg, seeds, q, visited, unresolved);
      visited := visited + {addr};
      if addr !in snap.realized && addr in cg {
        requiredConfig := requiredConfig + {addr};
      }
    }
    WalkIsDone(snap, cg, seeds, q, visited, unresolved);
  }

  /** Visited config nodes that are not realized. */
  function ConfigOnly(snap: Snapshot, cg: ConfigGraph, visited: set<string>): set<string> {
    set a | a in visited && a !in snap.realized && a in cg
  }

  lemma ConfigOneMore(snap: Snapshot, cg: ConfigGraph, seen: set<string>, a: string)
    ensures a !in snap.realized && a in cg ==> ConfigOnly(snap, cg, seen + {a}) == ConfigOnly(snap, cg, seen) + {a}
    ensures a in snap.realized || a !in cg ==> ConfigOnly(snap, cg, seen + {a}) == ConfigOnly(snap, cg, seen)
  {
  }

  lemma Shrinks(universe: set<string>, seen: set<string>, a: string)
    requires a in universe && a !in seen
    ensures universe - (seen + {a}) < universe - seen
  {
    assert a in universe - seen;
  }

  lemma StartWalking(snap: Snapshot, cg: ConfigGraph, seeds: set<string>, q: Queue)
    requires q.pushed == seeds == Elements(q.pending)
    ensures Walking(snap, cg, seeds, q, {}, {})
  {
    forall x | x in seeds ensures Reachable(Walk(snap, cg), seeds, x) {
      SourcesAreReachable(Walk(snap, cg), seeds, x);
    }
  }

  lemma WalkIsDone(snap: Snapshot, cg: ConfigGraph, seeds: set<string>, q: Queue, visited: set<string>,
                   unresolved: set<string>)
    requires Walking(snap, cg, seeds, q, visited, unresolved) && q.pending == []
    ensures IsReach(Walk(snap, cg), seeds, visited)
  {
    ClosedAndReachable(Walk(snap, cg), seeds, visited);
  }

  lemma VisitKeepsWalking(snap: Snapshot, cg: ConfigGraph, seeds: set<string>, q0: Queue, seen: set<string>,
                          unresolved0: set<string>, addr: string, q: Queue, unresolved: set<string>)
    requires Walking(snap, cg, seeds, q0, seen, unresolved0)
    requires q0.pending != [] && q0.pending[0] == addr
    requires q.pushed == q0.pushed + KnownDeps(snap, cg, addr)
    requires Elements(q.pending) == Elements(q0.pending[1..]) + (KnownDeps(snap, cg, addr) - q0.pushed)
    requires unresolved == unresolved0 + UnknownOf(snap, cg, Deps(snap, cg, addr))
    ensures Walking(snap, cg, seeds, q, seen + {addr}, unresolved)
  {
    QueueHead(q0.pending);
    VisitReaches(snap, cg, seeds, addr);
    VisitedOneMore(snap, cg, seen, addr);
    Bookkeeping(q0.pushed, seen, addr, Elements(q0.pending[1..]), KnownDeps(snap, cg, addr));
    assert seeds <= q.pushed <= seeds + snap.realized + cg.Keys;
    forall x | x in q.pushed ensures Reachable(Walk(snap, cg), seeds, x) {
      if x in q0.pushed {} else { assert x in KnownDeps(snap, cg, addr); }
    }
    forall a | a in seen + {addr} ensures KnownDeps(snap, cg, a) <= q.pushed {
      assert a in seen || a == addr;
    }
  }

  lemma Bookkeeping(pushed: set<string>, seen: set<string>, addr: string, rest: set<string>, deps: set<string>)
    requires pushed == seen + ({addr} + rest)
    ensures pushed + deps == seen + {addr} + (rest + (deps - pushed))
  {
  }

  lemma SkipKeepsWalking(snap: Snapshot, cg: ConfigGraph, seeds: set<string>, q: Queue, visited: set<string>,
                         unresolved: set<string>)
    requires Walking(snap, cg, seeds, q, visited, unresolved)
    requires q.pending != [] && q.pending[0] in visited
    ensures Walking(snap, cg, seeds, q.(pending := q.pending[1..]), visited, unresolved)
  {
    QueueHead(q.pending);
    assert visited + Elements(q.pending) == visited + Elements(q.pending[1..]);
  }

  lemma QueueHead(s: seq<string>)
    requires s != []
    ensures Elements(s) == {s[0]} + Elements(s[1..])
  {
    assert s == [s[0]] + s[1..];
  }

  lemma VisitedOneMore(snap: Snapshot, cg: ConfigGraph, visited: set<string>, a: string)
    ensures Unresolved(snap, cg, visited + {a}) ==
      Unresolved(snap, cg, visited) + UnknownOf(snap, cg, Deps(snap, cg, a))
  {
  }

  lemma VisitReaches(snap: Snapshot, cg: ConfigGraph, seeds: set<string>, a: string)
    requires Reachable(Walk(snap, cg), seeds, a)
    ensures forall d :: d in KnownDeps(snap, cg, a) ==> Reachable(Walk(snap, cg), seeds, d)
  {
    forall d | d in KnownDeps(snap, cg, a) ensures Reachable(Walk(snap, cg), seeds, d) {
      ReachOneMore(Walk(snap, cg), seeds, a, d);
    }
  }

  // ------------------------------------------------------ selection and verdict

  /** state_engine.go:276-285. */
  method BuildConfigGraph(nodes: seq<ConfigNode>) returns (cg: ConfigGraph)
    ensures cg == ConfigGraphOf(nodes)
  {
    cg := map[];
    for i := 0 to |nodes|
      invariant cg == ConfigGraphOf(nodes[..i])
    {
      assert nodes[..i + 1][..i] == nodes[..i];
      if nodes[i].address != "" {
        var deps := DedupeSortedStrings(nodes[i].dependencies);
        cg := cg[nodes[i].address := Elements(deps)];
      }
    }
    assert nodes[..|nodes|] == nodes;
  }

  lemma {:induction false} ConfigGraphIsClean(nodes: seq<ConfigNode>)
    ensures CleanGraph(ConfigGraphOf(nodes)) && "" !in ConfigGraphOf(nodes)
  {
    if nodes != [] {
      ConfigGraphIsClean(nodes[..|nodes| - 1]);
    }
  }

  function SelectedByAll(snap: Snapshot, selectors: seq<Selector>): set<string> {
    set s, a | s in selectors && a in SelectedBy(snap, s) :: a
  }

  /** state_engine.go:286-321. */
  method SelectWriteSet(snap: Snapshot, req: Request) returns (selected: set<string>)
    ensures selected == SelectedWrite(snap, req)
  {
    selected := {};
    var sel := req.selectors;
    for i := 0 to |sel|
      invariant selected == SelectedByAll(snap, sel[..i])
    {
      SelectedOneMore(snap, sel[..i], sel[i]);
      assert sel[..i + 1] == sel[..i] + [sel[i]];
      match sel[i].kind
      case ResourceAddress =>
        if sel[i].value in snap.realized {
          selected := selected + {sel[i].value};
        }
      case ModulePrefix =>
        if sel[i].value != "" {
          selected := selected + Members(snap, sel[i].value);
        }
      case OtherKind =>
    }
    assert sel[..|sel|] == sel;
    selected := selected + (NonEmpty(req.explicitWrite) * snap.realized);
  }

  lemma SelectedOneMore(snap: Snapshot, sel: seq<Selector>, s: Selector)
    ensures SelectedByAll(snap, sel + [s]) == SelectedByAll(snap, sel) + SelectedBy(snap, s)
  {
    forall a | a in SelectedByAll(snap, sel) ensures a in SelectedByAll(snap, sel + [s]) {
      var t :| t in sel && a in SelectedBy(snap, t);
      assert t in sel + [s];
    }
    assert s in sel + [s];
  }

  /** state_engine.go:446-474: sort every missing node into removed, undeployed or unknown. */
  method Classify(missing: set<string>, unresolved: set<string>, removed: set<string>, undeployed: set<string>)
    returns (undeployedMissing: set<string>, unknown: set<string>, safe: bool)
    ensures undeployedMissing == ((missing - removed) + unresolved) * undeployed
    ensures unknown == (missing - removed - undeployed) + (unresolved - undeployed)
    ensures safe <==> unknown == {}
  {
    undeployedMissing, unknown, safe := {}, {}, true;
    var todo := missing;
    while todo != {}
      invariant todo <= missing
      invariant undeployedMissing == (missing - todo - removed) * undeployed
      invariant unknown == missing - todo - removed - undeployed
      invariant safe <==> unknown == {}
    {
      var a :| a in todo;
      todo := todo - {a};
      if a in removed { continue; }
      if a !in undeployed {
        unknown, safe := unknown + {a}, false;
        continue;
      }
      undeployedMissing := undeployedMissing + {a};
    }
    ghost var u0, n0 := undeployedMissing, unknown;
    todo := unresolved;
    while todo != {}
      invariant todo <= unresolved
      invariant undeployedMissing == u0 + (unresolved - todo) * undeployed
      invariant unknown == n0 + (unresolved - todo - undeployed)
      invariant safe <==> unknown == {}
    {
      var a :| a in todo;
      todo := todo - {a};
      if a in undeployed {
        undeployedMissing := undeployedMissing + {a};
      } else {
        unknown, safe := unknown + {a}, false;
      }
    }
  }

  /** The body of `handleStateEngineScopeExpand`. */
  method ExpandScope(snap: Snapshot, req: Request) returns (c: Contract)
    requires snap.WellFormed()
    ensures exists visited :: IsContract(snap, req, visited, c)
  {
    var cg := BuildConfigGraph(req.configNodes);
    ConfigGraphIsClean(req.configNodes);
    var selected := SelectWriteSet(snap, req);
    SelectedIsRealized(snap, req);
    var walked, requiredConfig, unresolved :=
      WalkScope(snap, cg, selected + NonEmpty(req.explicitWrite) + NonEmpty(req.explicitRead));
    var undeployedMissing, unknown, safe :=
      Classify(Missing(snap, req), unresolved, NonEmpty(req.removed), NonEmpty(req.undeployed));
    var write := SortedSetKeys(selected);
    var read := SortedSetKeys((walked * snap.realized) - selected);
    var fetch := DedupeSortedStrings(write + read);
    FetchIsBoth(write, read, fetch);
    var config := SortedSetKeys(requiredConfig);
    var removed := SortedSetKeys(NonEmpty(req.removed));
    var missing := SortedSetKeys(Missing(snap, req));
    var undeployed := SortedSetKeys(undeployedMissing);
    var unknownList := SortedSetKeys(unknown);
    ElementsOfEmpty(unknownList);
    c := Contract(fetch, write, read, config, removed, missing, undeployed, unknownList,
                  ReservationsFor(write, true) + ReservationsFor(read, false), safe);
    assert IsContract(snap, req, walked, c);
  }

  lemma FetchIsBoth(write: seq<string>, read: seq<string>, fetch: seq<string>)
    requires Elements(fetch) == Elements(write + read) - {""}
    requires "" !in write && "" !in read
    ensures Elements(fetch) == Elements(write) + Elements(read)
  {
    assert Elements(write + read) == Elements(write) + Elements(read);
  }

  lemma SelectedIsRealized(snap: Snapshot, req: Request)
    requires snap.WellFormed()
    ensures SelectedWrite(snap, req) <= snap.realized
  {
    forall a | a in SelectedByAll(snap, req.selectors) ensures a in snap.realized {
      var s :| s in req.selectors && a in SelectedBy(snap, s);
    }
  }

  // ------------------------------------------------------------------ theorems

  /** The safe scope contract.  When the verdict is safe, every state or config dependency of
      a fetched or config-required address is itself fetched, config-required, or listed as
      undeployed. */
  lemma SafeScopeIsClosed(snap: Snapshot, req: Request, visited: set<string>, c: Contract, a: string, d: string)
    requires snap.WellFormed() && IsContract(snap, req, visited, c) && c.safe
    requires a in c.fetch || a in c.configRequired
    requires d in Deps(snap, ConfigGraphOf(req.configNodes), a)
    ensures d in c.fetch || d in c.configRequired || d in c.undeployed
  {
    FetchedIsVisited(snap, req, visited, c);
    assert a in Elements(c.fetch) || a in Elements(c.configRequired);
    if Known(snap, ConfigGraphOf(req.configNodes), d) {
      KnownDepIsVisited(snap, ConfigGraphOf(req.configNodes), Seeds(snap, req), visited, a, d);
      assert d in Elements(c.fetch) || d in Elements(c.configRequired);
    } else {
      UnknownDepIsListed(snap, req, visited, c, a, d);
    }
  }

  lemma KnownDepIsVisited(snap: Snapshot, cg: ConfigGraph, seeds: set<string>, visited: set<string>, a: string,
                          d: string)
    requires IsReach(Walk(snap, cg), seeds, visited)
    requires a in visited && d in KnownDeps(snap, cg, a)
    ensures d in visited
  {
    ReachStep(Walk(snap, cg), seeds, visited, a, d);
  }

  lemma UnknownDepIsListed(snap: Snapshot, req: Request, visited: set<string>, c: Contract, a: string, d: string)
    requires IsContract(snap, req, visited, c) && c.safe
    requires a in visited
    requires d in UnknownOf(snap, ConfigGraphOf(req.configNodes), Deps(snap, ConfigGraphOf(req.configNodes), a))
    ensures d in c.undeployed
  {
    assert d in Unresolved(snap, ConfigGraphOf(req.configNodes), visited);
    ElementsOfEmpty(c.unknownMissing);
    assert d in NonEmpty(req.undeployed);
    assert d in Elements(c.undeployed);
  }

  lemma FetchedIsVisited(snap: Snapshot, req: Request, visited: set<string>, c: Contract)
    requires snap.WellFormed() && IsContract(snap, req, visited, c)
    ensures Elements(c.fetch) == visited * snap.realized
  {
    SelectedIsRealized(snap, req);
    ReachIsClosed(Walk(snap, ConfigGraphOf(req.configNodes)), Seeds(snap, req), visited);
  }

  /** The verdict is safe exactly when every explicitly requested address that is not
      realized was announced as removed or undeployed, and every dependency met on the walk
      that neither graph knows was announced as undeployed. */
  lemma SafeExactlyWhenClassified(snap: Snapshot, req: Request, visited: set<string>, c: Contract)
    requires IsContract(snap, req, visited, c)
    ensures c.safe <==>
              && Missing(snap, req) <= NonEmpty(req.removed) + NonEmpty(req.undeployed)
              && Unresolved(snap, ConfigGraphOf(req.configNodes), visited) <= NonEmpty(req.undeployed)
  {
    ElementsOfEmpty(c.unknownMissing);
    NoneUnknown(Missing(snap, req), Unresolved(snap, ConfigGraphOf(req.configNodes), visited),
                NonEmpty(req.removed), NonEmpty(req.undeployed));
  }

  lemma NoneUnknown(missing: set<string>, unresolved: set<string>, removed: set<string>, undeployed: set<string>)
    ensures (missing - removed - undeployed) + (unresolved - undeployed) == {} <==>
              missing <= removed + undeployed && unresolved <= undeployed
  {
    var m, u := missing - removed - undeployed, unresolved - undeployed;
    assert m + u == {} <==> m == {} && u == {};
    assert m == missing - (removed + undeployed);
    NothingLeft(missing, removed + undeployed);
    NothingLeft(unresolved, undeployed);
  }

  lemma NothingLeft(a: set<string>, b: set<string>)
    ensures a - b == {} <==> a <= b
  {
    if a - b == {} {
      forall x | x in a ensures x in b {
        assert x !in a - b;
      }
    }
  }

  /** Write and read addresses partition the fetch set, with exactly one reservation
      candidate each, and everything fetched is realized and reachable from the seeds. */
  lemma ReservationsPartitionFetch(snap: Snapshot, req: Request, visited: set<string>, c: Contract, a: string)
    requires snap.WellFormed() && IsContract(snap, req, visited, c)
    ensures Elements(c.write) !! Elements(c.read)
    ensures a in c.fetch <==> Reservation(a, true) in c.reservations || Reservation(a, false) in c.reservations
    ensures !(Reservation(a, true) in c.reservations && Reservation(a, false) in c.reservations)
    ensures Distinct(c.reservations) && |c.reservations| == |c.write| + |c.read|
    ensures a in c.fetch ==>
              && a in snap.realized
              && Reachable(Walk(snap, ConfigGraphOf(req.configNodes)), Seeds(snap, req), a)
  {
    FetchedIsVisited(snap, req, visited, c);
    ReservationFor(c.write, c.read, a);
    AscendingIsDistinct(c.write);
    AscendingIsDistinct(c.read);
    assert a in Elements(c.fetch) <==> a in Elements(c.write) || a in Elements(c.read);
    assert a in c.fetch ==> a in Elements(c.fetch);
    assert Elements(c.write) !! Elements(c.read);
  }

  lemma ReservationFor(write: seq<string>, read: seq<string>, a: string)
    ensures var r := ReservationsFor(write, true) + ReservationsFor(read, false);
            && (Reservation(a, true) in r <==> a in write)
            && (Reservation(a, false) in r <==> a in read)
  {
    var w, d := ReservationsFor(write, true), ReservationsFor(read, false);
    if a in write {
      var i :| 0 <= i < |write| && write[i] == a;
      assert (w + d)[i] == Reservation(a, true);
    }
    if a in read {
      var i :| 0 <= i < |read| && read[i] == a;
      assert (w + d)[|w| + i] == Reservation(a, false);
    }
  }
}
