/** The plan dependency graph and its read-set closure (internal/plan/depgraph.go). */
module DepGraph {
  import opened Ordering
  import opened Reachability

  /** Edges as `from` to the set of its targets. */
  type Graph = map<string, set<string>>

  /** `DepGraph.Add`. */
  class Builder {
    var g: Graph

    constructor ()
      ensures g == map[]
    {
      g := map[];
    }

    method Add(from: string, to: string)
      modifies this
      ensures forall a, b :: HasEdge(g, a, b) <==> HasEdge(old(g), a, b) || (a == from && b == to)
    {
      if from !in g {
        g := g[from := {}];
      }
      g := g[from := g[from] + {to}];
    }
  }

  predicate HasEdge(g: Graph, a: string, b: string) {
    a in g && b in g[a]
  }

  /** Neighbours in either direction. */
  function Neighbours(g: Graph, x: string): set<string> {
    (if x in g then g[x] else {}) + set a | a in g && x in g[a]
  }

  ghost function Undirected(g: Graph): Edges {
    x => Neighbours(g, x)
  }

  function Nodes(g: Graph): set<string> {
    g.Keys + set a, b | a in g && b in g[a] :: b
  }

  /** The forward half of one round (depgraph.go:231-241), for any iteration order. */
  method ForwardSweep(g: Graph, before: set<string>) returns (out: set<string>, changed: bool)
    ensures before <= out <= before + Nodes(g)
    ensures changed <==> out != before
    ensures forall s: set<string> :: before <= s && Closed(Undirected(g), s) ==> out <= s
    ensures !changed ==> forall a, b :: a in out && HasEdge(g, a, b) ==> b in out
  {
    out, changed := before, false;
    var todo := g.Keys;
    while todo != {}
      invariant todo <= g.Keys
      invariant before <= out <= before + Nodes(g)
      invariant changed <==> out != before
      invariant forall s: set<string> :: before <= s && Closed(Undirected(g), s) ==> out <= s
      invariant forall a, b :: a !in todo && a in before && HasEdge(g, a, b) ==> b in out
    {
      var a :| a in todo;
      todo := todo - {a};
      if a in out {
        ghost var was := out;
        if !(g[a] <= out) {
          changed := true;
        }
        out := out + g[a];
        forall s: set<string> | before <= s && Closed(Undirected(g), s) ensures out <= s {
          forall b | b in g[a] ensures b in s { assert b in Undirected(g)(a); }
        }
      }
    }
  }

  /** The reverse half (depgraph.go:243-253). */
  method ReverseSweep(g: Graph, before: set<string>) returns (out: set<string>, changed: bool)
    ensures before <= out <= before + Nodes(g)
    ensures changed <==> out != before
    ensures forall s: set<string> :: before <= s && Closed(Undirected(g), s) ==> out <= s
    ensures !changed ==> forall a, b :: b in out && HasEdge(g, a, b) ==> a in out
  {
    out, changed := before, false;
    var todo := g.Keys;
    while todo != {}
      invariant todo <= g.Keys
      invariant before <= out <= before + Nodes(g)
      invariant changed <==> out != before
      invariant forall s: set<string> :: before <= s && Closed(Undirected(g), s) ==> out <= s
      invariant forall a, b :: a !in todo && b in before && HasEdge(g, a, b) ==> a in out
    {
      var a :| a in todo;
      todo := todo - {a};
      if g[a] * out != {} && a !in out {
        ghost var b :| b in g[a] * out;
        forall s: set<string> | before <= s && Closed(Undirected(g), s) ensures a in s {
          assert a in Undirected(g)(b);
        }
        out, changed := out + {a}, true;
      }
    }
  }

  /** `CloseReadSet`: the sorted list of every node connected to the write set, whatever the
      order in which the map is walked.  The loop ends because the set grows inside the
      finite node set. */
  method CloseReadSet(writeSet: seq<string>, g: Graph) returns (result: seq<string>)
    ensures Ascending(result)
    ensures IsReach(Undirected(g), Elements(writeSet), Elements(result))
  {
    var out := Elements(writeSet);
    var changed := true;
    while changed
      invariant Elements(writeSet) <= out <= Elements(writeSet) + Nodes(g)
      invariant forall s: set<string> :: Elements(writeSet) <= s && Closed(Undirected(g), s) ==> out <= s
      invariant !changed ==> Closed(Undirected(g), out)
      decreases (Elements(writeSet) + Nodes(g)) - out, changed
    {
      var forward, c1 := ForwardSweep(g, out);
      var both, c2 := ReverseSweep(g, forward);
      changed := c1 || c2;
      if changed {
        assert out < both;
        ghost var x :| x in both && x !in out;
        assert x in (Elements(writeSet) + Nodes(g)) - out;
      }
      out := both;
    }
    LeastClosedIsReach(g, Elements(writeSet), out);
    result := SortedSetKeys(out);
  }

  lemma LeastClosedIsReach(g: Graph, from: set<string>, out: set<string>)
    requires from <= out && Closed(Undirected(g), out)
    requires forall s: set<string> :: from <= s && Closed(Undirected(g), s) ==> out <= s
    ensures IsReach(Undirected(g), from, out)
  {
    var succ := Undirected(g);
    var r := set x | x in from + Nodes(g) && Reachable(succ, from, x);
    forall x | x in from ensures x in r { SourcesAreReachable(succ, from, x); }
    forall a, b | a in r && b in succ(a) ensures b in r {
      ReachOneMore(succ, from, a, b);
      NeighboursAreNodes(g, a, b);
    }
    assert Closed(Undirected(g), r) && from <= r;
    assert out <= r;
    ClosedAndReachable(succ, from, out);
  }

  lemma NeighboursAreNodes(g: Graph, a: string, b: string)
    requires b in Neighbours(g, a)
    ensures b in Nodes(g)
  {
  }

  lemma EdgesGoBothWays(g: Graph, x: string, y: string)
    requires y in Undirected(g)(x)
    ensures x in Undirected(g)(y)
  {
  }

  /** A path can be begun one edge earlier. */
  lemma Prepend(g: Graph, x: string, p: seq<string>)
    requires Path(Undirected(g), p) && p[0] in Undirected(g)(x)
    ensures Path(Undirected(g), [x] + p)
  {
    forall k | 0 < k < |p| + 1 ensures Hop(Undirected(g), [x] + p, k) {
      assert k > 1 ==> Hop(Undirected(g), p, k - 1);
    }
  }

  /** Undirected paths can be walked back. */
  lemma {:induction false} ReversePath(g: Graph, p: seq<string>) returns (r: seq<string>)
    requires Path(Undirected(g), p)
    ensures Path(Undirected(g), r) && r[0] == p[|p| - 1] && r[|r| - 1] == p[0]
  {
    if |p| == 1 {
      r := p;
    } else {
      PathFront(Undirected(g), p);
      var back := ReversePath(g, p[..|p| - 1]);
      assert Hop(Undirected(g), p, |p| - 1);
      EdgesGoBothWays(g, p[|p| - 2], p[|p| - 1]);
      Prepend(g, p[|p| - 1], back);
      r := [p[|p| - 1]] + back;
    }
  }

  /** Two paths with a common end join into one. */
  lemma JoinPaths(g: Graph, p: seq<string>, q: seq<string>) returns (joined: seq<string>)
    requires Path(Undirected(g), p) && Path(Undirected(g), q) && p[|p| - 1] == q[|q| - 1]
    ensures Path(Undirected(g), joined) && joined[0] == p[0] && joined[|joined| - 1] == q[0]
  {
    var back := ReversePath(g, q);
    joined := p + back[1..];
    forall k | 0 < k < |joined| ensures Hop(Undirected(g), joined, k) {
      if k < |p| {
        assert Hop(Undirected(g), p, k);
      } else {
        assert Hop(Undirected(g), back, k - |p| + 1);
      }
    }
  }

  /** Some undirected path joins `v` to `w`. */
  ghost predicate Connected(g: Graph, v: set<string>, w: set<string>) {
    exists p :: Path(Undirected(g), p) && p[0] in v && p[|p| - 1] in w
  }

  /** Two plans get disjoint closures exactly when no undirected path joins their write sets. */
  lemma DisjointIffUnconnected(g: Graph, v: set<string>, w: set<string>, cv: set<string>, cw: set<string>)
    requires IsReach(Undirected(g), v, cv) && IsReach(Undirected(g), w, cw)
    ensures cv !! cw <==> !Connected(g, v, w)
  {
    if Connected(g, v, w) {
      var p :| Path(Undirected(g), p) && p[0] in v && p[|p| - 1] in w;
      var x := p[|p| - 1];
      assert Reachable(Undirected(g), v, x);
      SourcesAreReachable(Undirected(g), w, x);
      assert x in cv && x in cw;
    }
    if x :| x in cv && x in cw {
      OverlapConnects(g, v, w, x);
    }
  }

  lemma OverlapConnects(g: Graph, v: set<string>, w: set<string>, x: string)
    requires Reachable(Undirected(g), v, x) && Reachable(Undirected(g), w, x)
    ensures Connected(g, v, w)
  {
    var p :| Path(Undirected(g), p) && p[0] in v && p[|p| - 1] == x;
    var q :| Path(Undirected(g), q) && q[0] in w && q[|q| - 1] == x;
    var joined := JoinPaths(g, p, q);
  }

  /** Closing a closure adds nothing, so re-planning a reserved set asks for the same set. */
  lemma CloseIsIdempotent(g: Graph, v: set<string>, cv: set<string>, ccv: set<string>)
    requires IsReach(Undirected(g), v, cv) && IsReach(Undirected(g), cv, ccv)
    ensures ccv == cv
  {
    ReachIsClosed(Undirected(g), v, cv);
    forall x ensures x in ccv <==> x in cv {
      if x in ccv {
        assert Reachable(Undirected(g), cv, x);
        ReachableIsLeast(Undirected(g), cv, cv, x);
      }
      if x in cv {
        SourcesAreReachable(Undirected(g), cv, x);
      }
    }
  }
}
