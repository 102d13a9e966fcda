/** Paths in a directed graph given by its successor function, and the least closed set. */
module Reachability {

  type Edges = string -> set<string>

  /** The edge into position `k` of a path. */
  ghost predicate Hop(succ: Edges, p: seq<string>, k: nat)
    requires 0 < k < |p|
  {
    p[k] in succ(p[k - 1])
  }

  ghost predicate Path(succ: Edges, p: seq<string>) {
    p != [] && forall k {:trigger Hop(succ, p, k)} :: 0 < k < |p| ==> Hop(succ, p, k)
  }

  /** Some path leads from a member of `from` to `x`. */
  ghost predicate Reachable(succ: Edges, from: set<string>, x: string) {
    exists p :: Path(succ, p) && p[0] in from && p[|p| - 1] == x
  }

  ghost predicate Closed(succ: Edges, s: set<string>) {
    forall a, b {:trigger b in succ(a)} :: a in s && b in succ(a) ==> b in s
  }

  lemma SourcesAreReachable(succ: Edges, from: set<string>, x: string)
    requires x in from
    ensures Reachable(succ, from, x)
  {
    assert Path(succ, [x]) && [x][0] in from;
  }

  lemma ReachOneMore(succ: Edges, from: set<string>, x: string, y: string)
    requires Reachable(succ, from, x) && y in succ(x)
    ensures Reachable(succ, from, y)
  {
    var p :| Path(succ, p) && p[0] in from && p[|p| - 1] == x;
    var q := p + [y];
    forall k | 0 < k < |q| ensures Hop(succ, q, k) {
      assert k < |p| ==> Hop(succ, p, k);
    }
    assert Path(succ, q) && q[0] in from && q[|q| - 1] == y;
  }

  lemma PathFront(succ: Edges, p: seq<string>)
    requires Path(succ, p) && |p| > 1
    ensures Path(succ, p[..|p| - 1])
  {
    var front := p[..|p| - 1];
    forall k | 0 < k < |front| ensures Hop(succ, front, k) {
      assert Hop(succ, p, k);
    }
  }

  lemma {:induction false} PathStaysInside(succ: Edges, s: set<string>, p: seq<string>)
    requires Closed(succ, s) && Path(succ, p) && p[0] in s
    ensures p[|p| - 1] in s
  {
    if |p| > 1 {
      var front := p[..|p| - 1];
      PathFront(succ, p);
      PathStaysInside(succ, s, front);
      assert Hop(succ, p, |p| - 1);
    }
  }

  /** Everything reachable lies in every closed set around the sources. */
  lemma ReachableIsLeast(succ: Edges, from: set<string>, s: set<string>, x: string)
    requires Closed(succ, s) && from <= s && Reachable(succ, from, x)
    ensures x in s
  {
    var p :| Path(succ, p) && p[0] in from && p[|p| - 1] == x;
    PathStaysInside(succ, s, p);
  }

  /** `s` is the reachable set: it holds the sources, is closed, and is inside every closed
      set that holds the sources. */
  ghost predicate IsReach(succ: Edges, from: set<string>, s: set<string>) {
    forall x :: x in s <==> Reachable(succ, from, x)
  }

  lemma ClosedAndReachable(succ: Edges, from: set<string>, s: set<string>)
    requires from <= s && Closed(succ, s)
    requires forall x :: x in s ==> Reachable(succ, from, x)
    ensures IsReach(succ, from, s)
  {
    forall x | Reachable(succ, from, x) ensures x in s {
      ReachableIsLeast(succ, from, s, x);
    }
  }

  lemma ReachIsClosed(succ: Edges, from: set<string>, s: set<string>)
    requires IsReach(succ, from, s)
    ensures from <= s && Closed(succ, s)
  {
    forall x | x in from ensures x in s { SourcesAreReachable(succ, from, x); }
    forall a, b | a in s && b in succ(a) ensures b in s { ReachOneMore(succ, from, a, b); }
  }

  lemma ReachStep(succ: Edges, from: set<string>, s: set<string>, a: string, d: string)
    requires IsReach(succ, from, s) && a in s && d in succ(a)
    ensures d in s
  {
    ReachOneMore(succ, from, a, d);
  }
}
