/** Planning and reserving taken together: which planned applies the reservation matrix
    lets run side by side (internal/plan/spec.go:66-79, 128-136, internal/plan/depgraph.go:223). */
module PlannedReservations {
  import opened Ordering
  import opened Reachability
  import opened DepGraph
  import opened TrunkState
  import opened ApplyProtocol

  /** What `BuildSpec` puts into a spec: the closed read set and its reservations. */
  ghost predicate Planned(g: Graph, spec: Spec) {
    && IsReach(Undirected(g), Elements(spec.writeSet), Elements(spec.readSet))
    && spec.reservations == BuildReservations(spec.writeSet, spec.readSet)
  }

  /** The reservations of two plans over one dependency graph conflict exactly when some
      dependency path, followed in either direction, joins their write sets. */
  lemma PlansConflictIffConnected(g: Graph, s: Spec, t: Spec)
    requires Planned(g, s) && Planned(g, t)
    ensures Conflict(s.reservations, t.reservations) <==> Connected(g, Elements(s.writeSet), Elements(t.writeSet))
  {
    DisjointIffUnconnected(g, Elements(s.writeSet), Elements(t.writeSet), Elements(s.readSet), Elements(t.readSet));
    if Conflict(s.reservations, t.reservations) {
      var a :| a in s.reservations && a in t.reservations;
      assert a in Elements(s.readSet) && a in Elements(t.readSet);
    }
    if Connected(g, Elements(s.writeSet), Elements(t.writeSet)) {
      var p :| Path(Undirected(g), p) && p[0] in Elements(s.writeSet) && p[|p| - 1] in Elements(t.writeSet);
      var a := p[|p| - 1];
      assert Reachable(Undirected(g), Elements(s.writeSet), a);
      SourcesAreReachable(Undirected(g), Elements(t.writeSet), a);
      assert a in Elements(s.readSet) && a in Elements(t.readSet);
      assert t.reservations[a].Write?;
    }
  }

  /** Plans over addresses without instance index shield one another, so the protocol's
      guarantees apply to any number of them. */
  lemma PlannedSpecsAreShielded(specs: Specs, graphs: RunId -> Graph, c: Concern)
    requires forall i: RunId :: Planned(graphs(i), specs(i))
    requires forall i: RunId, a :: a in specs(i).readSet ==> StripIndex(a) == a
    ensures Shielded(specs, c)
  {
    forall i: RunId ensures ReservesGroups(specs(i)) {
      assert Planned(graphs(i), specs(i));
      ReachIsClosed(Undirected(graphs(i)), Elements(specs(i).writeSet), Elements(specs(i).readSet));
      assert forall a :: a in specs(i).writeSet ==> a in Elements(specs(i).writeSet);
      BuiltReservationsReserveGroups(specs(i));
    }
    GroupReservationsShield(specs, c);
  }
}
