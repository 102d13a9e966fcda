/** The row-level commit of internal/apply/merge.go: post-apply rows on the write groups,
    trunk rows everywhere else. */
module Merge {
  import opened Ordering
  import opened Json
  import opened TrunkState
  import opened ResourceAddress

  /** What a merge means on rows. */
  function Overlay(trunk: Rows, post: Rows, groups: set<string>): Rows {
    map a | a in trunk.Keys + post.Keys && (if a in groups then a in post else a in trunk)
      :: if a in groups then post[a] else trunk[a]
  }

  /** The groups counted as applied: present on either side, changed or not. */
  function Applied(trunk: Rows, post: Rows, groups: set<string>): set<string> {
    groups * (trunk.Keys + post.Keys)
  }

  datatype Outcome =
    | TrunkIsNil
    | PostApplyIsNil
    | SurpriseResource(addr: string)
    | Merged(state: State, applied: seq<string>)

  /** `merged` is the next document after overlaying `post` on `trunk`. */
  predicate IsMerge(trunk: State, post: State, groups: set<string>, merged: State) {
    && merged.version == trunk.version
    && merged.serial == trunk.serial + 1
    && merged.outputs == post.outputs
    && merged.checkResults == post.checkResults
    && merged.lineage == (if trunk.lineage == "" then post.lineage else trunk.lineage)
    && merged.terraformVersion ==
         (if trunk.terraformVersion == "" || trunk.terraformVersion == "0.0.0"
          then post.terraformVersion else trunk.terraformVersion)
    && Lists(merged.resources, Overlay(Index(trunk.resources), Index(post.resources), groups))
  }

  predicate HasSurprise(post: State, footprint: set<string>) {
    exists r :: r in post.resources && r.Address() !in footprint
  }

  /** `buildMergedState`. */
  method BuildMergedState(trunk: Option<State>, postApply: Option<State>,
                          writeSet: seq<string>, footprint: set<string>) returns (out: Outcome)
    ensures out.TrunkIsNil? <==> trunk.None?
    ensures out.PostApplyIsNil? <==> trunk.Some? && postApply.None?
    ensures out.SurpriseResource? <==>
              trunk.Some? && postApply.Some? && HasSurprise(postApply.value, footprint)
    ensures out.SurpriseResource? ==>
              out.addr !in footprint && exists r :: r in postApply.value.resources && r.Address() == out.addr
    ensures out.Merged? ==>
              && IsMerge(trunk.value, postApply.value, Groups(writeSet), out.state)
              && Ascending(out.applied)
              && Elements(out.applied) ==
                   Applied(Index(trunk.value.resources), Index(postApply.value.resources), Groups(writeSet))
    ensures out.Merged? ==>
              && out.state.serial == trunk.value.serial + 1 && out.state.version == trunk.value.version
              && out.state.outputs == postApply.value.outputs && out.state.checkResults == postApply.value.checkResults
              && out.state.lineage in {trunk.value.lineage, postApply.value.lineage}
              && (trunk.value.lineage != "" ==> out.state.lineage == trunk.value.lineage)
  {
    if trunk.None? { return TrunkIsNil; }
    if postApply.None? { return PostApplyIsNil; }
    var t, p := trunk.value, postApply.value;
    for i := 0 to |p.resources|
      invariant forall k :: 0 <= k < i ==> p.resources[k].Address() in footprint
    {
      if p.resources[i].Address() !in footprint {
        assert p.resources[i] in p.resources;
        return SurpriseResource(p.resources[i].Address());
      }
    }
    var postRows := IndexResourcesByAddress(p.resources);
    var trunkRows := IndexResourcesByAddress(t.resources);
    var groups := Groups(writeSet);
    var working, applied := OverlayLoop(trunkRows, postRows, groups);
    var rows := ListRows(working);
    SortDistinct(applied);
    out := Merged(
      State(t.version,
            if t.terraformVersion == "" || t.terraformVersion == "0.0.0" then p.terraformVersion
            else t.terraformVersion,
            t.serial + 1,
            if t.lineage == "" then p.lineage else t.lineage,
            p.outputs, p.checkResults, rows),
      SortStrings(applied));
  }

  /** merge.go:129-153, for any iteration order of the write groups. */
  method OverlayLoop(trunk: Rows, post: Rows, groups: set<string>) returns (working: Rows, applied: seq<string>)
    ensures working == Overlay(trunk, post, groups)
    ensures Distinct(applied) && Elements(applied) == Applied(trunk, post, groups)
  {
    working, applied := trunk, [];
    var todo := groups;
    while todo != {}
      invariant todo <= groups
      invariant working == Overlay(trunk, post, groups - todo)
      invariant Distinct(applied) && Elements(applied) == Applied(trunk, post, groups - todo)
    {
      var a :| a in todo;
      assert a !in applied;
      OverlayOneMore(trunk, post, groups - todo, a);
      assert groups - (todo - {a}) == groups - todo + {a};
      if a in post {
        working := working[a := post[a]];
        applied := applied + [a];
      } else if a in trunk {
        working := working - {a};
        applied := applied + [a];
      }
      todo := todo - {a};
    }
    assert groups - todo == groups;
  }

  lemma OverlayOneMore(trunk: Rows, post: Rows, done: set<string>, a: string)
    requires a !in done
    ensures Overlay(trunk, post, done + {a}) ==
            if a in post then Overlay(trunk, post, done)[a := post[a]] else Overlay(trunk, post, done) - {a}
    ensures a !in post && a !in trunk ==> Overlay(trunk, post, done + {a}) == Overlay(trunk, post, done)
  {
  }

  /** merge.go:157-183: the working copy as a list sorted by address. */
  method ListRows(m: Rows) returns (rows: seq<Resource>)
    requires WellKeyed(m)
    ensures Lists(rows, m)
  {
    var addrs := SortedSetKeys(m.Keys);
    rows := [];
    for i := 0 to |addrs|
      invariant |rows| == i
      invariant forall k :: 0 <= k < i ==> addrs[k] in m && rows[k] == m[addrs[k]]
    {
      assert addrs[i] in Elements(addrs);
      rows := rows + [m[addrs[i]]];
    }
    assert Addresses(rows) == addrs;
    forall a | a in m ensures m[a] in rows {
      assert a in Elements(addrs);
      var k :| 0 <= k < |addrs| && addrs[k] == a;
      assert rows[k] == m[a];
    }
  }

  /** The addresses outside the footprint, one per row. */
  function Surprises(rs: seq<Resource>, footprint: set<string>): (bad: seq<string>)
    ensures forall a :: a in bad <==> a !in footprint && exists r :: r in rs && r.Address() == a
  {
    if rs == [] then []
    else
      var front, last := rs[..|rs| - 1], rs[|rs| - 1];
      assert rs == front + [last];
      Surprises(front, footprint) + if last.Address() in footprint then [] else [last.Address()]
  }

  lemma {:induction false} OneSurprisePerRow(rs: seq<Resource>, footprint: set<string>, a: string)
    ensures multiset(Surprises(rs, footprint))[a] == if a in footprint then 0 else multiset(Addresses(rs))[a]
  {
    if rs != [] {
      var front := rs[..|rs| - 1];
      assert Addresses(rs) == Addresses(front) + [rs[|rs| - 1].Address()];
      OneSurprisePerRow(front, footprint, a);
    }
  }

  /** `validatePostApplyHasNoSurprises`: sorted, a repeated address as often as it has rows. */
  method ValidatePostApplyHasNoSurprises(postApply: Option<State>, footprint: set<string>) returns (bad: seq<string>)
    ensures postApply.None? ==> bad == []
    ensures postApply.Some? ==>
              Sorted(bad) && multiset(bad) == multiset(Surprises(postApply.value.resources, footprint))
    ensures postApply.Some? ==> (bad == [] <==> !HasSurprise(postApply.value, footprint))
  {
    if postApply.None? { return []; }
    var rs, list := postApply.value.resources, [];
    for i := 0 to |rs|
      invariant list == Surprises(rs[..i], footprint)
    {
      SurprisesOneMore(rs, i, footprint);
      if rs[i].Address() !in footprint {
        list := list + [rs[i].Address()];
      }
    }
    assert rs[..|rs|] == rs;
    SortedSurprises(postApply.value, footprint);
    bad := SortStrings(list);
  }

  lemma SurprisesOneMore(rs: seq<Resource>, i: nat, footprint: set<string>)
    requires i < |rs|
    ensures Surprises(rs[..i + 1], footprint) ==
            Surprises(rs[..i], footprint) + if rs[i].Address() in footprint then [] else [rs[i].Address()]
  {
    assert rs[..i + 1][..i] == rs[..i];
  }

  lemma SortedSurprises(post: State, footprint: set<string>)
    ensures var bad := Surprises(post.resources, footprint);
            && Sorted(SortStrings(bad)) && multiset(SortStrings(bad)) == multiset(bad)
            && (SortStrings(bad) == [] <==> !HasSurprise(post, footprint))
  {
    SortStringsSorts(Surprises(post.resources, footprint));
    NoneExactlyWithout(post, footprint);
  }

  lemma NoneExactlyWithout(post: State, footprint: set<string>)
    ensures Surprises(post.resources, footprint) == [] <==> !HasSurprise(post, footprint)
    ensures SortStrings(Surprises(post.resources, footprint)) == [] <==> !HasSurprise(post, footprint)
  {
    var bad := Surprises(post.resources, footprint);
    if bad != [] {
      assert bad[0] in bad;
      assert bad[0] in multiset(SortStrings(bad));
    }
    if r :| r in post.resources && r.Address() !in footprint {
      assert r.Address() in bad;
    }
  }

  // ---------------------------------------------------------------- algebra

  /** Post-apply on the write groups (absent there means removed), the trunk elsewhere. */
  lemma OverlayAt(trunk: Rows, post: Rows, groups: set<string>, a: string)
    ensures At(Overlay(trunk, post, groups), a) == if a in groups then At(post, a) else At(trunk, a)
  {
  }

  lemma RowsEqual(m: Rows, n: Rows)
    requires forall a :: At(m, a) == At(n, a)
    ensures m == n
  {
    forall a ensures a in m <==> a in n { assert At(m, a) == At(n, a); }
    forall a | a in m ensures m[a] == n[a] { assert At(m, a) == At(n, a); }
  }

  /** The rows written by a merge are what a later reader parses. */
  lemma MergedRows(trunk: State, post: State, groups: set<string>, merged: State)
    requires IsMerge(trunk, post, groups, merged)
    ensures Index(merged.resources) == Overlay(Index(trunk.resources), Index(post.resources), groups)
  {
    IndexOfListing(merged.resources, Overlay(Index(trunk.resources), Index(post.resources), groups));
  }

  // ------------------------------------------------------------- on documents

  /** Rows of different resources, as in a document Terraform writes. */
  ghost predicate OneRowEach(rs: seq<Resource>) {
    && (forall r :: r in rs ==> Proper(r))
    && forall i, j :: 0 <= i < j < |rs| ==> !SameResource(rs[i], rs[j])
  }

  /** The write set names the resource or an instance of it. */
  predicate ToWrite(r: Resource, writeSet: seq<string>) {
    exists w :: w in writeSet && StripIndex(w) == r.Address()
  }

  lemma OneRowPerAddress(rs: seq<Resource>)
    requires OneRowEach(rs)
    ensures forall r :: r in rs <==> At(Index(rs), r.Address()) == Some(r)
  {
    forall i, j | 0 <= i < j < |rs| ensures Addresses(rs)[i] != Addresses(rs)[j] {
      assert rs[i] in rs && rs[j] in rs;
      AddressIsInjective(rs[i], rs[j]);
    }
    DistinctIndex(rs);
    IndexKeys(rs);
  }

  /** What a merge does to the rows of the document: it keeps every row of the trunk that is
      not to be written, takes every post-apply row that is, and has no others. */
  lemma MergeOnDocuments(trunk: State, post: State, writeSet: seq<string>, merged: State)
    requires IsMerge(trunk, post, Groups(writeSet), merged)
    requires OneRowEach(trunk.resources) && OneRowEach(post.resources)
    ensures forall r :: r in merged.resources <==>
              (r in trunk.resources && !ToWrite(r, writeSet)) || (r in post.resources && ToWrite(r, writeSet))
    ensures OneRowEach(merged.resources)
  {
    OneRowPerAddress(trunk.resources);
    OneRowPerAddress(post.resources);
    var groups, t, p := Groups(writeSet), Index(trunk.resources), Index(post.resources);
    forall r ensures r in merged.resources <==>
                       (r in trunk.resources && !ToWrite(r, writeSet)) || (r in post.resources && ToWrite(r, writeSet))
    {
      OverlayAt(t, p, groups, r.Address());
      assert ToWrite(r, writeSet) <==> r.Address() in groups;
      assert r in merged.resources <==> At(Overlay(t, p, groups), r.Address()) == Some(r);
    }
    AscendingIsDistinct(Addresses(merged.resources));
    forall i, j | 0 <= i < j < |merged.resources| ensures !SameResource(merged.resources[i], merged.resources[j]) {
      assert Addresses(merged.resources)[i] != Addresses(merged.resources)[j];
      assert merged.resources[i] in merged.resources && merged.resources[j] in merged.resources;
      AddressIsInjective(merged.resources[i], merged.resources[j]);
    }
  }

  /** The applied addresses are those to be written that have a row on either side, whether or
      not it changed. */
  lemma AppliedOnDocuments(trunk: State, post: State, writeSet: seq<string>, a: string)
    ensures a in Applied(Index(trunk.resources), Index(post.resources), Groups(writeSet)) <==>
              && (exists w :: w in writeSet && StripIndex(w) == a)
              && exists r :: (r in trunk.resources || r in post.resources) && r.Address() == a
  {
    IndexKeys(trunk.resources);
    IndexKeys(post.resources);
    if r :| (r in trunk.resources || r in post.resources) && r.Address() == a {
      assert a in Index(trunk.resources).Keys + Index(post.resources).Keys;
    }
  }

  /** Two documents listing the same rows list them identically. */
  lemma ListingIsCanonical(rs: seq<Resource>, rs': seq<Resource>, m: Rows)
    requires WellKeyed(m) && Lists(rs, m) && Lists(rs', m)
    ensures rs == rs'
  {
    ListedAddresses(rs, m);
    ListedAddresses(rs', m);
    AscendingIsUnique(Addresses(rs), Addresses(rs'));
    forall i | 0 <= i < |rs| ensures rs[i] == rs'[i] {
      assert Addresses(rs)[i] == Addresses(rs')[i];
      assert rs[i] in rs && rs'[i] in rs';
    }
  }

  lemma ListedAddresses(rs: seq<Resource>, m: Rows)
    requires WellKeyed(m) && Lists(rs, m)
    ensures Elements(Addresses(rs)) == m.Keys
  {
    forall a ensures a in Elements(Addresses(rs)) <==> a in m.Keys {
      if a in Addresses(rs) {
        var i :| 0 <= i < |rs| && Addresses(rs)[i] == a;
        assert rs[i] in rs;
      }
      if a in m {
        var i :| 0 <= i < |rs| && rs[i] == m[a];
        assert Addresses(rs)[i] == a;
      }
    }
  }

  /** Merging the same post-apply document again changes no row: a retried commit is idempotent. */
  lemma RemergeIsIdempotent(trunk: State, post: State, groups: set<string>, once: State, twice: State)
    requires IsMerge(trunk, post, groups, once) && IsMerge(once, post, groups, twice)
    ensures twice.resources == once.resources
    ensures twice.serial == trunk.serial + 2
  {
    MergedRows(trunk, post, groups, once);
    var t, p := Index(trunk.resources), Index(post.resources);
    forall a ensures At(Overlay(Overlay(t, p, groups), p, groups), a) == At(Overlay(t, p, groups), a) {
      OverlayAt(t, p, groups, a);
      OverlayAt(Overlay(t, p, groups), p, groups, a);
    }
    RowsEqual(Overlay(Overlay(t, p, groups), p, groups), Overlay(t, p, groups));
    ListingIsCanonical(once.resources, twice.resources, Overlay(t, p, groups));
  }

  /** Two merges commute on rows exactly when the two post-apply documents agree on every
      group both of them write; in particular when the write groups are disjoint. */
  lemma OverlaysCommuteIff(trunk: Rows, p: Rows, v: set<string>, q: Rows, w: set<string>)
    ensures Overlay(Overlay(trunk, p, v), q, w) == Overlay(Overlay(trunk, q, w), p, v) <==>
              forall a :: a in v * w ==> At(p, a) == At(q, a)
  {
    var pq, qp := Overlay(Overlay(trunk, p, v), q, w), Overlay(Overlay(trunk, q, w), p, v);
    forall a
      ensures At(pq, a) == if a in w then At(q, a) else if a in v then At(p, a) else At(trunk, a)
      ensures At(qp, a) == if a in v then At(p, a) else if a in w then At(q, a) else At(trunk, a)
    {
      OverlayAt(trunk, p, v, a);
      OverlayAt(Overlay(trunk, p, v), q, w, a);
      OverlayAt(trunk, q, w, a);
      OverlayAt(Overlay(trunk, q, w), p, v, a);
    }
    if pq == qp {
      forall a | a in v * w ensures At(p, a) == At(q, a) {
        assert At(pq, a) == At(qp, a);
      }
    }
    if forall a :: a in v * w ==> At(p, a) == At(q, a) {
      RowsEqual(pq, qp);
    }
  }

  /** Committing two applies with disjoint write groups in either order writes the same
      resource list at the same serial. */
  lemma DisjointMergesCommute(trunk: State, p: State, v: set<string>, q: State, w: set<string>,
                              ap: State, apq: State, bq: State, bqp: State)
    requires v !! w
    requires IsMerge(trunk, p, v, ap) && IsMerge(ap, q, w, apq)
    requires IsMerge(trunk, q, w, bq) && IsMerge(bq, p, v, bqp)
    ensures apq.resources == bqp.resources && apq.serial == bqp.serial
  {
    MergedRows(trunk, p, v, ap);
    MergedRows(trunk, q, w, bq);
    OverlaysCommuteIff(Index(trunk.resources), Index(p.resources), v, Index(q.resources), w);
    ListingIsCanonical(apq.resources, bqp.resources,
                       Overlay(Overlay(Index(trunk.resources), Index(p.resources), v), Index(q.resources), w));
  }

  /** A planned write of one instance reaches its group's row exactly when the rendered index
      holds no opening bracket; otherwise the write set names a cut address, the merge keeps
      the trunk's row, and what Terraform did to the group is not recorded. */
  lemma InstanceWriteReachesItsGroup(trunk: Rows, post: Rows, group: string, key: string)
    ensures var merged := Overlay(trunk, post, Groups([Indexed(group, key)]));
            At(merged, group) == if '[' in key then At(trunk, group) else At(post, group)
  {
    var addr := Indexed(group, key);
    StripIndexOfInstance(group, key);
    assert addr in [addr];
    OverlayAt(trunk, post, Groups([addr]), group);
  }
}
