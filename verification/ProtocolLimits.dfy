/** How far the hypotheses of `Serializability` can be weakened: which reservations make every
    timely run serializable, or keep every plan true until its commit, is decided exactly, and
    a late commit breaks serializability for any reservations. */
module ProtocolLimits {
  import opened Json
  import opened TrunkState
  import opened Merge
  import opened Staleness
  import opened ApplyProtocol
  import opened Serializability

  function Last(ws: seq<World>): World
    requires ws != []
  {
    ws[|ws| - 1]
  }

  lemma Extend(specs: Specs, f: Float64, ws: seq<World>, steps: seq<Step>, s: Step)
    returns (ws': seq<World>, steps': seq<Step>)
    requires IsRun(specs, f, ws, steps)
    requires Last(ws).history != [] && Enabled(specs, Last(ws), s)
    ensures steps' == steps + [s]
    ensures IsRun(specs, f, ws', steps') && ws'[0] == ws[0] && Last(ws') == Next(specs, f, Last(ws), s)
    ensures Timely(ws, steps) && TimelyStep(Last(ws), s) ==> Timely(ws', steps')
  {
    ws', steps' := ws + [Next(specs, f, Last(ws), s)], steps + [s];
  }

  /** `w` after run `i` went to phase `p`, with leases until `until`. */
  function Moved(w: World, i: RunId, p: Phase, until: nat): World {
    World(w.now, w.history, w.held[i := until], w.phases[i := p], w.aborted)
  }

  lemma MovedTwice(w: World, i: RunId, p: Phase, q: Phase, until: nat)
    ensures w.Go(i, p).Go(i, q) == w.Go(i, q)
    ensures Moved(w.Go(i, p), i, q, until) == Moved(w, i, q, until)
    ensures Moved(w, i, p, until).Go(i, q) == Moved(w, i, q, until)
  {
    assert w.phases[i := p][i := q] == w.phases[i := q];
  }

  /** Begin and acquire. */
  lemma UpToHolding(specs: Specs, f: Float64, ws: seq<World>, steps: seq<Step>, i: RunId)
    returns (ws': seq<World>, steps': seq<Step>)
    requires IsRun(specs, f, ws, steps)
    requires Last(ws).history != [] && Last(ws).Phase(i).NotStarted?
    requires Enabled(specs, Last(ws).Go(i, Begun), Acquire(i))
    ensures IsRun(specs, f, ws', steps') && ws'[0] == ws[0]
    ensures Timely(ws, steps) ==> Timely(ws', steps')
    ensures Last(ws') == Moved(Last(ws), i, Holding, Last(ws).now + specs(i).lease)
  {
    ws', steps' := Extend(specs, f, ws, steps, Begin(i));
    assert Last(ws') == Last(ws).Go(i, Begun);
    ws', steps' := Extend(specs, f, ws', steps', Acquire(i));
    MovedTwice(Last(ws), i, Begun, Holding, Last(ws).now + specs(i).lease);
  }

  /** The next world of a run that holds its reservations is `Moved` again. */
  lemma MoveOn(specs: Specs, f: Float64, ws: seq<World>, steps: seq<Step>, s: Step, w: World, p: Phase, q: Phase,
               until: nat)
    returns (ws': seq<World>, steps': seq<Step>)
    requires IsRun(specs, f, ws, steps) && w.history != []
    requires s.Guard? || s.Terraform? || s.EnterCommit?
    requires Last(ws) == Moved(w, s.i, p, until) && Enabled(specs, Last(ws), s)
    requires Next(specs, f, Last(ws), s) == Last(ws).Go(s.i, q)
    ensures IsRun(specs, f, ws', steps') && ws'[0] == ws[0]
    ensures Timely(ws, steps) ==> Timely(ws', steps')
    ensures Last(ws') == Moved(w, s.i, q, until)
  {
    ws', steps' := Extend(specs, f, ws, steps, s);
    MovedTwice(w, s.i, p, q, until);
  }

  /** Carry run `i` from start to a finished Terraform, ready to enter the commit loop. */
  lemma UpToTerraform(specs: Specs, f: Float64, ws: seq<World>, steps: seq<Step>, i: RunId)
    returns (ws': seq<World>, steps': seq<Step>)
    requires IsRun(specs, f, ws, steps)
    requires Last(ws).history != [] && Last(ws).Phase(i).NotStarted?
    requires Enabled(specs, Last(ws).Go(i, Begun), Acquire(i)) && GuardPasses(specs(i), Last(ws).history, f)
    requires specs(i).PostApply(Last(ws).Trunk()).Keys <= specs(i).footprint
    ensures IsRun(specs, f, ws', steps') && ws'[0] == ws[0]
    ensures Timely(ws, steps) ==> Timely(ws', steps')
    ensures var w := Last(ws);
            var cut := |w.history| - 1;
            Last(ws') == Moved(w, i, Committing(cut, specs(i).PostApply(w.Trunk()), cut, 0), w.now + specs(i).lease)
  {
    var w := Last(ws);
    var until, cut := w.now + specs(i).lease, |w.history| - 1;
    var post := specs(i).PostApply(w.Trunk());
    ws', steps' := UpToHolding(specs, f, ws, steps, i);
    ws', steps' := MoveOn(specs, f, ws', steps', Guard(i), w, Holding, Running(cut), until);
    ws', steps' := MoveOn(specs, f, ws', steps', Terraform(i), w, Running(cut), TerraformDone(cut, post), until);
    ws', steps' := MoveOn(specs, f, ws', steps', EnterCommit(i, false), w, TerraformDone(cut, post),
                          Committing(cut, post, cut, 0), until);
  }

  /** Fetch and write, with no one in between. */
  lemma FetchAndCommit(specs: Specs, f: Float64, ws: seq<World>, steps: seq<Step>, i: RunId)
    returns (ws': seq<World>, steps': seq<Step>)
    requires IsRun(specs, f, ws, steps)
    requires Last(ws).history != [] && Last(ws).Phase(i).Committing?
    ensures IsRun(specs, f, ws', steps') && ws'[0] == ws[0]
    ensures Timely(ws, steps) && Last(ws).Protected(i) ==> Timely(ws', steps')
    ensures var w := Last(ws);
            Last(ws') == w.(phases := w.phases[i := Wrote(|w.history|)],
                            history := w.history
                              + [Version(Overlay(w.Trunk(), w.Phase(i).post, specs(i).WriteGroups()), Some(i))])
  {
    FetchThenCommit(specs, f, Last(ws), i);
    ws', steps' := Extend(specs, f, ws, steps, Fetch(i));
    ws', steps' := Extend(specs, f, ws', steps', Commit(i));
  }

  lemma FetchThenCommit(specs: Specs, f: Float64, w: World, i: RunId)
    requires w.history != [] && w.Phase(i).Committing?
    ensures var fetched := Next(specs, f, w, Fetch(i));
            && Enabled(specs, fetched, Commit(i)) && fetched.Protected(i) == w.Protected(i)
            && fetched.history == w.history
            && Next(specs, f, fetched, Commit(i)) ==
                 w.(phases := w.phases[i := Wrote(|w.history|)],
                    history := w.history
                      + [Version(Overlay(w.Trunk(), w.Phase(i).post, specs(i).WriteGroups()), Some(i))])
  {
    var p := w.Phase(i);
    assert w.phases[i := Fetched(p.cut, p.post, p.entered, p.attempts, w.Current())][i := Wrote(|w.history|)]
        == w.phases[i := Wrote(|w.history|)];
  }

  /** A row whose group address is `group`. */
  function RowAt(group: string): (r: Resource)
    requires '.' in group
    ensures r.Address() == group && r.instances == Absent
  {
    var i := FirstDot(group);
    assert group == group[..i] + "." + group[i + 1..];
    Resource("", "managed", group[..i], group[i + 1..], "", "", Absent)
  }

  function FirstDot(s: string): (i: nat)
    requires '.' in s
    ensures i < |s| && s[i] == '.'
  {
    if s[0] == '.' then 0
    else
      assert s == [s[0]] + s[1..];
      1 + FirstDot(s[1..])
  }

  /** Terraform for a run that destroys whatever it was to write. */
  function Destroying(): Rows -> Rows {
    m => map[]
  }

  /** Terraform for a run that leaves `row` in its group if and only if it does not see `seen`. */
  function Replacing(seen: string, row: Resource): Rows -> Rows {
    m => if seen in m then map[] else map[row.Address() := row]
  }

  /** A trunk at serial `n` whose rows have never changed. */
  function Genesis(n: nat, rows: Rows): World {
    World(0, seq(n + 1, _ => Version(rows, None)), map[], map[], {})
  }

  /** Two versions on top of it, both sliced from it. */
  function Stacked(specs: Specs, n: nat, rows: Rows, first: RunId, second: RunId): seq<Version> {
    var one := Overlay(rows, specs(first).PostApply(rows), specs(first).WriteGroups());
    var two := Overlay(one, specs(second).PostApply(rows), specs(second).WriteGroups());
    Genesis(n, rows).history + [Version(one, Some(first)), Version(two, Some(second))]
  }

  /** A run planned on some serial up to `n` gets through the guard there, and through the
      check for surprises. */
  predicate Fits(spec: Spec, n: nat, rows: Rows, f: Float64) {
    && (spec.Guarded() ==> spec.sourceSerial.value <= n)
    && (forall g :: g in spec.ReadGroups() ==> SameRow(At(rows, g), At(rows, g), f))
    && spec.PostApply(rows).Keys <= spec.footprint
  }

  /** Run `i` waits in the commit loop with what it made of `rows`. */
  predicate Waits(specs: Specs, w: World, i: RunId, rows: Rows) {
    w.Phase(i).Committing? && w.Phase(i).post == specs(i).PostApply(rows)
  }

  /** Two waiting runs commit one after the other. */
  lemma CommitBoth(specs: Specs, f: Float64, ws: seq<World>, steps: seq<Step>, i: RunId, j: RunId, n: nat, rows: Rows)
    returns (ws': seq<World>, steps': seq<Step>)
    requires i != j && IsRun(specs, f, ws, steps) && Last(ws).history == Genesis(n, rows).history
    requires Waits(specs, Last(ws), i, rows) && Waits(specs, Last(ws), j, rows)
    ensures IsRun(specs, f, ws', steps') && ws'[0] == ws[0]
    ensures Timely(ws, steps) && Last(ws).Protected(i) && Last(ws).Protected(j) ==> Timely(ws', steps')
    ensures Last(ws').history == Stacked(specs, n, rows, i, j)
  {
    ws', steps' := FetchAndCommit(specs, f, ws, steps, i);
    assert Last(ws').Phase(j) == Last(ws).Phase(j) && Last(ws').Protected(j) == Last(ws).Protected(j);
    ws', steps' := FetchAndCommit(specs, f, ws', steps', j);
  }

  /** Both runs slice the same trunk, then both commit. */
  lemma Interleaved(specs: Specs, f: Float64, i: RunId, j: RunId, n: nat, rows: Rows)
    returns (ws: seq<World>, steps: seq<Step>)
    requires i != j && !Conflict(specs(i).reservations, specs(j).reservations)
    requires Fits(specs(i), n, rows, f) && Fits(specs(j), n, rows, f) && specs(i).lease > 0 && specs(j).lease > 0
    ensures IsRun(specs, f, ws, steps) && Timely(ws, steps)
    ensures ws[0] == Genesis(n, rows) && Last(ws).history == Stacked(specs, n, rows, i, j)
  {
    ws, steps := [Genesis(n, rows)], [];
    ws, steps := UpToTerraform(specs, f, ws, steps, i);
    ConflictSymmetric(specs(i).reservations, specs(j).reservations);
    ws, steps := UpToTerraform(specs, f, ws, steps, j);
    ws, steps := CommitBoth(specs, f, ws, steps, i, j, n, rows);
  }

  /** Run `j` outlives its leases in the commit loop; run `i` comes, commits, and is overtaken
      by the commit of run `j`. */
  lemma Overtaken(specs: Specs, f: Float64, i: RunId, j: RunId, n: nat, rows: Rows)
    returns (ws: seq<World>, steps: seq<Step>)
    requires i != j && Fits(specs(i), n, rows, f) && Fits(specs(j), n, rows, f)
    ensures IsRun(specs, f, ws, steps)
    ensures ws[0] == Genesis(n, rows) && Last(ws).history == Stacked(specs, n, rows, i, j)
  {
    ws, steps := [Genesis(n, rows)], [];
    ws, steps := UpToTerraform(specs, f, ws, steps, j);
    ws, steps := Extend(specs, f, ws, steps, Tick(specs(j).lease));
    ws, steps := UpToTerraform(specs, f, ws, steps, i);
    ws, steps := CommitBoth(specs, f, ws, steps, i, j, n, rows);
  }

  // ------------------------------------------------- exactly which reservations

  /** The same plans, whatever Terraform does. */
  ghost predicate SamePlans(specs: Specs, plans: Specs) {
    forall i: RunId :: specs(i) == plans(i).(terraform := specs(i).terraform)
  }

  /** The run is one over documents: its rows are kept under their addresses, before and after
      Terraform. */
  ghost predicate OnDocuments(specs: Specs, h0: seq<Version>) {
    && (forall k :: 0 <= k < |h0| ==> WellKeyed(h0[k].rows))
    && (forall i: RunId :: KeepsKeys(specs(i)))
  }

  /** Terraform leaves a document when it is given one. */
  ghost predicate KeepsKeys(spec: Spec) {
    forall m :: WellKeyed(m) ==> WellKeyed(spec.terraform(m))
  }

  lemma DestroyingIsFair(spec: Spec)
    requires spec.terraform == Destroying()
    ensures spec.WellScoped() && KeepsKeys(spec)
  {
  }

  lemma GenesisIsOnDocuments(specs: Specs, n: nat, rows: Rows)
    requires WellKeyed(rows) && forall i: RunId :: KeepsKeys(specs(i))
    ensures OnDocuments(specs, Genesis(n, rows).history)
  {
  }

  /** Every address the plans write or read is one a resource can have. */
  ghost predicate Addressable(plans: Specs) {
    forall i: RunId, a :: a in plans(i).Touched() ==> '.' in a
  }

  /** Every timely run of these plans has the outcome of executing them one at a time. */
  ghost predicate AlwaysSerial(plans: Specs, f: Float64) {
    forall specs: Specs, ws: seq<World>, steps: seq<Step> ::
      SamePlans(specs, plans) && AllWellScoped(specs)
      && IsRun(specs, f, ws, steps) && Timely(ws, steps) && OnDocuments(specs, ws[0].history) ==>
        SerialOutcome(specs, ws[0].history, Last(ws).history)
  }

  /** Every timely run of these plans commits each guarded one on the read set it was made for. */
  ghost predicate AlwaysOnPlan(plans: Specs, f: Float64) {
    forall specs: Specs, ws: seq<World>, steps: seq<Step> ::
      SamePlans(specs, plans)
      && IsRun(specs, f, ws, steps) && Timely(ws, steps) && OnDocuments(specs, ws[0].history) ==>
        PlansKept(specs, f, ws[0].history, Last(ws).history)
  }

  lemma SamePlansSameShield(specs: Specs, plans: Specs, c: Concern)
    requires SamePlans(specs, plans) && Shielded(plans, c)
    ensures Shielded(specs, c)
  {
    forall i: RunId, j: RunId | i != j && specs(i).WriteGroups() * specs(j).ReliesOn(c) != {}
      ensures Conflict(specs(i).reservations, specs(j).reservations)
    {
      assert specs(i) == plans(i).(terraform := specs(i).terraform);
      assert specs(j) == plans(j).(terraform := specs(j).terraform);
      assert plans(i).WriteGroups() * plans(j).ReliesOn(c) != {};
    }
  }

  /** Serializability, exactly: every timely run of a set of plans is serializable, whatever
      Terraform does within the rows a run touches, if and only if the reservations of any two
      of them conflict whenever one writes a group the other relies on.  The staleness guard
      makes no difference.  (Leases are positive: orchestrator.go:48-51 sees to it.) */
  lemma SerializableIffShielded(plans: Specs, f: Float64)
    requires Addressable(plans) && forall i: RunId :: plans(i).lease > 0
    ensures AlwaysSerial(plans, f) <==> Shielded(plans, SoloResult)
  {
    if Shielded(plans, SoloResult) {
      forall specs: Specs, ws: seq<World>, steps: seq<Step>
        | SamePlans(specs, plans) && AllWellScoped(specs)
          && IsRun(specs, f, ws, steps) && Timely(ws, steps) && OnDocuments(specs, ws[0].history)
        ensures SerialOutcome(specs, ws[0].history, Last(ws).history)
      {
        SamePlansSameShield(specs, plans, SoloResult);
        Serializable(specs, f, ws, steps);
      }
    } else {
      var i: RunId, j: RunId :| i != j && plans(i).WriteGroups() * plans(j).ReliesOn(SoloResult) != {}
                                && !Conflict(plans(i).reservations, plans(j).reservations);
      var specs, ws, steps := UnshieldedRunsAreNotSerializable(plans, f, i, j);
    }
  }

  /** Plan-to-commit stability, exactly. */
  lemma OnPlanIffShielded(plans: Specs, f: Float64)
    requires Addressable(plans) && forall i: RunId :: plans(i).lease > 0
    ensures AlwaysOnPlan(plans, f) <==> Shielded(plans, PlanBasis)
  {
    if Shielded(plans, PlanBasis) {
      forall specs: Specs, ws: seq<World>, steps: seq<Step>
        | SamePlans(specs, plans)
          && IsRun(specs, f, ws, steps) && Timely(ws, steps) && OnDocuments(specs, ws[0].history)
        ensures PlansKept(specs, f, ws[0].history, Last(ws).history)
      {
        SamePlansSameShield(specs, plans, PlanBasis);
        PlanToCommitStability(specs, f, ws, steps);
      }
    } else {
      var i: RunId, j: RunId :| i != j && plans(i).WriteGroups() * plans(j).ReliesOn(PlanBasis) != {}
                                && !Conflict(plans(i).reservations, plans(j).reservations);
      var specs, ws, steps := UnshieldedPlansGoStale(plans, f, i, j);
    }
  }

  /** These plans, with Terraform destroying everything except that run `j` replaces `h` once
      `g` is gone. */
  ghost function Rivals(plans: Specs, j: RunId, g: string, h: string): Specs
    requires '.' in h
  {
    (r: RunId) => plans(r).(terraform := if r == j then Replacing(g, RowAt(h)) else Destroying())
  }

  /** A serial no plan of the two is newer than. */
  function LatestOf(a: Spec, b: Spec): (n: nat)
    ensures a.Guarded() ==> a.sourceSerial.value <= n
    ensures b.Guarded() ==> b.sourceSerial.value <= n
  {
    var s := if a.Guarded() then a.sourceSerial.value else 0;
    var t := if b.Guarded() then b.sourceSerial.value else 0;
    if s < t then t else s
  }

  lemma RivalsAreFair(plans: Specs, j: RunId, g: string, h: string, n: nat)
    requires g in plans(j).Touched() && '.' in g && '.' in h
    ensures AllWellScoped(Rivals(plans, j, g, h))
    ensures OnDocuments(Rivals(plans, j, g, h), Genesis(n, map[g := RowAt(g)]).history)
  {
    var specs := Rivals(plans, j, g, h);
    forall r: RunId ensures specs(r).WellScoped() && KeepsKeys(specs(r)) {
      RivalIsFair(plans, j, g, h, r);
    }
    GenesisIsOnDocuments(specs, n, map[g := RowAt(g)]);
  }

  lemma RivalIsFair(plans: Specs, j: RunId, g: string, h: string, r: RunId)
    requires g in plans(j).Touched() && '.' in g && '.' in h
    ensures Rivals(plans, j, g, h)(r).WellScoped() && KeepsKeys(Rivals(plans, j, g, h)(r))
  {
    var spec := Rivals(plans, j, g, h)(r);
    if r == j {
      ReplacingIsFair(spec, g, h);
    } else {
      DestroyingIsFair(spec);
    }
  }

  lemma RivalsFit(plans: Specs, f: Float64, i: RunId, j: RunId, g: string, h: string)
    requires i != j && g in plans(j).Touched() * plans(j).footprint && '.' in g && '.' in h
    ensures Fits(Rivals(plans, j, g, h)(i), LatestOf(plans(i), plans(j)), map[g := RowAt(g)], f)
    ensures Fits(Rivals(plans, j, g, h)(j), LatestOf(plans(i), plans(j)), map[g := RowAt(g)], f)
  {
    RivalFits(Rivals(plans, j, g, h)(i), LatestOf(plans(i), plans(j)), g, f);
    RivalFits(Rivals(plans, j, g, h)(j), LatestOf(plans(i), plans(j)), g, f);
  }

  /** A run that leaves nothing gets through to its commit. */
  lemma RivalFits(spec: Spec, n: nat, g: string, f: Float64)
    requires '.' in g && spec.PostApply(map[g := RowAt(g)]) == map[]
    requires spec.Guarded() ==> spec.sourceSerial.value <= n
    ensures Fits(spec, n, map[g := RowAt(g)], f)
  {
  }

  /** Terraform that looks at one touched group only is well scoped. */
  lemma SeesOneGroup(spec: Spec, g: string)
    requires g in spec.Touched()
    requires forall m, n :: At(m, g) == At(n, g) ==> spec.terraform(m) == spec.terraform(n)
    ensures spec.WellScoped()
  {
    forall m, n | forall k :: k in spec.Touched() ==> At(m, k) == At(n, k)
      ensures forall k :: k in spec.WriteGroups() ==> At(spec.terraform(m), k) == At(spec.terraform(n), k)
    {
      assert At(m, g) == At(n, g);
    }
  }

  lemma ReplacingIsFair(spec: Spec, g: string, h: string)
    requires '.' in h && spec.terraform == Replacing(g, RowAt(h)) && g in spec.Touched()
    ensures spec.WellScoped() && KeepsKeys(spec)
  {
    SeesOneGroup(spec, g);
  }

  /** Executed one after the other, run `j` sees that run `i` destroyed the group; sliced
      before, it does not. */
  lemma RivalsDiffer(plans: Specs, i: RunId, j: RunId, g: string, h: string, n: nat)
    requires i != j && g in plans(i).WriteGroups() && g in plans(j).Touched() * plans(j).footprint
    requires h in plans(j).WriteGroups()
    requires '.' in g && '.' in h
    ensures var rows: Rows := map[g := RowAt(g)];
            var specs := Rivals(plans, j, g, h);
            && At(Stacked(specs, n, rows, i, j)[n + 2].rows, h) == None
            && At(specs(j).Alone(specs(i).Alone(rows)), h) == Some(RowAt(h))
  {
    var rows: Rows := map[g := RowAt(g)];
    var specs := Rivals(plans, j, g, h);
    var one := specs(i).Alone(rows);
    OverlayAt(rows, specs(i).PostApply(rows), specs(i).WriteGroups(), g);
    OverlayAt(one, specs(j).PostApply(one), specs(j).WriteGroups(), h);
    OverlayAt(one, specs(j).PostApply(rows), specs(j).WriteGroups(), h);
    assert g in Restrict(rows, specs(j).footprint) && g !in Restrict(one, specs(j).footprint);
  }

  lemma RivalsAreNotSerial(plans: Specs, i: RunId, j: RunId, g: string, h: string, n: nat)
    requires i != j && g in plans(i).WriteGroups() && g in plans(j).Touched() * plans(j).footprint
    requires h in plans(j).WriteGroups()
    requires '.' in g && '.' in h
    ensures var rows: Rows := map[g := RowAt(g)];
            var specs := Rivals(plans, j, g, h);
            !SerialOutcome(specs, Genesis(n, rows).history, Stacked(specs, n, rows, i, j))
  {
    RivalsDiffer(plans, i, j, g, h, n);
    SerialPair(Rivals(plans, j, g, h), n, map[g := RowAt(g)], i, j);
  }

  lemma SerialPair(specs: Specs, n: nat, rows: Rows, i: RunId, j: RunId)
    ensures var all := Stacked(specs, n, rows, i, j);
            SerialOutcome(specs, Genesis(n, rows).history, all) ==>
              all[n + 2].rows == specs(j).Alone(specs(i).Alone(rows))
  {
    var all := Stacked(specs, n, rows, i, j);
    CommittersOfTwo(all, n + 1, i, j);
    ReplayOneMore(specs, rows, [], i);
    ReplayOneMore(specs, rows, [i], j);
    assert [] + [i] == [i] && [i] + [j] == [i, j];
  }

  lemma CommittersOfTwo(h: seq<Version>, n: nat, i: RunId, j: RunId)
    requires |h| == n + 2 && h[n].author == Some(i) && h[n + 1].author == Some(j)
    ensures Committers(h, n, n + 2) == [i, j]
  {
    assert Committers(h, n, n) == [];
    assert Committers(h, n, n + 1) == [i];
  }

  /** Two runs whose reservations do not conflict although one writes a group the other relies
      on, guarded or not: with suitable Terraform runs both commit, timely, and the outcome is
      not the serial one. */
  lemma UnshieldedRunsAreNotSerializable(plans: Specs, f: Float64, i: RunId, j: RunId)
    returns (specs: Specs, ws: seq<World>, steps: seq<Step>)
    requires Addressable(plans)
    requires i != j && plans(i).WriteGroups() * plans(j).ReliesOn(SoloResult) != {}
    requires !Conflict(plans(i).reservations, plans(j).reservations) && plans(i).lease > 0 && plans(j).lease > 0
    ensures IsRun(specs, f, ws, steps) && Timely(ws, steps)
    ensures SamePlans(specs, plans) && AllWellScoped(specs) && OnDocuments(specs, ws[0].history)
    ensures !SerialOutcome(specs, ws[0].history, Last(ws).history)
  {
    var g :| g in plans(i).WriteGroups() * plans(j).ReliesOn(SoloResult);
    var h :| h in plans(j).WriteGroups();
    var n := LatestOf(plans(i), plans(j));
    specs := Rivals(plans, j, g, h);
    RivalsAreFair(plans, j, g, h, n);
    RivalsFit(plans, f, i, j, g, h);
    ws, steps := Interleaved(specs, f, i, j, n, map[g := RowAt(g)]);
    RivalsAreNotSerial(plans, i, j, g, h, n);
  }

  /** Two runs whose reservations do not conflict although one writes a group the other was
      planned against: the other passes its guard, and still commits on a changed read set. */
  lemma UnshieldedPlansGoStale(plans: Specs, f: Float64, i: RunId, j: RunId)
    returns (specs: Specs, ws: seq<World>, steps: seq<Step>)
    requires Addressable(plans)
    requires i != j && plans(i).WriteGroups() * plans(j).ReliesOn(PlanBasis) != {}
    requires !Conflict(plans(i).reservations, plans(j).reservations) && plans(i).lease > 0 && plans(j).lease > 0
    ensures IsRun(specs, f, ws, steps) && Timely(ws, steps)
    ensures SamePlans(specs, plans) && OnDocuments(specs, ws[0].history)
    ensures !PlansKept(specs, f, ws[0].history, Last(ws).history)
  {
    var g :| g in plans(i).WriteGroups() * plans(j).ReliesOn(PlanBasis);
    var n := LatestOf(plans(i), plans(j));
    specs := Destroyers(plans);
    DestroyersAreFair(plans, n, g);
    DestroyerFits(specs(i), n, g, f);
    DestroyerFits(specs(j), n, g, f);
    ws, steps := Interleaved(specs, f, i, j, n, map[g := RowAt(g)]);
    DestroyersGoStale(plans, f, i, j, n, g);
  }

  /** These plans, with Terraform destroying everything. */
  ghost function Destroyers(plans: Specs): Specs {
    (r: RunId) => plans(r).(terraform := Destroying())
  }

  lemma DestroyersAreFair(plans: Specs, n: nat, g: string)
    requires '.' in g
    ensures OnDocuments(Destroyers(plans), Genesis(n, map[g := RowAt(g)]).history)
  {
    forall r: RunId ensures KeepsKeys(Destroyers(plans)(r)) {
      DestroyingIsFair(Destroyers(plans)(r));
    }
    GenesisIsOnDocuments(Destroyers(plans), n, map[g := RowAt(g)]);
  }

  lemma DestroyerFits(spec: Spec, n: nat, g: string, f: Float64)
    requires '.' in g && spec.terraform == Destroying()
    requires spec.Guarded() ==> spec.sourceSerial.value <= n
    ensures Fits(spec, n, map[g := RowAt(g)], f)
  {
    RivalFits(spec, n, g, f);
  }

  lemma DestroyersGoStale(plans: Specs, f: Float64, i: RunId, j: RunId, n: nat, g: string)
    requires '.' in g && g in plans(i).WriteGroups() && g in plans(j).ReliesOn(PlanBasis)
    requires plans(j).sourceSerial.value <= n
    ensures var rows: Rows := map[g := RowAt(g)];
            !PlansKept(Destroyers(plans), f, Genesis(n, rows).history, Stacked(Destroyers(plans), n, rows, i, j))
  {
    var rows: Rows := map[g := RowAt(g)];
    var specs := Destroyers(plans);
    var h := Stacked(specs, n, rows, i, j);
    OverlayAt(rows, specs(i).PostApply(rows), specs(i).WriteGroups(), g);
    assert h[n + 2].author == Some(j) && At(h[n + 1].rows, g) == None;
    assert At(h[plans(j).sourceSerial.value].rows, g) == Some(RowAt(g));
  }

  /** Two applies of two instances of one group: their reservations are on different addresses,
      so both are admitted, although both merges replace the whole group. */
  lemma InstanceReservationsDoNotShield(group: string, key: string, other: string)
    requires key != other
    ensures var v, w := Indexed(group, key), Indexed(group, other);
            && !Conflict(BuildReservations([v], [v]), BuildReservations([w], [w]))
            && (group in Groups([v]) <==> '[' !in key)
            && (group in Groups([w]) <==> '[' !in other)
  {
    var v, w := Indexed(group, key), Indexed(group, other);
    IndexedInjective(group, key, other);
    StripIndexOfInstance(group, key);
    StripIndexOfInstance(group, other);
    assert v in [v] && w in [w];
  }

  /** Hence plans for two such instances are not serializable. */
  lemma InstancePlansAreNotSerializable(plans: Specs, f: Float64, i: RunId, j: RunId, group: string, key: string,
                                        other: string)
    requires Addressable(plans)
    requires forall r: RunId :: plans(r).lease > 0
    requires i != j && key != other && '[' !in key && '[' !in other && group in plans(j).footprint
    requires plans(i).writeSet == plans(i).readSet == [Indexed(group, key)]
    requires plans(j).writeSet == plans(j).readSet == [Indexed(group, other)]
    requires plans(i).reservations == BuildReservations(plans(i).writeSet, plans(i).readSet)
    requires plans(j).reservations == BuildReservations(plans(j).writeSet, plans(j).readSet)
    ensures !AlwaysSerial(plans, f)
  {
    InstanceReservationsDoNotShield(group, key, other);
    assert group in plans(i).WriteGroups() * plans(j).ReliesOn(SoloResult);
    SerializableIffShielded(plans, f);
  }

  // --------------------------------------------------------------- late commits

  /** Committing after the leases lapsed breaks serializability for any reservations: while
      run `j` sits in its commit loop its leases run out, run `i` takes the reservations and
      commits, and run `j` then commits what it made of the older rows. */
  lemma LateCommitIsNotSerializable(plans: Specs, f: Float64, i: RunId, j: RunId)
    returns (specs: Specs, ws: seq<World>, steps: seq<Step>)
    requires Addressable(plans)
    requires i != j && plans(i).WriteGroups() * plans(j).ReliesOn(SoloResult) != {}
    ensures IsRun(specs, f, ws, steps)
    ensures SamePlans(specs, plans) && AllWellScoped(specs) && OnDocuments(specs, ws[0].history)
    ensures !SerialOutcome(specs, ws[0].history, Last(ws).history)
  {
    var g :| g in plans(i).WriteGroups() * plans(j).ReliesOn(SoloResult);
    var h :| h in plans(j).WriteGroups();
    var n := LatestOf(plans(i), plans(j));
    specs := Rivals(plans, j, g, h);
    RivalsAreFair(plans, j, g, h, n);
    RivalsFit(plans, f, i, j, g, h);
    ws, steps := Overtaken(specs, f, i, j, n, map[g := RowAt(g)]);
    RivalsAreNotSerial(plans, i, j, g, h, n);
  }

  /** Terraform for a run that leaves one of two rows in `g`, depending on whether it sees one. */
  function Reacting(g: string, absent: Resource, present: Resource): Rows -> Rows {
    m => map[g := if g in m then present else absent]
  }

  /** When both runs write the group, the late commit matches neither serial order. */
  lemma LateCommitMatchesNoOrder(plans: Specs, f: Float64, i: RunId, j: RunId, g: string, x: Resource, y: Resource)
    returns (specs: Specs, ws: seq<World>, steps: seq<Step>)
    requires i != j && g in plans(i).WriteGroups() * plans(i).footprint
    requires g in plans(j).WriteGroups() * plans(j).footprint
    requires x != y && x.Address() == g == y.Address()
    ensures IsRun(specs, f, ws, steps)
    ensures SamePlans(specs, plans) && AllWellScoped(specs) && OnDocuments(specs, ws[0].history)
    ensures Last(ws).history != [] && At(Last(ws).Trunk(), g) == Some(x)
    ensures At(Replay(specs, ws[0].Trunk(), [i, j]), g) == Some(y) == At(Replay(specs, ws[0].Trunk(), [j, i]), g)
  {
    specs := Reactors(plans, i, j, g, x, y);
    var n := LatestOf(plans(i), plans(j));
    ReactorsAreFair(plans, i, j, g, x, y, n);
    ReactorFits(specs(i), n, g, x, y, f);
    ReactorFits(specs(j), n, g, x, y, f);
    ws, steps := Overtaken(specs, f, i, j, n, map[]);
    LateRow(specs, n, i, j, g, x, y);
    TwoReactionsSerially(specs, g, x, y, i, j);
    TwoReactionsSerially(specs, g, x, y, j, i);
  }

  lemma LateRow(specs: Specs, n: nat, i: RunId, j: RunId, g: string, x: Resource, y: Resource)
    requires specs(j).terraform == Reacting(g, x, y) && g in specs(j).WriteGroups()
    ensures At(Stacked(specs, n, map[], i, j)[n + 2].rows, g) == Some(x)
  {
    OverlayAt(specs(i).Alone(map[]), specs(j).PostApply(map[]), specs(j).WriteGroups(), g);
  }

  ghost function Reactors(plans: Specs, i: RunId, j: RunId, g: string, x: Resource, y: Resource): Specs {
    (r: RunId) => plans(r).(terraform := if r == i || r == j then Reacting(g, x, y) else Destroying())
  }

  lemma ReactorsAreFair(plans: Specs, i: RunId, j: RunId, g: string, x: Resource, y: Resource, n: nat)
    requires g in plans(i).Touched() && g in plans(j).Touched() && x.Address() == g == y.Address()
    ensures AllWellScoped(Reactors(plans, i, j, g, x, y))
    ensures OnDocuments(Reactors(plans, i, j, g, x, y), Genesis(n, map[]).history)
  {
    var specs := Reactors(plans, i, j, g, x, y);
    forall r: RunId ensures specs(r).WellScoped() && KeepsKeys(specs(r)) {
      ReactorIsFair(plans, i, j, g, x, y, r);
    }
    GenesisIsOnDocuments(specs, n, map[]);
  }

  lemma ReactorIsFair(plans: Specs, i: RunId, j: RunId, g: string, x: Resource, y: Resource, r: RunId)
    requires g in plans(i).Touched() && g in plans(j).Touched() && x.Address() == g == y.Address()
    ensures Reactors(plans, i, j, g, x, y)(r).WellScoped() && KeepsKeys(Reactors(plans, i, j, g, x, y)(r))
  {
    var spec := Reactors(plans, i, j, g, x, y)(r);
    if r == i || r == j {
      ReactingIsFair(spec, g, x, y);
    } else {
      DestroyingIsFair(spec);
    }
  }

  lemma ReactorFits(spec: Spec, n: nat, g: string, x: Resource, y: Resource, f: Float64)
    requires spec.terraform == Reacting(g, x, y) && g in spec.footprint
    requires spec.Guarded() ==> spec.sourceSerial.value <= n
    ensures Fits(spec, n, map[], f)
  {
    assert spec.PostApply(map[]).Keys == {g};
  }

  lemma ReactingIsFair(spec: Spec, g: string, x: Resource, y: Resource)
    requires spec.terraform == Reacting(g, x, y) && g in spec.Touched() && x.Address() == g == y.Address()
    ensures spec.WellScoped() && KeepsKeys(spec)
  {
    SeesOneGroup(spec, g);
  }

  lemma TwoReactionsSerially(specs: Specs, g: string, x: Resource, y: Resource, i: RunId, j: RunId)
    requires specs(i).terraform == specs(j).terraform == Reacting(g, x, y)
    requires g in specs(i).WriteGroups() && g in specs(j).WriteGroups() && g in specs(j).footprint
    ensures At(Replay(specs, map[], [i, j]), g) == Some(y)
  {
    assert [i, j][..1] == [i] && [i][..0] == [];
    var one := specs(i).Alone(map[]);
    assert Replay(specs, map[], [i]) == one;
    OverlayAt(map[], specs(i).PostApply(map[]), specs(i).WriteGroups(), g);
    OverlayAt(one, specs(j).PostApply(one), specs(j).WriteGroups(), g);
    assert g in Restrict(one, specs(j).footprint);
  }
}
