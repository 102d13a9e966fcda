/** What every run of the parallel-apply protocol guarantees. */
module Serializability {
  import opened Json
  import opened TrunkState
  import opened Merge
  import opened Staleness
  import opened ApplyProtocol

  /** Up to JSON member order and number spelling, or literally. */
  predicate StableRow(a: Option<Resource>, b: Option<Resource>, f: Float64) {
    a == b || SameRow(a, b, f)
  }

  /** The guard's verdict, as remembered by a sliced run. */
  predicate PlanStillHolds(spec: Spec, h: seq<Version>, at: nat, f: Float64)
    requires at < |h|
  {
    spec.Guarded() ==>
      && spec.sourceSerial.value <= at
      && forall g :: g in spec.ReadGroups() ==>
           StableRow(At(h[spec.sourceSerial.value].rows, g), At(h[at].rows, g), f)
  }

  ghost predicate PlansHold(specs: Specs, f: Float64, w: World)
    requires Sane(specs, w)
  {
    forall i: RunId {:trigger w.Phase(i)} ::
      PhaseSane(specs(i), w.history, w.Phase(i)) && w.Phase(i).Sliced() ==>
        PlanStillHolds(specs(i), w.history, w.Phase(i).cut, f)
  }

  lemma FreshPlanHolds(spec: Spec, h: seq<Version>, f: Float64)
    requires h != [] && GuardPasses(spec, h, f)
    ensures PlanStillHolds(spec, h, |h| - 1, f)
  {
  }

  lemma PlanHoldsLater(spec: Spec, h: seq<Version>, h': seq<Version>, at: nat, f: Float64)
    requires at < |h| && h <= h' && PlanStillHolds(spec, h, at, f)
    ensures PlanStillHolds(spec, h', at, f)
  {
  }

  lemma PlansHoldStep(specs: Specs, f: Float64, w: World, s: Step)
    requires Sane(specs, w) && PlansHold(specs, f, w) && Enabled(specs, w, s)
    requires Sane(specs, Next(specs, f, w, s))
    ensures PlansHold(specs, f, Next(specs, f, w, s))
  {
    var w' := Next(specs, f, w, s);
    StepFrame(specs, f, w, s);
    forall i: RunId | w'.Phase(i).Sliced() && w'.Phase(i).cut < |w'.history|
      ensures PlanStillHolds(specs(i), w'.history, w'.Phase(i).cut, f)
    {
      if s.Guard? && s.i == i {
        FreshPlanHolds(specs(i), w.history, f);
      } else {
        SlicedBefore(specs, f, w, s, i);
        assert PhaseSane(specs(i), w.history, w.Phase(i));
        PlanHoldsLater(specs(i), w.history, w'.history, w.Phase(i).cut, f);
      }
    }
  }

  /** Version `k` is its author executed alone on version `k - 1`. */
  predicate SerialVersion(specs: Specs, h: seq<Version>, k: nat) {
    && 0 < k < |h|
    && h[k].author.Some?
    && h[k].rows == specs(h[k].author.value).Alone(h[k - 1].rows)
  }

  /** The author of version `k` found its read set at version `k - 1` as it was planned on. */
  predicate PlannedVersion(specs: Specs, f: Float64, h: seq<Version>, k: nat) {
    && 0 < k < |h|
    && h[k].author.Some?
    && PlanStillHolds(specs(h[k].author.value), h, k - 1, f)
  }

  /** A timely commit writes what the run would have written had it executed alone,
      atomically, on the trunk it committed on top of. */
  lemma CommitIsSerial(specs: Specs, w: World, i: RunId)
    requires Inv(specs, SoloResult, w)
    requires Lands(w, i) && w.Protected(i) && specs(i).WellScoped()
    ensures Overlay(w.Trunk(), w.Phase(i).post, specs(i).WriteGroups()) == specs(i).Alone(w.Trunk())
  {
    var spec, cut := specs(i), w.Phase(i).cut;
    assert PhaseSane(spec, w.history, w.Phase(i));
    var before, now := w.history[cut].rows, w.Trunk();
    if spec.WriteGroups() != {} {
      forall g | g in spec.Touched()
        ensures At(Restrict(before, spec.footprint), g) == At(Restrict(now, spec.footprint), g)
      {
        if g in spec.footprint {
          assert g in spec.ReliesOn(SoloResult);
          assert At(before, g) == At(now, g);
        }
      }
    }
    SamePostSameOverlay(now, spec.PostApply(before), spec.PostApply(now), spec.WriteGroups());
  }

  /** A timely commit finds its read set as it was when the guard passed. */
  lemma CommitIsPlanned(specs: Specs, f: Float64, w: World, i: RunId)
    requires Inv(specs, PlanBasis, w) && PlansHold(specs, f, w)
    requires Lands(w, i) && w.Protected(i)
    ensures PlanStillHolds(specs(i), w.history, |w.history| - 1, f)
  {
    var spec, cut := specs(i), w.Phase(i).cut;
    assert PhaseSane(spec, w.history, w.Phase(i));
    assert PlanStillHolds(spec, w.history, cut, f);
    if spec.Guarded() {
      forall g | g in spec.ReadGroups() ensures At(w.history[cut].rows, g) == At(w.Trunk(), g) {
        assert g in spec.ReliesOn(PlanBasis);
      }
    }
  }

  lemma SamePostSameOverlay(trunk: Rows, p: Rows, q: Rows, groups: set<string>)
    requires forall g :: g in groups ==> At(p, g) == At(q, g)
    ensures Overlay(trunk, p, groups) == Overlay(trunk, q, groups)
  {
    forall a ensures At(Overlay(trunk, p, groups), a) == At(Overlay(trunk, q, groups), a) {
      OverlayAt(trunk, p, groups, a);
      OverlayAt(trunk, q, groups, a);
    }
    RowsEqual(Overlay(trunk, p, groups), Overlay(trunk, q, groups));
  }

  ghost predicate AllWellScoped(specs: Specs) {
    forall i: RunId :: specs(i).WellScoped()
  }

  /** Every version past the initial ones is its author's lone execution on the previous one. */
  ghost predicate SerialHistory(specs: Specs, h: seq<Version>, from: nat) {
    forall v {:trigger SerialVersion(specs, h, v)} :: from <= v < |h| ==> SerialVersion(specs, h, v)
  }

  ghost predicate PlannedHistory(specs: Specs, f: Float64, h: seq<Version>, from: nat) {
    forall v {:trigger PlannedVersion(specs, f, h, v)} :: from <= v < |h| ==> PlannedVersion(specs, f, h, v)
  }

  lemma SerialAppend(specs: Specs, h: seq<Version>, from: nat, last: Version)
    requires SerialHistory(specs, h, from) && h != []
    requires last.author.Some? && last.rows == specs(last.author.value).Alone(h[|h| - 1].rows)
    ensures SerialHistory(specs, h + [last], from)
  {
    forall v | from <= v < |h + [last]| ensures SerialVersion(specs, h + [last], v) {
      assert v < |h| ==> SerialVersion(specs, h, v);
    }
  }

  lemma PlannedAppend(specs: Specs, f: Float64, h: seq<Version>, from: nat, last: Version)
    requires PlannedHistory(specs, f, h, from) && h != []
    requires last.author.Some? && PlanStillHolds(specs(last.author.value), h, |h| - 1, f)
    ensures PlannedHistory(specs, f, h + [last], from)
  {
    forall v | from <= v < |h + [last]| ensures PlannedVersion(specs, f, h + [last], v) {
      if v == |h| {
        PlanHoldsLater(specs(last.author.value), h, h + [last], v - 1, f);
      } else {
        assert PlannedVersion(specs, f, h, v);
        PlanHoldsLater(specs(h[v].author.value), h, h + [last], v - 1, f);
      }
    }
  }

  function Landed(specs: Specs, w: World, i: RunId): Version
    requires w.history != [] && Lands(w, i)
  {
    Version(Overlay(w.Trunk(), w.Phase(i).post, specs(i).WriteGroups()), Some(i))
  }

  lemma SerialStep(specs: Specs, f: Float64, from: nat, w: World, s: Step)
    requires Inv(specs, SoloResult, w) && SerialHistory(specs, w.history, from) && AllWellScoped(specs)
    requires Enabled(specs, w, s) && TimelyStep(w, s)
    ensures w.history <= Next(specs, f, w, s).history && SerialHistory(specs, Next(specs, f, w, s).history, from)
  {
    if s.Commit? && Lands(w, s.i) {
      CommitIsSerial(specs, w, s.i);
    }
    HistoryGrowsSerially(specs, f, from, w, s);
  }

  lemma HistoryGrowsSerially(specs: Specs, f: Float64, from: nat, w: World, s: Step)
    requires w.history != [] && SerialHistory(specs, w.history, from) && Enabled(specs, w, s)
    requires s.Commit? && Lands(w, s.i) ==> Landed(specs, w, s.i).rows == specs(s.i).Alone(w.Trunk())
    ensures w.history <= Next(specs, f, w, s).history && SerialHistory(specs, Next(specs, f, w, s).history, from)
  {
    StepFrame(specs, f, w, s);
    if s.Commit? && Lands(w, s.i) {
      SerialAppend(specs, w.history, from, Landed(specs, w, s.i));
    }
  }

  lemma PlannedStep(specs: Specs, f: Float64, from: nat, w: World, s: Step)
    requires Inv(specs, PlanBasis, w) && PlansHold(specs, f, w) && PlannedHistory(specs, f, w.history, from)
    requires Enabled(specs, w, s) && TimelyStep(w, s)
    ensures w.history <= Next(specs, f, w, s).history && PlannedHistory(specs, f, Next(specs, f, w, s).history, from)
  {
    StepFrame(specs, f, w, s);
    if s.Commit? && Lands(w, s.i) {
      LandingIsPlanned(specs, f, from, w, s.i);
    }
  }

  lemma LandingIsPlanned(specs: Specs, f: Float64, from: nat, w: World, i: RunId)
    requires Inv(specs, PlanBasis, w) && PlansHold(specs, f, w) && PlannedHistory(specs, f, w.history, from)
    requires Lands(w, i) && w.Protected(i)
    ensures PlannedHistory(specs, f, w.history + [Landed(specs, w, i)], from)
  {
    CommitIsPlanned(specs, f, w, i);
    PlannedAppend(specs, f, w.history, from, Landed(specs, w, i));
  }

  lemma {:induction false} SerialHolds(specs: Specs, f: Float64, ws: seq<World>, steps: seq<Step>, k: nat)
    requires IsRun(specs, f, ws, steps) && Timely(ws, steps) && Shielded(specs, SoloResult) && AllWellScoped(specs)
    requires k < |ws|
    ensures Inv(specs, SoloResult, ws[k]) && ws[0].history <= ws[k].history
    ensures SerialHistory(specs, ws[k].history, |ws[0].history|)
  {
    if k > 0 {
      SerialHolds(specs, f, ws, steps, k - 1);
      StepOf(specs, f, ws, steps, k - 1);
      InvStep(specs, SoloResult, f, ws[k - 1], steps[k - 1]);
      SerialStep(specs, f, |ws[0].history|, ws[k - 1], steps[k - 1]);
    }
  }

  lemma {:induction false} PlannedHolds(specs: Specs, f: Float64, ws: seq<World>, steps: seq<Step>, k: nat)
    requires IsRun(specs, f, ws, steps) && Timely(ws, steps) && Shielded(specs, PlanBasis)
    requires k < |ws|
    ensures Inv(specs, PlanBasis, ws[k]) && PlansHold(specs, f, ws[k]) && ws[0].history <= ws[k].history
    ensures PlannedHistory(specs, f, ws[k].history, |ws[0].history|)
  {
    if k > 0 {
      PlannedHolds(specs, f, ws, steps, k - 1);
      StepOf(specs, f, ws, steps, k - 1);
      InvStep(specs, PlanBasis, f, ws[k - 1], steps[k - 1]);
      PlansHoldStep(specs, f, ws[k - 1], steps[k - 1]);
      PlannedStep(specs, f, |ws[0].history|, ws[k - 1], steps[k - 1]);
    }
  }

  /** Executing runs one at a time, in the given order. */
  function Replay(specs: Specs, rows: Rows, order: seq<RunId>): Rows {
    if order == [] then rows
    else specs(order[|order| - 1]).Alone(Replay(specs, rows, order[..|order| - 1]))
  }

  /** The committers of versions `from .. k`, in serial order. */
  function Committers(h: seq<Version>, from: nat, k: nat): seq<RunId>
    requires from <= k <= |h|
    requires forall v :: from <= v < k ==> h[v].author.Some?
  {
    if k == from then [] else Committers(h, from, k - 1) + [h[k - 1].author.value]
  }

  /** Each version's rows are those of executing the committed runs one at a time in commit
      order, each reading the trunk just before its own commit. */
  ghost predicate SerialOutcome(specs: Specs, h0: seq<Version>, h: seq<Version>) {
    && h0 != [] && h0 <= h
    && (forall v :: |h0| <= v < |h| ==> h[v].author.Some?)
    && forall k :: |h0| <= k <= |h| ==>
         h[k - 1].rows == Replay(specs, h0[|h0| - 1].rows, Committers(h, |h0|, k))
  }

  /** Serializability. */
  lemma Serializable(specs: Specs, f: Float64, ws: seq<World>, steps: seq<Step>)
    requires IsRun(specs, f, ws, steps) && Timely(ws, steps) && Shielded(specs, SoloResult) && AllWellScoped(specs)
    ensures SerialOutcome(specs, ws[0].history, ws[|ws| - 1].history)
  {
    var h0, h := ws[0].history, ws[|ws| - 1].history;
    SerialHolds(specs, f, ws, steps, |ws| - 1);
    forall v | |h0| <= v < |h| ensures h[v].author.Some? {
      assert SerialVersion(specs, h, v);
    }
    forall k | |h0| <= k <= |h|
      ensures h[k - 1].rows == Replay(specs, h0[|h0| - 1].rows, Committers(h, |h0|, k))
    {
      SerialHistoryReplays(specs, h, |h0|, k);
    }
  }

  lemma {:induction false} SerialHistoryReplays(specs: Specs, h: seq<Version>, from: nat, k: nat)
    requires 0 < from <= k <= |h| && SerialHistory(specs, h, from)
    ensures forall v :: from <= v < k ==> h[v].author.Some?
    ensures h[k - 1].rows == Replay(specs, h[from - 1].rows, Committers(h, from, k))
  {
    if k > from {
      SerialHistoryReplays(specs, h, from, k - 1);
      assert SerialVersion(specs, h, k - 1);
      ReplayOneMore(specs, h[from - 1].rows, Committers(h, from, k - 1), h[k - 1].author.value);
    }
  }

  lemma ReplayOneMore(specs: Specs, rows: Rows, order: seq<RunId>, i: RunId)
    ensures Replay(specs, rows, order + [i]) == specs(i).Alone(Replay(specs, rows, order))
  {
    assert (order + [i])[..|order|] == order;
  }

  /** Every guarded run that committed a version past the initial ones finds its read set, one
      version before, as it was at its source serial. */
  ghost predicate PlansKept(specs: Specs, f: Float64, h0: seq<Version>, h: seq<Version>) {
    forall k {:trigger h[k]} :: |h0| <= k < |h| ==>
      && h[k].author.Some?
      && var spec := specs(h[k].author.value);
         spec.Guarded() ==>
           && spec.sourceSerial.value < k
           && forall g :: g in spec.ReadGroups() ==>
                StableRow(At(h[spec.sourceSerial.value].rows, g), At(h[k - 1].rows, g), f)
  }

  /** Plan-to-commit stability, whatever Terraform does. */
  lemma PlanToCommitStability(specs: Specs, f: Float64, ws: seq<World>, steps: seq<Step>)
    requires IsRun(specs, f, ws, steps) && Timely(ws, steps) && Shielded(specs, PlanBasis)
    ensures PlansKept(specs, f, ws[0].history, ws[|ws| - 1].history)
  {
    var h0, h := ws[0].history, ws[|ws| - 1].history;
    PlannedHolds(specs, f, ws, steps, |ws| - 1);
    forall k | |h0| <= k < |h|
      ensures h[k].author.Some? && PlanStillHolds(specs(h[k].author.value), h, k - 1, f)
    {
      assert PlannedVersion(specs, f, h, k);
    }
  }

  // ------------------------------------------- without any lease hypothesis

  /** Version `k` differs from version `k - 1` only on its author's write groups. */
  ghost predicate ConfinedVersion(specs: Specs, h: seq<Version>, k: nat) {
    && 0 < k < |h|
    && h[k].author.Some?
    && forall a :: a !in specs(h[k].author.value).WriteGroups() ==> At(h[k].rows, a) == At(h[k - 1].rows, a)
  }

  predicate RetriesCharged(h: seq<Version>, p: Phase) {
    && (p.Committing? ==> p.attempts < MAX_COMMIT_RETRIES && p.entered + p.attempts <= |h| - 1)
    && (p.Fetched? ==> p.attempts < MAX_COMMIT_RETRIES && p.entered + p.attempts <= p.base <= |h| - 1)
    && (p.Exhausted? ==> p.entered + MAX_COMMIT_RETRIES <= p.gaveUp <= |h| - 1)
  }

  ghost predicate Accounted(specs: Specs, n: nat, w: World) {
    && Sane(specs, w) && OneVersionEach(w) && 0 < n <= |w.history|
    && (forall k {:trigger ConfinedVersion(specs, w.history, k)} ::
          n <= k < |w.history| ==> ConfinedVersion(specs, w.history, k))
    && (forall i: RunId {:trigger w.Phase(i)} :: RetriesCharged(w.history, w.Phase(i)))
    && (forall i: RunId {:trigger w.Phase(i)} ::
          (w.Phase(i).Committing? || w.Phase(i).Fetched? || w.Phase(i).Exhausted?) ==> n - 1 <= w.Phase(i).entered)
  }

  lemma AccountedStep(specs: Specs, f: Float64, n: nat, w: World, s: Step)
    requires Accounted(specs, n, w) && Enabled(specs, w, s)
    ensures Accounted(specs, n, Next(specs, f, w, s))
  {
    var w' := Next(specs, f, w, s);
    SaneStep(specs, f, w, s);
    OneVersionEachStep(specs, f, w, s);
    StepFrame(specs, f, w, s);
    forall i: RunId
      ensures RetriesCharged(w'.history, w'.Phase(i))
      ensures w'.Phase(i).Committing? || w'.Phase(i).Fetched? || w'.Phase(i).Exhausted? ==> n - 1 <= w'.Phase(i).entered
    {
      assert RetriesCharged(w.history, w.Phase(i));
      assert PhaseSane(specs(i), w.history, w.Phase(i));
    }
    forall k | n <= k < |w'.history| ensures ConfinedVersion(specs, w'.history, k) {
      if k < |w.history| {
        assert ConfinedVersion(specs, w.history, k);
        assert w'.history[k] == w.history[k] && w'.history[k - 1] == w.history[k - 1];
      } else {
        LandingIsConfined(specs, w, s.i);
      }
    }
  }

  lemma LandingIsConfined(specs: Specs, w: World, i: RunId)
    requires w.history != [] && Lands(w, i)
    ensures var last := Version(Overlay(w.Trunk(), w.Phase(i).post, specs(i).WriteGroups()), Some(i));
            ConfinedVersion(specs, w.history + [last], |w.history|)
  {
    forall a | a !in specs(i).WriteGroups()
      ensures At(Overlay(w.Trunk(), w.Phase(i).post, specs(i).WriteGroups()), a) == At(w.Trunk(), a)
    {
      OverlayAt(w.Trunk(), w.Phase(i).post, specs(i).WriteGroups(), a);
    }
  }

  lemma {:induction false} AccountedHolds(specs: Specs, f: Float64, ws: seq<World>, steps: seq<Step>, k: nat)
    requires IsRun(specs, f, ws, steps) && k < |ws|
    ensures Accounted(specs, |ws[0].history|, ws[k]) && ws[0].history <= ws[k].history
  {
    if k > 0 {
      AccountedHolds(specs, f, ws, steps, k - 1);
      assert ws[k] == Next(specs, f, ws[k - 1], steps[k - 1]);
      AccountedStep(specs, f, |ws[0].history|, ws[k - 1], steps[k - 1]);
    }
  }

  /** No lost update.  In every run of the system, lapsed leases included: a row that differs
      between two serials was replaced by a commit in between whose author writes that group,
      and a run with a committed (or written but unrecorded) serial is the author of exactly
      that version. */
  lemma NoLostUpdate(specs: Specs, f: Float64, ws: seq<World>, steps: seq<Step>, k: nat, m: nat, g: string)
    requires IsRun(specs, f, ws, steps)
    requires |ws[0].history| - 1 <= k <= m < |ws[|ws| - 1].history|
    ensures var h := ws[|ws| - 1].history;
            At(h[k].rows, g) != At(h[m].rows, g) ==>
              exists v :: k < v <= m && h[v].author.Some? && g in specs(h[v].author.value).WriteGroups()
    ensures var w := ws[|ws| - 1];
            forall i: RunId, v :: 0 <= v < |w.history| ==>
              (w.history[v].author == Some(i) <==> Authored(w.Phase(i), v))
  {
    var w := ws[|ws| - 1];
    AccountedHolds(specs, f, ws, steps, |ws| - 1);
    RowSurvives(specs, w.history, |ws[0].history|, k, m, g);
    forall i: RunId, v | 0 <= v < |w.history|
      ensures w.history[v].author == Some(i) <==> Authored(w.Phase(i), v)
    {
      assert w.history[v] == w.history[v] && w.Phase(i) == w.Phase(i);
    }
  }

  lemma {:induction false} RowSurvives(specs: Specs, h: seq<Version>, n: nat, k: nat, m: nat, g: string)
    requires 0 < n && n - 1 <= k <= m < |h|
    requires forall v :: n <= v < |h| ==> ConfinedVersion(specs, h, v)
    ensures At(h[k].rows, g) != At(h[m].rows, g) ==>
              exists v :: k < v <= m && h[v].author.Some? && g in specs(h[v].author.value).WriteGroups()
  {
    if k < m {
      RowSurvives(specs, h, n, k, m - 1, g);
      assert ConfinedVersion(specs, h, m);
    }
  }

  /** Retry accounting.  A run that gave up its commit loop did so after at least eight
      versions landed since it entered the loop, written by eight or more other runs, one
      version each. */
  lemma ExhaustedMeansEightOthers(specs: Specs, f: Float64, ws: seq<World>, steps: seq<Step>, i: RunId)
    requires IsRun(specs, f, ws, steps)
    requires ws[|ws| - 1].Phase(i).Exhausted?
    ensures var h, p := ws[|ws| - 1].history, ws[|ws| - 1].Phase(i);
            && p.entered + 8 <= p.gaveUp < |h|
            && (forall v :: p.entered < v <= p.gaveUp ==> h[v].author.Some? && h[v].author != Some(i))
            && (forall u, v :: p.entered < u < v <= p.gaveUp ==> h[u].author != h[v].author)
  {
    var w := ws[|ws| - 1];
    var h, p := w.history, w.Phase(i);
    AccountedHolds(specs, f, ws, steps, |ws| - 1);
    assert RetriesCharged(h, p);
    forall v | p.entered < v <= p.gaveUp
      ensures h[v].author.Some? && Authored(w.Phase(h[v].author.value), v)
    {
      assert ConfinedVersion(specs, h, v);
      assert h[v] == h[v];
    }
    forall u, v | p.entered < u < v <= p.gaveUp ensures h[u].author != h[v].author {
      assert Authored(w.Phase(h[u].author.value), u) && Authored(w.Phase(h[v].author.value), v);
    }
  }

  /** With fewer than eight versions landed since it entered the loop, the next write of a
      run either lands or goes round the loop again. */
  lemma FewCommitsNeverExhaust(specs: Specs, f: Float64, ws: seq<World>, steps: seq<Step>, i: RunId)
    requires IsRun(specs, f, ws, steps)
    requires ws[|ws| - 1].Phase(i).Fetched?
    requires ws[|ws| - 1].Current() < ws[|ws| - 1].Phase(i).entered + 8
    ensures var w := ws[|ws| - 1];
            var p := (AccountedHolds(specs, f, ws, steps, |ws| - 1); Next(specs, f, w, Commit(i)).Phase(i));
            p.Wrote? || p.Committing?
  {
    AccountedHolds(specs, f, ws, steps, |ws| - 1);
    assert RetriesCharged(ws[|ws| - 1].history, ws[|ws| - 1].Phase(i));
  }

  lemma FailedIsFinal(specs: Specs, f: Float64, w: World, s: Step, i: RunId)
    requires w.history != [] && Enabled(specs, w, s) && w.Phase(i).Failed?
    ensures Next(specs, f, w, s).Phase(i).Failed?
  {
    if s.Tick? || s.i != i {
      StepFrame(specs, f, w, s);
    }
  }

  lemma FailedAt(specs: Specs, f: Float64, ws: seq<World>, steps: seq<Step>, i: RunId, k: nat)
    requires IsRun(specs, f, ws, steps) && k < |steps| && ws[k].Phase(i) == Failed
    ensures ws[k + 1].Phase(i) == Failed
  {
    StepOf(specs, f, ws, steps, k);
    FailedIsFinal(specs, f, ws[k], steps[k], i);
  }

  lemma {:induction false} FailedStays(specs: Specs, f: Float64, ws: seq<World>, steps: seq<Step>, i: RunId,
                                       k: nat, m: nat)
    requires IsRun(specs, f, ws, steps) && k <= m < |ws| && ws[k].Phase(i) == Failed
    ensures ws[m].Phase(i) == Failed
  {
    if k < m {
      FailedStays(specs, f, ws, steps, i, k, m - 1);
      FailedAt(specs, f, ws, steps, i, m - 1);
    }
  }

  /** A run that sees its abort before the commit loop, or whose Terraform left rows outside the
      footprint, is the author of no version, ever. */
  lemma StoppedRunsNeverCommit(specs: Specs, f: Float64, ws: seq<World>, steps: seq<Step>, i: RunId, k: nat, v: nat)
    requires IsRun(specs, f, ws, steps) && k < |steps| && steps[k].EnterCommit? && steps[k].i == i
    requires (steps[k].statusRead && i in ws[k].aborted)
             || exists g :: g in ws[k].Phase(i).post && g !in specs(i).footprint
    requires v < |ws[|ws| - 1].history|
    ensures ws[|ws| - 1].Phase(i).Failed? && ws[|ws| - 1].history[v].author != Some(i)
  {
    StepOf(specs, f, ws, steps, k);
    FailedStays(specs, f, ws, steps, i, k + 1, |ws| - 1);
    AccountedHolds(specs, f, ws, steps, |ws| - 1);
    assert ws[|ws| - 1].history[v].author.Some? ==>
      Authored(ws[|ws| - 1].Phase(ws[|ws| - 1].history[v].author.value), v);
  }
}
