/** From the heartbeat to the hypothesis of the protocol's theorems: how quick the commit loop
    must be for every write to land under live leases. */
module LeaseTiming {
  import opened Json
  import opened TrunkState
  import opened ApplyProtocol
  import opened Serializability
  import Heartbeat

  /** Step `p` gives run `i` a full lease. */
  predicate GivesLease(s: Step, i: RunId) {
    s == Acquire(i) || s == Renew(i)
  }

  /** No step from `p` up to `k` takes the lease of run `i` away. */
  ghost predicate KeepsLease(steps: seq<Step>, i: RunId, p: nat, k: nat) {
    forall q :: p <= q < k && q < |steps| ==> steps[q] != Release(i) && steps[q] != Abort(i)
  }

  /** The landing write at step `k` is covered: the commit loop was entered at most one
      heartbeat interval after the last full lease was given, the write comes within what is
      then left of the lease, and the run is neither aborted nor released in between. */
  ghost predicate Covered(specs: Specs, ws: seq<World>, steps: seq<Step>, i: RunId, p: nat, m: nat, k: nat)
    requires |ws| == |steps| + 1 && k < |steps|
  {
    var lease, interval := specs(i).lease, Heartbeat.Interval(specs(i).lease);
    && p < m < k
    && GivesLease(steps[p], i) && steps[m].EnterCommit? && steps[m].i == i
    && KeepsLease(steps, i, p + 1, k)
    && ws[m].now <= ws[p].now + interval
    && ws[k].now < ws[m].now + lease - interval
  }

  /** Every landing write is covered. */
  ghost predicate PromptCommits(specs: Specs, ws: seq<World>, steps: seq<Step>)
    requires |ws| == |steps| + 1
  {
    forall k {:trigger steps[k]} :: 0 <= k < |steps| && steps[k].Commit? && Lands(ws[k], steps[k].i) ==>
      exists p, m :: Covered(specs, ws, steps, steps[k].i, p, m, k)
  }

  /** The lease given at time `since` is still there. */
  predicate Leased(w: World, i: RunId, since: nat, lease: nat) {
    since <= w.now && i in w.held && w.held[i] >= since + lease
  }

  lemma LeaseGiven(specs: Specs, f: Float64, w: World, s: Step, i: RunId)
    requires w.history != [] && Enabled(specs, w, s) && GivesLease(s, i)
    ensures Leased(Next(specs, f, w, s), i, w.now, specs(i).lease)
  {
  }

  lemma LeaseKept(specs: Specs, f: Float64, w: World, s: Step, i: RunId, since: nat)
    requires w.history != [] && Enabled(specs, w, s) && s != Release(i) && s != Abort(i)
    requires Leased(w, i, since, specs(i).lease)
    ensures Leased(Next(specs, f, w, s), i, since, specs(i).lease)
  {
  }

  lemma GivenAt(specs: Specs, f: Float64, ws: seq<World>, steps: seq<Step>, i: RunId, k: nat)
    requires IsRun(specs, f, ws, steps) && k < |steps| && GivesLease(steps[k], i)
    ensures Leased(ws[k + 1], i, ws[k].now, specs(i).lease)
  {
    StepOf(specs, f, ws, steps, k);
    LeaseGiven(specs, f, ws[k], steps[k], i);
  }

  lemma KeptAt(specs: Specs, f: Float64, ws: seq<World>, steps: seq<Step>, i: RunId, since: nat, k: nat)
    requires IsRun(specs, f, ws, steps) && k < |steps| && steps[k] != Release(i) && steps[k] != Abort(i)
    requires Leased(ws[k], i, since, specs(i).lease)
    ensures Leased(ws[k + 1], i, since, specs(i).lease)
  {
    StepOf(specs, f, ws, steps, k);
    LeaseKept(specs, f, ws[k], steps[k], i, since);
  }

  /** A lease once given lasts: only a release, an abort or the clock ends it. */
  lemma {:induction false} LeaseLasts(specs: Specs, f: Float64, ws: seq<World>, steps: seq<Step>, i: RunId, p: nat,
                                      k: nat)
    requires IsRun(specs, f, ws, steps) && p < k < |ws|
    requires GivesLease(steps[p], i) && KeepsLease(steps, i, p + 1, k)
    ensures Leased(ws[k], i, ws[p].now, specs(i).lease)
  {
    if k == p + 1 {
      GivenAt(specs, f, ws, steps, i, p);
    } else {
      LeaseLasts(specs, f, ws, steps, i, p, k - 1);
      assert steps[k - 1] != Release(i) && steps[k - 1] != Abort(i);
      KeptAt(specs, f, ws, steps, i, ws[p].now, k - 1);
    }
  }

  lemma PromptCommitsAreTimely(specs: Specs, f: Float64, ws: seq<World>, steps: seq<Step>)
    requires IsRun(specs, f, ws, steps) && PromptCommits(specs, ws, steps)
    ensures Timely(ws, steps)
  {
    forall k | 0 <= k < |steps| ensures TimelyStep(ws[k], steps[k]) {
      if steps[k].Commit? && Lands(ws[k], steps[k].i) {
        var p, m :| Covered(specs, ws, steps, steps[k].i, p, m, k);
        LeaseLasts(specs, f, ws, steps, steps[k].i, p, k);
      }
    }
  }

  /** Serializability and plan-to-commit stability, from the timing of the heartbeat alone. */
  lemma PromptCommitsAreSerializable(specs: Specs, f: Float64, ws: seq<World>, steps: seq<Step>)
    requires IsRun(specs, f, ws, steps) && PromptCommits(specs, ws, steps)
    ensures Shielded(specs, SoloResult) && AllWellScoped(specs) ==>
              SerialOutcome(specs, ws[0].history, ws[|ws| - 1].history)
    ensures Shielded(specs, PlanBasis) ==> PlansKept(specs, f, ws[0].history, ws[|ws| - 1].history)
  {
    PromptCommitsAreTimely(specs, f, ws, steps);
    if Shielded(specs, SoloResult) && AllWellScoped(specs) {
      Serializable(specs, f, ws, steps);
    }
    if Shielded(specs, PlanBasis) {
      PlanToCommitStability(specs, f, ws, steps);
    }
  }
}
