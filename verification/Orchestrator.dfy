/** The control flow of `Run` (internal/apply/orchestrator.go) against a store that other runs
    use at the same time.  `Calls` records how every call went; which calls a run makes, what
    it writes and what it returns are determined by it. */
module Orchestrator {
  import opened Ordering
  import opened Json
  import opened TrunkState
  import opened Merge
  import opened Staleness
  import opened ApplyStore
  import opened ReservationWait
  import opened CommitRetry
  import Heartbeat

  // ------------------------------------------------------------------ the calls

  /** The guard: the trunk is read again and, when it has moved on, the version planned on. */
  datatype GuardCalls = GuardCalls(trunk: Fault, base: Option<Fault>)
  {
    function Events(): seq<Event> {
      [TrunkRead(trunk)] + (if base.Some? then [BaseRead(base.value)] else [])
    }

    predicate Clean() { trunk.Fine? && (base.Some? ==> base.value.Fine?) }

    predicate Cancelled() { trunk == Broke(true) || base == Some(Broke(true)) }
  }

  /** Building the slice and the working directory, Terraform under the heartbeat, the stop of
      the heartbeat, the abort check, and reading what Terraform left. */
  datatype Labour = Labour(
    prepared: bool, terraform: Option<Fault>, beats: seq<Heartbeat.Beat>, heartbeat: Option<Heartbeat.Verdict>,
    aborted: Option<bool>, post: Option<bool>)
  {
    function Events(): seq<Event> {
      [Event.Prepared(prepared)] + (if terraform.Some? then [TerraformRan(terraform.value)] else [])
      + (if heartbeat.Some? then [HeartbeatStopped(heartbeat.value)] else [])
      + (if aborted.Some? then [StatusRead(aborted.value)] else [])
      + (if post.Some? then [PostRead(post.value)] else [])
    }

    /** Each step is taken exactly when the one before went well. */
    predicate InOrder(wanted: nat) {
      && (terraform.Some? <==> prepared)
      && (heartbeat.Some? <==> terraform == Some(Fine))
      && (heartbeat.Some? ==>
            (heartbeat.value.Stopped? <==>
              wanted == 0 || forall k :: 0 <= k < |beats| ==> Heartbeat.Good(beats[k], wanted)))
      && (aborted.Some? <==> heartbeat == Some(Heartbeat.Stopped))
      && (post.Some? <==> aborted == Some(false))
    }

    predicate Clean() { post == Some(true) }

    predicate Cancelled() { terraform == Some(Broke(true)) || heartbeat == Some(Heartbeat.RenewFailed(true)) }
  }

  datatype Commit = Commit(rounds: seq<Round>, lookup: Option<Fault>)
  {
    function Events(): seq<Event> {
      RoundEvents(rounds) + (if lookup.Some? then [VersionLookedUp(lookup.value)] else [])
    }

    predicate InOrder(plan: Plan, work: Work) {
      && RoundsDone(plan, work, rounds)
      && (lookup.Some? <==> rounds[|rounds| - 1].Lands())
    }

    predicate Cancelled() {
      (rounds != [] && rounds[|rounds| - 1].Cancelled()) || lookup == Some(Broke(true))
    }
  }

  function CommitEvents(commit: Option<Commit>): seq<Event> {
    if commit.Some? then commit.value.Events() else []
  }

  lemma WaitEventsOnly(w: Waiting)
    ensures Calls(w, None, None, None).Events() == w.Events()
  {
  }

  lemma GuardEventsOnly(log: seq<Event>, w: Waiting, g: GuardCalls)
    ensures log + Calls(w, Some(g), None, None).Events() == log + w.Events() + g.Events()
  {
  }

  lemma PhaseEvents(log: seq<Event>, w: Waiting, g: GuardCalls, l: Labour, commit: Option<Commit>)
    ensures log + Calls(w, Some(g), Some(l), commit).Events() ==
            log + w.Events() + g.Events() + l.Events() + CommitEvents(commit)
  {
  }

  /** The calls of one `runInner`. */
  datatype Calls = Calls(wait: Waiting, guard: Option<GuardCalls>, labour: Option<Labour>, commit: Option<Commit>)
  {
    /** The calls up to the commit loop. */
    function Prelude(): seq<Event> {
      wait.Events()
      + (if guard.Some? then guard.value.Events() else [])
      + (if labour.Some? then labour.value.Events() else [])
    }

    function Events(): seq<Event> {
      Prelude() + CommitEvents(commit)
    }

    /** The landed write, whatever came after it. */
    predicate Landed(serial: int) {
      commit.Some? && Landing(commit.value.rounds, Some(serial))
    }

    predicate NothingLanded() {
      commit.Some? ==> Landing(commit.value.rounds, None)
    }

    predicate Committed() {
      commit.Some? && commit.value.lookup == Some(Fine)
    }

    /** Some call that ended the run carried a cancellation. */
    predicate Cancelled() {
      || wait.Cancelled()
      || (guard.Some? && guard.value.Cancelled())
      || (labour.Some? && labour.value.Cancelled())
      || (commit.Some? && commit.value.Cancelled())
    }
  }

  /** What a run went by: the version its guard saw, the slice it cut there, and what
      Terraform left. */
  datatype Evidence = Evidence(at: nat, slice: Option<State>, work: Work)

  /** What a commit stands on: the versions it was put on, how many there were when the trunk
      was read for it, and the addresses it reports as applied. */
  datatype Footing = Footing(seen: seq<Version>, read: nat, applied: seq<string>)

  // ------------------------------------------------------------- the reference

  predicate NeedsBase(plan: Plan, current: State) {
    plan.sourceSerial.Some? && 0 < plan.sourceSerial.value < current.serial
  }

  /** Version `k` has the plan's source serial, and no read group differs between it and
      version `at`. */
  ghost predicate SourceUnchanged(plan: Plan, h: seq<Version>, k: nat, at: nat, f: Float64)
    requires k < |h| && at < |h| && plan.sourceSerial.Some?
  {
    && h[k].state.serial == plan.sourceSerial.value
    && Unchanged(Index(h[k].state.resources), Index(h[at].state.resources), Groups(plan.readSet), f)
  }

  /** Some version up to `at` is the one planned on, and the read set has not changed since. */
  ghost predicate PlanStands(plan: Plan, h: seq<Version>, at: nat, f: Float64)
    requires at < |h| && plan.sourceSerial.Some?
  {
    exists k: nat :: k <= at && SourceUnchanged(plan, h, k, at, f)
  }

  /** The guard of orchestrator.go:202-221 holds at version `at`. */
  ghost predicate GuardHolds(plan: Plan, h: seq<Version>, at: nat, f: Float64) {
    at < |h| &&
    (plan.sourceSerial.Some? && plan.sourceSerial.value > 0 ==>
      || plan.sourceSerial.value == h[at].state.serial
      || (plan.sourceSerial.value < h[at].state.serial
          && PlanStands(plan, h, at, f)))
  }

  lemma GuardLater(plan: Plan, h: seq<Version>, h': seq<Version>, at: nat, f: Float64)
    requires h <= h' && at < |h|
    ensures GuardHolds(plan, h, at, f) <==> GuardHolds(plan, h', at, f)
  {
    if k: nat :| plan.sourceSerial.Some? && k <= at && SourceUnchanged(plan, h, k, at, f) {
      assert SourceUnchanged(plan, h', k, at, f);
    }
    if k: nat :| plan.sourceSerial.Some? && k <= at && SourceUnchanged(plan, h', k, at, f) {
      assert SourceUnchanged(plan, h, k, at, f);
    }
  }

  /** The guard phase, seen from history `h`, when it began with `start` versions: it reads the
      version planned on exactly when the trunk has moved on, and yields a slice of the version
      it saw exactly when both reads went well and the guard holds. */
  ghost predicate Guarded(plan: Plan, start: nat, h: seq<Version>, g: GuardCalls, at: nat, slice: Option<State>,
                          f: Float64) {
    && (g.trunk.Fine? ==> start - 1 <= at < |h|)
    && (g.base.Some? <==> g.trunk.Fine? && NeedsBase(plan, h[at].state))
    && (slice.Some? <==> g.Clean() && GuardHolds(plan, h, at, f))
    && (slice.Some? ==>
          slice.value == h[at].state.(resources := Keep(h[at].state.resources, plan.footprint)))
  }

  lemma GuardedLater(plan: Plan, start: nat, h: seq<Version>, h': seq<Version>, g: GuardCalls, at: nat,
                     slice: Option<State>, f: Float64)
    requires Guarded(plan, start, h, g, at, slice, f) && h <= h'
    ensures Guarded(plan, start, h', g, at, slice, f)
  {
    if g.trunk.Fine? {
      GuardLater(plan, h, h', at, f);
    }
  }

  /** Which calls a run makes: each phase begins exactly when the one before went well. */
  ghost predicate Follows(plan: Plan, start: nat, h: seq<Version>, c: Calls, ev: Evidence, f: Float64) {
    && (c.guard.Some? <==> c.wait.Holding())
    && (c.guard.Some? ==> Guarded(plan, start, h, c.guard.value, ev.at, ev.slice, f))
    && (c.labour.Some? <==> c.guard.Some? && ev.slice.Some?)
    && (c.labour.Some? ==> c.labour.value.InOrder(plan.wanted))
    && (c.commit.Some? <==> c.labour.Some? && c.labour.value.Clean() && !HasSurprise(ev.work.post, plan.footprint))
    && (c.commit.Some? ==> c.commit.value.InOrder(plan, ev.work))
  }

  /** What a run did to the trunk: nothing, or one commit on top of others'.  Every lost race
      is paid for by another run's commit since the guard. */
  ghost predicate Effect(before: seq<Version>, on: Footing, after: seq<Version>, plan: Plan, c: Calls, ev: Evidence) {
    && OthersOnly(before, on.seen)
    && (c.commit.Some? ==> ev.at + 1 <= on.read && PaidFor(c.commit.value.rounds, |on.seen| - (ev.at + 1)))
    && (forall s :: c.Landed(s) ==> CommitsOn(on.seen, after, plan, ev.work, on.read, s, on.applied))
    && (c.NothingLanded() ==> after == on.seen)
  }

  // ------------------------------------------------------------------ runInner

  /** `runInner` succeeds with a serial and the applied addresses, or fails; the error may
      carry a cancellation. */
  datatype InnerResult = Done(serial: int, applied: seq<string>) | Error(cancelled: bool)

  /** The return value belongs to the calls. */
  predicate Returns(c: Calls, r: InnerResult) {
    && (r.Done? <==> c.Committed())
    && (r.Done? ==> c.Landed(r.serial))
    && (r.Error? ==> r.cancelled == c.Cancelled())
  }

  /** Everything one `runInner` promises. */
  ghost predicate InnerRun(before: seq<Version>, on: Footing, after: seq<Version>,
                                plan: Plan, c: Calls, ev: Evidence, r: InnerResult, f: Float64) {
    && Follows(plan, |before|, on.seen, c, ev, f)
    && Effect(before, on, after, plan, c, ev)
    && Returns(c, r)
    && (r.Done? ==> r.applied == on.applied)
  }

  /** orchestrator.go:202-221: the plan against the trunk just read. */
  method CheckGuard(st: Store, plan: Plan, current: State, f: Float64) returns (base: Option<Fault>, ok: bool)
    requires st.Valid() && current == st.history[|st.history| - 1].state
    modifies st`log
    ensures st.log == old(st.log) + (if base.Some? then [BaseRead(base.value)] else [])
    ensures base.Some? <==> NeedsBase(plan, current)
    ensures ok <==> (base.Some? ==> base.value.Fine?) && GuardHolds(plan, st.history, |st.history| - 1, f)
  {
    if plan.sourceSerial.None? || plan.sourceSerial.value <= 0 { return None, true; }
    var source := plan.sourceSerial.value;
    if current.serial < source { return None, false; }
    if current.serial == source { return None, true; }
    base, ok := ReadSetHolds(st, plan, current, f);
  }

  /** orchestrator.go:207-219: the trunk has moved on since the plan. */
  method ReadSetHolds(st: Store, plan: Plan, current: State, f: Float64) returns (base: Option<Fault>, ok: bool)
    requires st.Valid() && current == st.history[|st.history| - 1].state && NeedsBase(plan, current)
    modifies st`log
    ensures base.Some? && st.log == old(st.log) + [BaseRead(base.value)]
    ensures ok <==> base.value.Fine? && GuardHolds(plan, st.history, |st.history| - 1, f)
  {
    var planned, k := st.StateAt(plan.sourceSerial.value);
    base, ok := Some(planned.Outcome()), false;
    if planned.Got? {
      ok := ReadSetUnchanged(planned.state, current, plan, st.history, k, f);
    }
  }

  /** Serials being contiguous, only one version can be the one planned on. */
  lemma OnlySource(plan: Plan, h: seq<Version>, k: nat, f: Float64)
    requires Contiguous(h) && k < |h| && NeedsBase(plan, h[|h| - 1].state)
    requires h[k].state.serial == plan.sourceSerial.value
    ensures GuardHolds(plan, h, |h| - 1, f) <==>
            Unchanged(Index(h[k].state.resources), Index(h[|h| - 1].state.resources), Groups(plan.readSet), f)
  {
    if Unchanged(Index(h[k].state.resources), Index(h[|h| - 1].state.resources), Groups(plan.readSet), f) {
      assert SourceUnchanged(plan, h, k, |h| - 1, f);
    }
  }

  /** When the plan stands at version `at`, on the documents: it names no source serial, or that
      of version `at`, or that of an earlier version `k` with which version `at` agrees at the
      group of every address of the read set. */
  lemma GuardOnDocuments(plan: Plan, h: seq<Version>, k: nat, at: nat, f: Float64)
    requires Contiguous(h) && k <= at < |h|
    ensures plan.sourceSerial.None? || plan.sourceSerial.value <= 0 ==> GuardHolds(plan, h, at, f)
    ensures plan.sourceSerial.Some? && 0 < plan.sourceSerial.value
            && (plan.sourceSerial.value < h[0].state.serial || plan.sourceSerial.value > h[at].state.serial) ==>
              !GuardHolds(plan, h, at, f)
    ensures plan.sourceSerial == Some(h[k].state.serial) && h[k].state.serial > 0 ==>
              (GuardHolds(plan, h, at, f) <==>
                k == at || forall w :: w in plan.readSet ==> SameAt(h[k].state, h[at].state, StripIndex(w), f))
  {
    assert forall i :: 0 <= i < |h| ==> h[i].state.serial == h[0].state.serial + i;
    UnchangedOnDocuments(h[k].state, h[at].state, plan.readSet, f);
    if plan.sourceSerial == Some(h[k].state.serial) {
      assert SourceUnchanged(plan, h, k, at, f) <==>
             Unchanged(Index(h[k].state.resources), Index(h[at].state.resources), Groups(plan.readSet), f);
      assert forall i: nat :: i <= at && SourceUnchanged(plan, h, i, at, f) ==> i == k;
    }
  }

  method ReadSetUnchanged(base: State, current: State, plan: Plan, ghost h: seq<Version>, ghost k: nat, f: Float64)
    returns (ok: bool)
    requires Contiguous(h) && k < |h| && base == h[k].state && current == h[|h| - 1].state
    requires NeedsBase(plan, current) && base.serial == plan.sourceSerial.value
    ensures ok <==> GuardHolds(plan, h, |h| - 1, f)
  {
    var changed := ChangedReadSetAddresses(Some(base), Some(current), plan.readSet, f);
    ok := changed.addrs == [];
    assert plan.readSet == [] ==> Groups(plan.readSet) == {};
    OnlySource(plan, h, k, f);
  }

  /** Steps 4 and 5: re-read the trunk under the reservations, check the plan against it, cut
      the slice. */
  method GuardAndSlice(st: Store, plan: Plan, f: Float64) returns (g: GuardCalls, at: nat, slice: Option<State>)
    requires st.Valid()
    modifies st
    ensures st.Valid() && st.now >= old(st.now) && OthersOnly(old(st.history), st.history)
    ensures st.log == old(st.log) + g.Events()
    ensures Guarded(plan, |old(st.history)|, st.history, g, at, slice, f)
  {
    var current := st.CurrentState();
    if current.Failed? { return GuardCalls(current.Outcome(), None), 0, None; }
    at := |st.history| - 1;
    var base, ok := CheckGuard(st, plan, current.state, f);
    g := GuardCalls(Fine, base);
    if !ok { return g, at, None; }
    var cut := Build(current.state, plan.footprint);
    slice := Some(cut);
  }

  /** Step 6 to 8: run Terraform, stop the heartbeat, look for an operator's abort (a failed
      status read says nothing), read the document Terraform left. */
  method RunTerraform(st: Store, plan: Plan, slice: State) returns (l: Labour, work: Work)
    requires st.Valid()
    modifies st
    ensures st.Valid() && st.now >= old(st.now) && OthersOnly(old(st.history), st.history)
    ensures st.log == old(st.log) + l.Events() && l.InOrder(plan.wanted)
  {
    st.Interfere();
    var terraform: Fault := *;
    var left: Work := *;
    var beats: seq<Heartbeat.Beat> := *;
    work := left;
    var prepared: bool := *;
    st.Record(Event.Prepared(prepared));
    if !prepared { return Labour(false, None, beats, None, None, None), work; }
    st.Record(TerraformRan(terraform));
    if terraform.Broke? { return Labour(true, Some(terraform), beats, None, None, None), work; }
    var verdict, served := Heartbeat.RenewReservationLeases(beats, plan.wanted);
    st.Record(HeartbeatStopped(verdict));
    if !verdict.Stopped? { return Labour(true, Some(Fine), beats, Some(verdict), None, None), work; }
    var abortSeen: bool := *;
    st.Record(StatusRead(abortSeen));
    if abortSeen { return Labour(true, Some(Fine), beats, Some(verdict), Some(true), None), work; }
    var readable: bool := *;
    st.Record(PostRead(readable));
    l := Labour(true, Some(Fine), beats, Some(verdict), Some(false), Some(readable));
  }

  /** Steps 9 to 12: a version may land and the run still fail, when the lookup of the new
      version does. */
  method CommitAndLookUp(st: Store, plan: Plan, work: Work) returns (r: InnerResult, ghost c: Commit, ghost on: Footing)
    requires st.Valid() && !HasSurprise(work.post, plan.footprint)
    modifies st
    ensures st.Valid() && st.now >= old(st.now)
    ensures st.log == old(st.log) + c.Events()
    ensures Commits(old(st.history), on, st.history, plan, work, c, r)
  {
    var commit, cancelled, applied;
    ghost var rounds, read, seen;
    commit, cancelled, applied, rounds, read, seen := CommitLoop(st, plan, work);
    on := Footing(seen, read, applied);
    if commit.None? {
      return Error(cancelled), Commit(rounds, None), on;
    }
    var found: Fault := *;
    st.Record(VersionLookedUp(found));
    c := Commit(rounds, Some(found));
    r := match found case Fine => Done(commit.value, applied) case Broke(e) => Error(e);
  }

  /** `runInner`: acquire, guard, slice, Terraform under the heartbeat, abort and surprise
      checks, commit loop, version lookup.  Terraform is any outcome. */
  method RunInner(st: Store, plan: Plan, f: Float64)
    returns (r: InnerResult, ghost c: Calls, ghost ev: Evidence, ghost on: Footing)
    requires st.Valid()
    modifies st
    ensures st.Valid() && st.now >= old(st.now) && st.log == old(st.log) + c.Events()
    ensures WaitDone(plan.waitBudget, st.now - old(st.now), c.wait)
    ensures InnerRun(old(st.history), on, st.history, plan, c, ev, r, f)
  {
    ghost var log := st.log;
    var wait;
    ghost var w;
    wait, w := AcquireWithWait(st, plan.waitBudget);
    ghost var acquired, waited := st.history, st.now - old(st.now);
    if wait.Granted? {
      r, c, ev, on := RunHolding(st, plan, f, w, old(st.history), log);
      WaitedBefore(plan.waitBudget, waited, st.now - old(st.now), w);
    } else {
      r, c := Error(WasCancelled(wait)), Calls(w, None, None, None);
      ev, on := Nothing(acquired), Footing(acquired, 0, []);
      RefusedRun(old(st.history), acquired, plan, wait, w, f);
      WaitEventsOnly(w);
    }
  }

  ghost function Nothing(h: seq<Version>): Evidence
    requires h != []
  {
    Evidence(0, None, Work(h[0].state, Intent([], [])))
  }

  lemma RefusedRun(before: seq<Version>, h: seq<Version>, plan: Plan, wait: WaitResult, w: Waiting, f: Float64)
    requires OthersOnly(before, h) && h != [] && !wait.Granted? && Reports(wait, w)
    ensures var c := Calls(w, None, None, None);
            InnerRun(before, Footing(h, 0, []), h, plan, c, Nothing(h), Error(WasCancelled(wait)), f)
  {
  }

  predicate WasCancelled(wait: WaitResult)
    requires !wait.Granted?
  {
    match wait case WaitCancelled => true case Refused(a) => a.Cancelled()
  }

  lemma WaitedBefore(budget: int, elapsed: int, later: int, w: Waiting)
    requires WaitDone(budget, elapsed, w) && elapsed <= later
    ensures WaitDone(budget, later, w)
  {
  }

  /** `runInner` once the reservations are held. */
  method RunHolding(st: Store, plan: Plan, f: Float64,
                    ghost w: Waiting, ghost before: seq<Version>, ghost log: seq<Event>)
    returns (r: InnerResult, ghost c: Calls, ghost ev: Evidence, ghost on: Footing)
    requires st.Valid() && w.Holding() && OthersOnly(before, st.history) && st.log == log + w.Events()
    modifies st
    ensures st.Valid() && st.now >= old(st.now) && c.wait == w
    ensures st.log == log + c.Events()
    ensures InnerRun(before, on, st.history, plan, c, ev, r, f)
  {
    var guard, at, slice := GuardAndSlice(st, plan, f);
    ghost var h := st.history;
    OthersChain(before, old(st.history), h);
    if slice.None? {
      GuardEventsOnly(log, w, guard);
      c, ev := Calls(w, Some(guard), None, None), Nothing(h).(at := at);
      return Error(guard.Cancelled()), c, ev, Footing(h, 0, []);
    }
    ghost var labour, commit, work;
    r, labour, work, commit, on := RunGuarded(st, plan, slice.value);
    PhaseEvents(log, w, guard, labour, commit);
    c, ev := Calls(w, Some(guard), Some(labour), commit), Evidence(at, slice, work);
    WorkedRun(before, h, on, st.history, plan, w, guard, ev, labour, commit, r, f);
  }

  /** What the run does once the guard has passed. */
  ghost predicate Worked(h: seq<Version>, on: Footing, after: seq<Version>, plan: Plan,
                         l: Labour, work: Work, commit: Option<Commit>, r: InnerResult) {
    && OthersOnly(h, on.seen) && l.InOrder(plan.wanted)
    && (commit.Some? <==> l.Clean() && !HasSurprise(work.post, plan.footprint))
    && (commit.Some? ==> Commits(h, on, after, plan, work, commit.value, r))
    && (commit.None? ==> after == on.seen && r == Error(l.Cancelled()))
  }

  ghost predicate Commits(h: seq<Version>, on: Footing, after: seq<Version>, plan: Plan,
                          work: Work, c: Commit, r: InnerResult) {
    && OthersOnly(h, on.seen) && |h| <= on.read
    && c.InOrder(plan, work) && PaidFor(c.rounds, |on.seen| - |h|)
    && (Landing(c.rounds, None) ==> after == on.seen)
    && (forall s :: Landing(c.rounds, Some(s)) ==> CommitsOn(on.seen, after, plan, work, on.read, s, on.applied))
    && match r
       case Done(s, a) => c.lookup == Some(Fine) && Landing(c.rounds, Some(s)) && a == on.applied
       case Error(e) => c.lookup != Some(Fine) && e == c.Cancelled()
  }

  /** The loop began a little later than the guard passed. */
  lemma CommitsSince(h: seq<Version>, later: seq<Version>, on: Footing, after: seq<Version>, plan: Plan,
                     work: Work, c: Commit, r: InnerResult)
    requires OthersOnly(h, later) && Commits(later, on, after, plan, work, c, r)
    ensures Commits(h, on, after, plan, work, c, r)
  {
    OthersChain(h, later, on.seen);
  }

  lemma WorkedRun(before: seq<Version>, h: seq<Version>, on: Footing, after: seq<Version>, plan: Plan,
                  w: Waiting, guard: GuardCalls, ev: Evidence, l: Labour, commit: Option<Commit>, r: InnerResult,
                  f: Float64)
    requires OthersOnly(before, h) && w.Holding() && ev.slice.Some?
    requires Guarded(plan, |before|, h, guard, ev.at, ev.slice, f)
    requires Worked(h, on, after, plan, l, ev.work, commit, r)
    ensures InnerRun(before, on, after, plan, Calls(w, Some(guard), Some(l), commit), ev, r, f)
  {
    OthersChain(before, h, on.seen);
    GuardedLater(plan, |before|, h, on.seen, guard, ev.at, ev.slice, f);
  }

  /** Steps 6 to 12. */
  method RunGuarded(st: Store, plan: Plan, slice: State)
    returns (r: InnerResult, ghost l: Labour, ghost work: Work, ghost commit: Option<Commit>, ghost on: Footing)
    requires st.Valid()
    modifies st
    ensures st.Valid() && st.now >= old(st.now)
    ensures st.log == old(st.log) + l.Events() + CommitEvents(commit)
    ensures Worked(old(st.history), on, st.history, plan, l, work, commit, r)
  {
    var labour, left := RunTerraform(st, plan, slice);
    l, work, commit, on := labour, left, None, Footing(st.history, 0, []);
    if !labour.Clean() {
      r := Error(labour.Cancelled());
      return;
    }
    var bad := ValidatePostApplyHasNoSurprises(Some(left.post), plan.footprint);
    if bad != [] {
      r := Error(false);
      return;
    }
    ghost var c;
    ghost var h := st.history;
    r, c, on := CommitAndLookUp(st, plan, left);
    CommitsSince(old(st.history), h, on, st.history, plan, left, c, r);
    commit := Some(c);
  }

  // ----------------------------------------------------------------------- Run

  /** `finalizeApplyRun`. */
  function FinalStatus(r: InnerResult): RunStatus {
    match r
    case Done(_, _) => RunCommitted
    case Error(cancelled) => if cancelled then RunAborted else RunFailed
  }

  function FinishEvent(r: InnerResult): Event {
    match r
    case Done(serial, applied) => Finished(RunCommitted, Some(serial), |applied|)
    case Error(_) => Finished(FinalStatus(r), None, 0)
  }

  /** How far `Run` came; an error may carry a cancellation. */
  datatype RunResult =
    | TrunkUnread(cancelled: bool)
    | NotBegun(cancelled: bool)
    | LockFailed(cancelled: bool)
    | Ran(inner: InnerResult)

  /** The calls of a begun run, in order: the coarse lock if one is used, the calls of
      `runInner`, the finish, the release of the reservations, the release of the lock. */
  function Trace(useLock: bool, c: Calls, r: InnerResult): seq<Event> {
    (if useLock then [LockTried(Fine)] else [])
    + c.Events()
    + [FinishEvent(r), Released]
    + (if useLock then [LockReleased] else [])
  }

  /** The calls behind the creation of the run row. */
  function BegunTrace(useLock: bool, c: Calls, r: RunResult): seq<Event> {
    match r
    case LockFailed(e) => [LockTried(Broke(e)), FinishEvent(Error(e))]
    case Ran(inner) => Trace(useLock, c, inner)
    case _ => []
  }

  /** The calls up to there. */
  function BeginTrace(failed: Option<RunResult>): seq<Event> {
    match failed
    case Some(TrunkUnread(e)) => [TrunkRead(Broke(e))]
    case Some(NotBegun(e)) => [TrunkRead(Fine), BeginTried(Broke(e))]
    case _ => [TrunkRead(Fine), BeginTried(Fine)]
  }

  function RunTrace(useLock: bool, c: Calls, r: RunResult): seq<Event> {
    BeginTrace(Some(r)) + BegunTrace(useLock, c, r)
  }

  lemma Appended(log: seq<Event>, a: seq<Event>, b: seq<Event>, c: seq<Event>, d: seq<Event>)
    ensures log + (a + b + c + d) == log + a + b + c + d
  {
  }

  lemma LockedTrace(log: seq<Event>, c: Calls, r: InnerResult)
    ensures log + BegunTrace(true, c, Ran(r)) ==
            log + [LockTried(Fine)] + c.Events() + [FinishEvent(r), Released] + [LockReleased]
  {
    Appended(log, [LockTried(Fine)], c.Events(), [FinishEvent(r), Released], [LockReleased]);
  }

  lemma UnlockedTrace(log: seq<Event>, c: Calls, r: InnerResult)
    ensures log + BegunTrace(false, c, Ran(r)) == log + c.Events() + [FinishEvent(r), Released]
  {
    Appended(log, [], c.Events(), [FinishEvent(r), Released], []);
  }

  lemma BegunRunTrace(log: seq<Event>, useLock: bool, c: Calls, r: RunResult)
    requires !r.TrunkUnread? && !r.NotBegun?
    ensures log + RunTrace(useLock, c, r) == log + BeginTrace(None) + BegunTrace(useLock, c, r)
  {
    Appended(log, BeginTrace(None), BegunTrace(useLock, c, r), [], []);
  }

  lemma UnbegunRunTrace(useLock: bool, c: Calls, r: RunResult)
    requires r.TrunkUnread? || r.NotBegun?
    ensures RunTrace(useLock, c, r) == BeginTrace(Some(r))
  {
  }

  /** Events of the calls of `runInner`. */
  predicate Inner(e: Event) {
    !e.Finished? && !e.Released? && !e.LockReleased? && !e.LockTried?
  }

  predicate AllInner(e: seq<Event>) {
    forall k :: 0 <= k < |e| ==> Inner(e[k])
  }

  lemma {:induction false} RoundsAreInner(rounds: seq<Round>)
    ensures AllInner(RoundEvents(rounds))
  {
    if rounds != [] {
      RoundsAreInner(rounds[..|rounds| - 1]);
    }
  }

  lemma InnerTogether(a: seq<Event>, b: seq<Event>)
    requires AllInner(a) && AllInner(b)
    ensures AllInner(a + b)
  {
  }

  lemma PhasesAreInner(c: Calls)
    ensures AllInner(c.wait.Events())
    ensures c.guard.Some? ==> AllInner(c.guard.value.Events())
    ensures c.labour.Some? ==> AllInner(c.labour.value.Events())
  {
  }

  lemma CommitIsInner(commit: Option<Commit>)
    ensures AllInner(CommitEvents(commit))
  {
    if commit.Some? {
      RoundsAreInner(commit.value.rounds);
    }
  }

  lemma CallsAreInner(c: Calls)
    ensures AllInner(c.Events())
  {
    PhasesAreInner(c);
    CommitIsInner(c.commit);
    var w := c.wait.Events();
    var g: seq<Event> := if c.guard.Some? then c.guard.value.Events() else [];
    var l: seq<Event> := if c.labour.Some? then c.labour.value.Events() else [];
    InnerTogether(w, g);
    InnerTogether(w + g, l);
    InnerTogether(w + g + l, CommitEvents(c.commit));
  }

  lemma ClosesBehind(front: seq<Event>, last: Event, rest: seq<Event>)
    requires forall k :: 0 <= k < |front| ==> !front[k].Finished? && !front[k].Released? && !front[k].LockReleased?
    ensures ClosesWith(front + ([last] + rest), last, rest)
  {
  }

  lemma RunCloses(useLock: bool, c: Calls, r: RunResult)
    ensures ClosesOnce(RunTrace(useLock, c, r), useLock, r)
  {
    if r.Ran? {
      RanCloses(useLock, c, r.inner);
    }
  }

  lemma RanCloses(useLock: bool, c: Calls, r: InnerResult)
    ensures ClosesOnce(RunTrace(useLock, c, Ran(r)), useLock, Ran(r))
  {
    CallsAreInner(c);
    var opening := [TrunkRead(Fine), BeginTried(Fine)] + (if useLock then [LockTried(Fine)] else []);
    var rest := if useLock then [Released, LockReleased] else [Released];
    var front := opening + c.Events();
    RanTrace(useLock, c, r, front, rest);
    ClosesBehind(front, FinishEvent(r), rest);
    assert LockTried(Fine) in opening <==> useLock by {
      assert useLock ==> opening[2] == LockTried(Fine);
    }
    assert LockTried(Fine) !in [FinishEvent(r)] + rest;
  }

  lemma RanTrace(useLock: bool, c: Calls, r: InnerResult, front: seq<Event>, rest: seq<Event>)
    requires front == [TrunkRead(Fine), BeginTried(Fine)] + (if useLock then [LockTried(Fine)] else []) + c.Events()
    requires rest == if useLock then [Released, LockReleased] else [Released]
    ensures RunTrace(useLock, c, Ran(r)) == front + ([FinishEvent(r)] + rest)
  {
    var lock := if useLock then [LockTried(Fine)] else [];
    var unlock := if useLock then [LockReleased] else [];
    assert [FinishEvent(r), Released] + unlock == [FinishEvent(r)] + rest;
    Appended([TrunkRead(Fine), BeginTried(Fine)], lock, c.Events(), [FinishEvent(r), Released], unlock);
    Appended(front, [FinishEvent(r), Released], unlock, [], []);
  }

  /** The trunk is read once, only to have one, and the run row is created. */
  method BeginRun(st: Store) returns (failed: Option<RunResult>)
    requires st.Valid()
    modifies st
    ensures st.Valid() && OthersOnly(old(st.history), st.history)
    ensures failed.Some? ==> failed.value.TrunkUnread? || failed.value.NotBegun?
    ensures st.log == old(st.log) + BeginTrace(failed)
  {
    var current := st.CurrentState();
    if current.Failed? { return Some(TrunkUnread(current.cancelled)); }
    var begins: Fault := *;
    st.Record(BeginTried(begins));
    failed := if begins.Broke? then Some(NotBegun(begins.cancelled)) else None;
  }

  /** The end of a run, in the trace it adds.  A run whose row was created is finished exactly
      once: as committed, with its serial and the number of addresses applied, if it succeeded;
      otherwise with nothing committed, as aborted if the error carries a cancellation and as
      failed if not.  Then the reservations are released and, if it was taken, the coarse lock,
      and that is all. */
  ghost predicate ClosesOnce(added: seq<Event>, useLock: bool, r: RunResult) {
    && (r.TrunkUnread? || r.NotBegun? ==> forall k :: 0 <= k < |added| ==> !added[k].Finished?)
    && (r.LockFailed? ==> ClosesWith(added, Finished(if r.cancelled then RunAborted else RunFailed, None, 0), []))
    && (r.Ran? && r.inner.Done? ==>
          ClosesWith(added, Finished(RunCommitted, Some(r.inner.serial), |r.inner.applied|),
                     if useLock then [Released, LockReleased] else [Released]))
    && (r.Ran? && r.inner.Error? ==>
          ClosesWith(added, Finished(if r.inner.cancelled then RunAborted else RunFailed, None, 0),
                     if useLock then [Released, LockReleased] else [Released]))
    && (r.Ran? ==> (LockTried(Fine) in added <==> useLock))
  }

  /** The trace ends in `last` and then `rest`; nothing of the kind comes before. */
  ghost predicate ClosesWith(added: seq<Event>, last: Event, rest: seq<Event>) {
    var n := |added| - |rest| - 1;
    && n >= 0 && added[n..] == [last] + rest
    && forall k :: 0 <= k < n ==> !added[k].Finished? && !added[k].Released? && !added[k].LockReleased?
  }

  /** `Run`: the whole call trace.  Once begun, a run finishes exactly once, after all its
      writes; it releases its reservations after the finish; the coarse lock is released, last,
      if and only if it was taken. */
  method Run(st: Store, plan: Plan, f: Float64)
    returns (r: RunResult, ghost c: Calls, ghost ev: Evidence, ghost on: Footing, ghost before: seq<Version>)
    requires st.Valid()
    modifies st
    ensures st.Valid() && OthersOnly(old(st.history), before)
    ensures st.log == old(st.log) + RunTrace(plan.useLock, c, r)
    ensures ClosesOnce(st.log[|old(st.log)|..], plan.useLock, r)
    ensures r.LockFailed? ==> plan.useLock
    ensures if r.Ran? then InnerRun(before, on, st.history, plan, c, ev, r.inner, f) else st.history == before
  {
    var failed := BeginRun(st);
    before := st.history;
    if failed.Some? {
      c, ev, on := Calls(Waiting([], []), None, None, None), Nothing(before), Footing(before, 0, []);
      r := failed.value;
      UnbegunRunTrace(plan.useLock, c, r);
      RunCloses(plan.useLock, c, r);
      return;
    }
    r, c, ev, on := RunBegun(st, plan, f);
    BegunRunTrace(old(st.log), plan.useLock, c, r);
    RunCloses(plan.useLock, c, r);
  }

  /** The run once its row exists, under the Terraform-visible coarse lock if one is asked for. */
  method RunBegun(st: Store, plan: Plan, f: Float64)
    returns (r: RunResult, ghost c: Calls, ghost ev: Evidence, ghost on: Footing)
    requires st.Valid()
    modifies st
    ensures st.Valid() && (r.Ran? || (r.LockFailed? && plan.useLock))
    ensures st.log == old(st.log) + BegunTrace(plan.useLock, c, r)
    ensures if r.Ran? then InnerRun(old(st.history), on, st.history, plan, c, ev, r.inner, f)
            else st.history == old(st.history)
  {
    if plan.useLock {
      r, c, ev, on := RunLocked(st, plan, f);
    } else {
      var inner;
      inner, c, ev, on := RunAndFinish(st, plan, f);
      r := Ran(inner);
      UnlockedTrace(old(st.log), c, inner);
    }
  }

  method RunLocked(st: Store, plan: Plan, f: Float64)
    returns (r: RunResult, ghost c: Calls, ghost ev: Evidence, ghost on: Footing)
    requires st.Valid()
    modifies st
    ensures st.Valid() && (r.Ran? || r.LockFailed?)
    ensures st.log == old(st.log) + BegunTrace(true, c, r)
    ensures if r.Ran? then InnerRun(old(st.history), on, st.history, plan, c, ev, r.inner, f)
            else st.history == old(st.history)
  {
    var locked: Fault := *;
    match locked
    case Fine =>
      var inner;
      inner, c, ev, on := RunUnderLock(st, plan, f);
      r := Ran(inner);
    case Broke(e) =>
      st.Record(LockTried(locked));
      st.Record(FinishEvent(Error(e)));
      r, c := LockFailed(e), Calls(Waiting([], []), None, None, None);
      ev, on := Nothing(st.history), Footing(st.history, 0, []);
  }

  method RunUnderLock(st: Store, plan: Plan, f: Float64)
    returns (r: InnerResult, ghost c: Calls, ghost ev: Evidence, ghost on: Footing)
    requires st.Valid()
    modifies st
    ensures st.Valid()
    ensures st.log == old(st.log) + BegunTrace(true, c, Ran(r))
    ensures InnerRun(old(st.history), on, st.history, plan, c, ev, r, f)
  {
    st.Record(LockTried(Fine));
    r, c, ev, on := RunAndFinish(st, plan, f);
    st.Record(LockReleased);
    LockedTrace(old(st.log), c, r);
  }

  /** orchestrator.go:101-105: whatever `runInner` returns, finish the run row, then release. */
  method RunAndFinish(st: Store, plan: Plan, f: Float64)
    returns (r: InnerResult, ghost c: Calls, ghost ev: Evidence, ghost on: Footing)
    requires st.Valid()
    modifies st
    ensures st.Valid()
    ensures st.log == old(st.log) + c.Events() + [FinishEvent(r), Released]
    ensures InnerRun(old(st.history), on, st.history, plan, c, ev, r, f)
  {
    r, c, ev, on := RunInner(st, plan, f);
    st.Record(FinishEvent(r));
    st.Record(Released);
  }

  // ------------------------------------------------------ reading the call trace

  predicate Quiet(e: seq<Event>) {
    forall k :: 0 <= k < |e| ==> !e[k].WriteTried?
  }

  lemma WaitingIsQuiet(w: Waiting)
    ensures Quiet(w.Events())
    ensures w.Holding() ==> w.Events() != [] && w.Events()[|w.Events()| - 1] == Event.Tried(Acquired)
  {
  }

  lemma QuietTogether(a: seq<Event>, b: seq<Event>)
    requires Quiet(a) && Quiet(b)
    ensures Quiet(a + b)
  {
  }

  lemma LabourIsQuiet(l: Labour)
    ensures Quiet(l.Events())
  {
  }

  lemma PreludeIsQuiet(c: Calls)
    ensures Quiet(c.Prelude())
  {
    WaitingIsQuiet(c.wait);
    var g := if c.guard.Some? then c.guard.value.Events() else [];
    QuietTogether(c.wait.Events(), g);
    if c.labour.Some? {
      LabourIsQuiet(c.labour.value);
      QuietTogether(c.wait.Events() + g, c.labour.value.Events());
    }
  }

  lemma InParts(a: seq<Event>, b: seq<Event>, c: seq<Event>, d: seq<Event>)
    ensures var all, n := a + b + c + d, |a| + |b|;
            && all[..|a|] == a && all[|a|..n] == b && all[n..n + |c|] == c
            && |all| == n + |c| + |d| && all[n + |c|..] == d
  {
  }

  lemma PreludeEndsWell(plan: Plan, start: nat, h: seq<Version>, c: Calls, ev: Evidence, f: Float64)
    requires Follows(plan, start, h, c, ev, f) && c.commit.Some?
    ensures c.labour.value.Events() ==
            [Event.Prepared(true), TerraformRan(Fine), HeartbeatStopped(Heartbeat.Stopped), StatusRead(false),
              PostRead(true)]
    ensures c.guard.value.Events() != [] && c.guard.value.Events()[0] == TrunkRead(Fine)
  {
  }

  /** Where a write stands in the trace of one `runInner`.  At `i` the acquisition was granted,
      and the trunk read next; from `j` on, in one stretch, the working directory was prepared,
      Terraform ended well, the heartbeat stopped cleanly, the status showed no abort and the
      document was read. */
  lemma WritesAreProtected(plan: Plan, start: nat, h: seq<Version>, c: Calls, ev: Evidence, f: Float64, k: nat)
    returns (i: nat, j: nat)
    requires Follows(plan, start, h, c, ev, f) && k < |c.Events()| && c.Events()[k].WriteTried?
    ensures i + 1 < j && j + 5 < k
    ensures c.Events()[i] == Event.Tried(Acquired) && c.Events()[i + 1] == TrunkRead(Fine)
    ensures c.Events()[j..j + 5] ==
            [Event.Prepared(true), TerraformRan(Fine), HeartbeatStopped(Heartbeat.Stopped), StatusRead(false),
              PostRead(true)]
  {
    PreludeIsQuiet(c);
    assert c.commit.Some?;
    WaitingIsQuiet(c.wait);
    PreludeEndsWell(plan, start, h, c, ev, f);
    var w, g, l := c.wait.Events(), c.guard.value.Events(), c.labour.value.Events();
    i, j := |w| - 1, |w| + |g|;
    InParts(w, g, l, CommitEvents(c.commit));
    WriteFollowsItsRead(plan, ev.work, c, k);
    assert c.Events()[..|w|][i] == w[i] && c.Events()[|w|..j][0] == g[0];
  }

  lemma WriteFollowsItsRead(plan: Plan, work: Work, c: Calls, k: nat)
    requires c.commit.Some? && c.commit.value.InOrder(plan, work)
    requires k < |c.Events()| && c.Events()[k].WriteTried?
    ensures k > |c.Prelude()|
    ensures c.Events()[k - 1] == if plan.useLock then DeltaBuilt(true) else TrunkRead(Fine)
  {
    PreludeIsQuiet(c);
    var p, m := |c.Prelude()|, c.commit.value;
    assert k >= p && c.Events()[k] == m.Events()[k - p];
    assert k - p < |RoundEvents(m.rounds)|;
    RoundsWriteAfterRead(plan, work, m.rounds, k - p);
    assert c.Events()[k - 1] == RoundEvents(m.rounds)[k - p - 1];
  }

  /** Directly before a write the trunk was read, or, on the native path, the delta built. */
  lemma {:induction false} RoundsWriteAfterRead(plan: Plan, work: Work, rounds: seq<Round>, k: nat)
    requires forall n :: 0 <= n < |rounds| ==> InOrder(plan, work, rounds[n])
    requires k < |RoundEvents(rounds)| && RoundEvents(rounds)[k].WriteTried?
    ensures k > 0 && RoundEvents(rounds)[k - 1] == if plan.useLock then DeltaBuilt(true) else TrunkRead(Fine)
  {
    var front, last := rounds[..|rounds| - 1], rounds[|rounds| - 1];
    if k < |RoundEvents(front)| {
      RoundsWriteAfterRead(plan, work, front, k);
    } else {
      assert InOrder(plan, work, last);
      assert RoundEvents(rounds)[k] == last.Events()[k - |RoundEvents(front)|];
    }
  }

  /** A beat of the heartbeat that saw an abort, or that renewed less than everything, rules
      out every write, whether or not Terraform was interrupted by it; so does an operator's
      abort seen after Terraform.  When Terraform ended cleanly all the same, such a run asks
      to be finished as failed, not as aborted, unless the renewal itself was cancelled. */
  lemma LostLeaseNeverWrites(plan: Plan, start: nat, h: seq<Version>, c: Calls, ev: Evidence, r: InnerResult,
                             f: Float64)
    requires Follows(plan, start, h, c, ev, f) && Returns(c, r) && c.labour.Some?
    requires c.labour.value.aborted == Some(true)
               || (plan.wanted > 0
                   && exists b :: b in c.labour.value.beats
                                  && (b.seenAborted || b.renewal.RenewError? || b.renewal.count < plan.wanted))
    ensures Quiet(c.Events()) && r.Error?
    ensures c.labour.value.terraform == Some(Fine) ==>
              FinalStatus(r) ==
              if c.labour.value.heartbeat == Some(Heartbeat.RenewFailed(true)) then RunAborted else RunFailed
  {
    PreludeIsQuiet(c);
    assert c.labour.value.aborted != Some(false);
    assert c.commit.None?;
    assert !c.wait.Cancelled();
  }

  /** An event whose outcome is a cancelled or expired context. */
  predicate Cancels(e: Event) {
    match e
    case TrunkRead(x) => x == Broke(true)
    case BaseRead(x) => x == Broke(true)
    case Tried(x) => x == AcquireError(true)
    case Slept(_, completed) => !completed
    case TerraformRan(x) => x == Broke(true)
    case HeartbeatStopped(x) => x == Heartbeat.RenewFailed(true)
    case WriteTried(_, x) => x == WriteError(true)
    case VersionLookedUp(x) => x == Broke(true)
    case _ => false
  }

  predicate LastCancels(e: seq<Event>) {
    e != [] && Cancels(e[|e| - 1])
  }

  lemma WaitCancels(budget: int, elapsed: int, w: Waiting)
    requires WaitDone(budget, elapsed, w)
    ensures w.Events() != [] && (w.Cancelled() <==> LastCancels(w.Events()))
    ensures w.Holding() ==> !w.Cancelled()
  {
  }

  lemma GuardCancels(g: GuardCalls)
    requires g.base.Some? ==> g.trunk.Fine?
    ensures g.Events() != [] && (g.Cancelled() <==> LastCancels(g.Events()))
    ensures g.Clean() ==> !g.Cancelled()
  {
  }

  lemma LabourCancels(l: Labour, wanted: nat)
    requires l.InOrder(wanted)
    ensures l.Events() != [] && (l.Cancelled() <==> LastCancels(l.Events()))
    ensures l.Clean() ==> !l.Cancelled()
  {
  }

  lemma CommitCancels(m: Commit, plan: Plan, work: Work)
    requires m.InOrder(plan, work)
    ensures m.Events() != [] && (m.Cancelled() <==> LastCancels(m.Events()))
  {
    var n := |m.rounds| - 1;
    assert RoundEvents(m.rounds) == RoundEvents(m.rounds[..n]) + m.rounds[n].Events();
    assert InOrder(plan, work, m.rounds[n]);
  }

  lemma LastOfBoth(a: seq<Event>, b: seq<Event>)
    ensures LastCancels(a + b) <==> if b == [] then LastCancels(a) else LastCancels(b)
  {
  }

  /** A run's error carries a cancellation if and only if its last call did. */
  lemma ErrorIsTheLastCalls(plan: Plan, start: nat, h: seq<Version>, elapsed: int, c: Calls, ev: Evidence,
                            r: InnerResult, f: Float64)
    requires Follows(plan, start, h, c, ev, f) && WaitDone(plan.waitBudget, elapsed, c.wait)
    requires Returns(c, r) && r.Error?
    ensures c.Events() != [] && (r.cancelled <==> Cancels(c.Events()[|c.Events()| - 1]))
  {
    WaitCancels(plan.waitBudget, elapsed, c.wait);
    var w := c.wait.Events();
    var g: seq<Event> := if c.guard.Some? then c.guard.value.Events() else [];
    var l: seq<Event> := if c.labour.Some? then c.labour.value.Events() else [];
    LastOfBoth(w, g);
    LastOfBoth(w + g, l);
    LastOfBoth(c.Prelude(), CommitEvents(c.commit));
    if c.guard.Some? { GuardCancels(c.guard.value); }
    if c.labour.Some? { LabourCancels(c.labour.value, plan.wanted); }
    if c.commit.Some? { CommitCancels(c.commit.value, plan, ev.work); }
  }

  lemma {:induction false} LossesDoNotLand(rounds: seq<Round>)
    requires forall k :: 0 <= k < |rounds| ==> rounds[k].Lost()
    ensures forall k :: 0 <= k < |RoundEvents(rounds)| && RoundEvents(rounds)[k].WriteTried? ==>
              RoundEvents(rounds)[k].r.SerialConflict?
  {
    if rounds != [] {
      LossesDoNotLand(rounds[..|rounds| - 1]);
    }
  }

  lemma LandingIsLast(plan: Plan, work: Work, c: Commit, k: nat)
    requires c.InOrder(plan, work) && k < |c.Events()| && c.Events()[k].WriteTried? && c.Events()[k].r.Landed?
    ensures Landing(c.rounds, Some(c.Events()[k].serial)) && k == |c.Events()| - 2 && c.Events()[k + 1].VersionLookedUp?
  {
    var n := |c.rounds| - 1;
    LossesDoNotLand(c.rounds[..n]);
    var last := c.rounds[n].Events();
    assert c.Events() == RoundEvents(c.rounds[..n]) + last
      + (if c.lookup.Some? then [VersionLookedUp(c.lookup.value)] else []);
    assert last[|last| - 1].WriteTried?;
  }

  /** At most one write lands; only the lookup of its version comes after it. */
  lemma AtMostOneLanding(plan: Plan, start: nat, h: seq<Version>, c: Calls, ev: Evidence, f: Float64, k: nat)
    requires Follows(plan, start, h, c, ev, f) && k < |c.Events()|
    requires c.Events()[k].WriteTried? && c.Events()[k].r.Landed?
    ensures c.Landed(c.Events()[k].serial) && k == |c.Events()| - 2 && c.Events()[k + 1].VersionLookedUp?
  {
    PreludeIsQuiet(c);
    var p := |c.Prelude()|;
    assert k >= p && c.Events()[k] == CommitEvents(c.commit)[k - p];
    LandingIsLast(plan, ev.work, c.commit.value, k - p);
  }

  /** Nothing in the way of a run keeps it from committing: with the reservations granted, the
      guard holding, Terraform clean, no surprises, no failing store call, and fewer than eight
      commits by others, it commits. */
  lemma UnhinderedRunCommits(before: seq<Version>, on: Footing, after: seq<Version>,
                             plan: Plan, c: Calls, ev: Evidence, r: InnerResult, f: Float64)
    requires InnerRun(before, on, after, plan, c, ev, r, f)
    requires c.wait.Holding() && c.guard.value.Clean() && GuardHolds(plan, on.seen, ev.at, f)
    requires c.labour.Some? ==> c.labour.value.Clean() && !HasSurprise(ev.work.post, plan.footprint)
    requires c.commit.Some? ==>
               && (c.commit.value.lookup.Some? ==> c.commit.value.lookup.value.Fine?)
               && forall k :: 0 <= k < |c.commit.value.rounds| ==>
                    c.commit.value.rounds[k].Lost() || c.commit.value.rounds[k].Lands()
    requires |on.seen| - |before| < 8
    ensures r.Done? && c.Landed(r.serial) && CommitsOn(on.seen, after, plan, ev.work, on.read, r.serial, r.applied)
  {
    assert c.commit.value.rounds[|c.commit.value.rounds| - 1].Lands();
  }

  /** Whose version a committed run records.  Of a run that had written nothing before, it is
      its own if and only if no version landed between the last trunk read and the write,
      which the merge path makes sure of. */
  lemma RecordedVersionIsOwnIff(before: seq<Version>, on: Footing, after: seq<Version>,
                                plan: Plan, c: Calls, ev: Evidence, r: InnerResult, f: Float64)
    requires InnerRun(before, on, after, plan, c, ev, r, f) && r.Done?
    requires Contiguous(after) && forall k :: 0 <= k < |before| ==> !before[k].mine
    ensures Owns(after, r.serial) <==> on.read == |on.seen|
    ensures !plan.useLock ==> Owns(after, r.serial)
  {
    RecordedSerialIsOwnIff(before, on.seen, after, plan, ev.work, on.read, r.serial, on.applied);
  }

  /** The native path does not make sure of it: for every plan that asks for the coarse lock,
      and everything Terraform may leave under it, there is a run that commits, succeeds, and
      records the version which a run without the lock put in its way. */
  lemma NativeRunRecordsAnothers(plan: Plan, trunk: State, other: State, own: State, work: Work, f: Float64)
    returns (c: Calls, ev: Evidence, on: Footing, r: InnerResult)
    requires plan.useLock && plan.sourceSerial.None?
    requires Trusted(plan, work.intent) && !HasSurprise(work.post, plan.footprint)
    requires other.serial == trunk.serial + 1 && own.serial == trunk.serial + 2
    ensures var after := [Version(trunk, false), Version(other, false), Version(own, true)];
            && InnerRun(after[..1], on, after, plan, c, ev, r, f)
            && r == Done(other.serial, work.intent.writes) && !Owns(after, r.serial)
  {
    var after := [Version(trunk, false), Version(other, false), Version(own, true)];
    var slice := trunk.(resources := Keep(trunk.resources, plan.footprint));
    var labour := Labour(true, Some(Fine), [], Some(Heartbeat.Stopped), Some(false), Some(true));
    var commit := Commit([Round(Fine, Some(true), Some(Attempt(other.serial, Landed)))], Some(Fine));
    c := Calls(Waiting([Acquired], []), Some(GuardCalls(Fine, None)), Some(labour), Some(commit));
    ev, on := Evidence(0, Some(slice), work), Footing(after[..2], 1, work.intent.writes);
    r := Done(other.serial, work.intent.writes);
  }
}
