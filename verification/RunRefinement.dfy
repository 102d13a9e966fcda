/** The two models of a run are one.  Any number of `Orchestrator.RunInner`s that share a
    trunk, together with their heartbeats, operators' aborts and the clock, form one run of
    `ApplyProtocol` on the rows of the documents, in whatever order the store serves their
    calls.  So the theorems about the protocol are theorems about those runs. */
module RunRefinement {
  import opened Json
  import opened TrunkState
  import opened Merge
  import opened Staleness
  import opened ApplyStore
  import opened ReservationWait
  import opened CommitRetry
  import opened Orchestrator
  import Protocol = ApplyProtocol
  import Serializability
  import Heartbeat

  type RunId = Protocol.RunId

  // ------------------------------------------------------------ the shared store

  datatype Doc = Doc(state: State, author: Option<RunId>)

  /** What the runs share.  `fetched[i]` is how many versions there were when run `i` last read
      the trunk in order to commit on it. */
  datatype Backend = Backend(
    now: nat, trunk: seq<Doc>, held: map<RunId, nat>, aborted: set<RunId>, fetched: map<RunId, nat>)

  /** Serials are positions, as in the protocol. */
  predicate FromTheStart(trunk: seq<Doc>) {
    trunk != [] && forall k :: 0 <= k < |trunk| ==> trunk[k].state.serial == k
  }

  /** The trunk as one run sees it: whether a version is its own. */
  function As(i: RunId, trunk: seq<Doc>): (h: seq<Version>)
    ensures |h| == |trunk|
    ensures forall k :: 0 <= k < |h| ==> h[k] == Version(trunk[k].state, trunk[k].author == Some(i))
  {
    seq(|trunk|, k requires 0 <= k < |trunk| => Version(trunk[k].state, trunk[k].author == Some(i)))
  }

  /** The trunk as the protocol sees it: rows. */
  function View(trunk: seq<Doc>): (h: seq<Protocol.Version>)
    ensures |h| == |trunk|
    ensures forall k :: 0 <= k < |h| ==> h[k] == Protocol.Version(Index(trunk[k].state.resources), trunk[k].author)
  {
    seq(|trunk|, k requires 0 <= k < |trunk| => Protocol.Version(Index(trunk[k].state.resources), trunk[k].author))
  }

  // -------------------------------------------------------------------- the runs

  /** One `RunInner` on the merge path, with everything its contract speaks of. */
  datatype Session = Session(
    before: seq<Version>, on: Footing, after: seq<Version>, plan: Plan, c: Calls, ev: Evidence, r: InnerResult)
  {
    ghost predicate Inner(f: Float64) {
      !plan.useLock && InnerRun(before, on, after, plan, c, ev, r, f)
    }

    function Post(): Rows { Index(ev.work.post.resources) }
  }

  /** The spec is that of the session's plan, and its Terraform did what the session's did. */
  predicate Explains(spec: Protocol.Spec, ss: Session) {
    && spec.writeSet == ss.plan.writeSet && spec.readSet == ss.plan.readSet
    && spec.footprint == ss.plan.footprint && spec.sourceSerial == ss.plan.sourceSerial
    && (ss.ev.slice.Some? ==> spec.terraform(Index(ss.ev.slice.value.resources)) == ss.Post())
  }

  /** A call the other runs can notice, a step that ends a phase, or something that is not for
      the run to decide. */
  datatype Call = Made(s: Protocol.Step) | Put(i: RunId, landed: bool)
  {
    function Step(): Protocol.Step {
      match this case Made(s) => s case Put(i, _) => Protocol.Commit(i)
    }

    /** Renewals, aborts, releases and the clock come when they come. */
    predicate Of(i: RunId) {
      match this
      case Made(s) => !s.Tick? && !s.Renew? && !s.Abort? && !s.Release? && s.i == i
      case Put(j, _) => j == i
    }
  }

  /** The calls a run has left to make. */
  datatype Rest = Over | Then(call: Call, rest: Rest)

  /** The calls of run `i`, in order. */
  function Own(trace: seq<Call>, i: RunId): Rest {
    if trace == [] then Over
    else if trace[0].Of(i) then Then(trace[0], Own(trace[1..], i))
    else Own(trace[1..], i)
  }

  /** What the calls of a `RunInner` come to in the protocol, from the creation of the run row
      to the lookup of the new version. */
  function Script(i: RunId, c: Calls): Rest {
    Then(Made(Protocol.Begin(i)), AfterBegin(i, c))
  }

  function AfterBegin(i: RunId, c: Calls): Rest {
    if c.wait.Holding() then Then(Made(Protocol.Acquire(i)), AfterGrant(i, c)) else GivesUp(i)
  }

  function AfterGrant(i: RunId, c: Calls): Rest {
    if c.guard.Some? && c.guard.value.Clean() then Then(Made(Protocol.Guard(i)), AfterGuard(i, c)) else GivesUp(i)
  }

  function AfterGuard(i: RunId, c: Calls): Rest {
    if c.labour.None? then Over
    else if c.labour.value.Clean() then Then(Made(Protocol.Terraform(i)), AfterTerraform(i, c))
    else GivesUp(i)
  }

  function AfterTerraform(i: RunId, c: Calls): Rest {
    Then(Made(Protocol.EnterCommit(i, false)), if c.commit.Some? then RoundsFrom(i, c.commit.value, 0) else Over)
  }

  function RoundsFrom(i: RunId, m: Commit, k: nat): Rest
    requires k <= |m.rounds|
    decreases |m.rounds| - k
  {
    if k == |m.rounds| then AfterRounds(i, m)
    else if m.rounds[k].read.Fine? then Then(Made(Protocol.Fetch(i)), AfterFetch(i, m, k))
    else GivesUp(i)
  }

  function AfterFetch(i: RunId, m: Commit, k: nat): Rest
    requires k < |m.rounds|
    decreases |m.rounds| - k, 0
  {
    if m.rounds[k].Lands() || m.rounds[k].Lost() then Then(Put(i, m.rounds[k].Lands()), RoundsFrom(i, m, k + 1))
    else GivesUp(i)
  }

  function AfterRounds(i: RunId, m: Commit): Rest {
    if m.lookup.Some? then Then(Made(Protocol.Finish(i, m.lookup.value.Fine?)), Over) else Over
  }

  function GivesUp(i: RunId): Rest {
    Then(Made(Protocol.Fail(i)), Over)
  }

  // ------------------------------------------------------------------- the store

  /** The heartbeat beats from the grant until Terraform is through. */
  predicate Beating(i: RunId, c: Calls, rest: Rest) {
    c.wait.Holding() && (rest == AfterGrant(i, c) || (c.labour.Some? && rest == AfterGuard(i, c)))
  }

  /** No unexpired reservations of another run stand in the way. */
  predicate Grants(specs: Protocol.Specs, b: Backend, i: RunId) {
    forall j :: j in b.held && j != i && b.now < b.held[j] ==>
      !Protocol.Conflict(specs(i).reservations, specs(j).reservations)
  }

  /** The version that lands is the one of the session, on the versions it was put on. */
  predicate Adds(i: RunId, ss: Session, b: Backend, b': Backend) {
    && As(i, b.trunk) == ss.on.seen && As(i, b'.trunk) == ss.after
    && b.trunk <= b'.trunk && b' == b.(trunk := b'.trunk)
  }

  /** How the store serves the first of the calls that are left.  Reservations are granted all
      or nothing against unexpired ones; a renewal finds its leases unexpired; a write lands
      exactly when the trunk is the one its run has read; only a run under way is aborted,
      and only one that is through, or crashed, is released. */
  predicate Serves(specs: Protocol.Specs, sessions: map<RunId, Session>, b: Backend, trace: seq<Call>, b': Backend)
    requires trace != []
  {
    match trace[0]
    case Put(i, landed) =>
      && i in sessions && i in b.fetched && landed == (b.fetched[i] == |b.trunk|)
      && (if landed then Adds(i, sessions[i], b, b') else b' == b)
    case Made(s) =>
      match s
      case Tick(d) => b' == b.(now := b.now + d)
      case Acquire(i) => Grants(specs, b, i) && b' == b.(held := b.held[i := b.now + specs(i).lease])
      case Renew(i) =>
        && i in sessions && Beating(i, sessions[i].c, Own(trace, i)) && i in b.held && b.now < b.held[i]
        && b' == b.(held := b.held[i := b.now + specs(i).lease])
      case Release(i) => i in sessions && Own(trace, i) == Over && b' == b.(held := b.held - {i})
      case Abort(i) =>
        && i in sessions && Own(trace, i) != Over && Own(trace, i) != Script(i, sessions[i].c)
        && b' == b.(aborted := b.aborted + {i}, held := b.held - {i})
      case Guard(i) => i in sessions && Sees(i, sessions[i], b) && b' == b
      case Fetch(i) => b' == b.(fetched := b.fetched[i := |b.trunk|])
      case _ => b' == b
  }

  /** The version the guard saw is the newest. */
  predicate Sees(i: RunId, ss: Session, b: Backend) {
    |b.trunk| == ss.ev.at + 1 && As(i, b.trunk) <= ss.on.seen
  }

  ghost predicate Served(specs: Protocol.Specs, sessions: map<RunId, Session>, bs: seq<Backend>, trace: seq<Call>) {
    && |bs| == |trace| + 1
    && forall k :: 0 <= k < |trace| ==> Serves(specs, sessions, bs[k], trace[k..], bs[k + 1])
  }

  /** The sessions, and nobody else, made these calls; the store served them from a trunk
      without reservations. */
  ghost predicate RanTogether(specs: Protocol.Specs, sessions: map<RunId, Session>, f: Float64, bs: seq<Backend>,
                              trace: seq<Call>) {
    && Served(specs, sessions, bs, trace)
    && FromTheStart(bs[0].trunk) && bs[0].held == map[]
    && (forall k :: 0 <= k < |bs[0].trunk| ==> bs[0].trunk[k].author == None)
    && (forall i :: i in sessions ==> sessions[i].Inner(f) && Explains(specs(i), sessions[i]))
    && forall i :: Own(trace, i) == if i in sessions then Script(i, sessions[i].c) else Over
  }

  // ---------------------------------------------------------- where each run stands

  /** How the run ends. */
  predicate Ends(c: Calls, r: InnerResult, p: Protocol.Phase) {
    && p.Finished()
    && (p.Committed? <==> r.Done?) && (r.Done? && p.Committed? ==> p.serial == r.serial)
    && (p.Unrecorded? <==> r.Error? && !c.NothingLanded()) && (p.Unrecorded? ==> c.Landed(p.serial))
    && (p.Exhausted? <==>
          c.commit.Some? && c.commit.value.rounds != [] && c.commit.value.rounds[|c.commit.value.rounds| - 1].Lost())
  }

  /** The slice was cut from version `cut`, and Terraform was run on it. */
  predicate CutAt(ss: Session, b: Backend, cut: nat) {
    && ss.c.labour.Some? && ss.ev.slice.Some?
    && cut == ss.ev.at < |b.trunk| && cut < |ss.on.seen| && b.trunk[cut].state == ss.on.seen[cut].state
  }

  /** Round `k` of the commit loop is on. */
  predicate InRound(ss: Session, post: Rows, k: nat) {
    && ss.c.guard.Some? && ss.c.guard.value.Clean() && ss.c.labour.Some? && ss.c.labour.value.Clean()
    && ss.c.commit.Some? && k < |ss.c.commit.value.rounds| && k < MAX_COMMIT_RETRIES && post == ss.Post()
  }

  /** The calls that are left are those that follow phase `p`. */
  predicate Ready(i: RunId, ss: Session, b: Backend, p: Protocol.Phase, rest: Rest) {
    match p
    case NotStarted => rest == Script(i, ss.c)
    case Begun => rest == AfterBegin(i, ss.c)
    case Holding => ss.c.wait.Holding() && rest == AfterGrant(i, ss.c)
    case Running(cut) => CutAt(ss, b, cut) && rest == AfterGuard(i, ss.c)
    case TerraformDone(cut, post) =>
      && ss.c.labour.Some? && ss.c.labour.value.Clean() && post == ss.Post()
      && rest == AfterTerraform(i, ss.c)
    case Committing(_, post, _, k) => InRound(ss, post, k) && rest == RoundsFrom(i, ss.c.commit.value, k)
    case Fetched(_, post, _, k, base) =>
      && InRound(ss, post, k) && ss.c.commit.value.rounds[k].read.Fine?
      && rest == AfterFetch(i, ss.c.commit.value, k) && i in b.fetched && b.fetched[i] == base + 1
    case Wrote(n) => ss.c.Landed(n) && ss.c.commit.value.lookup.Some? && rest == AfterRounds(i, ss.c.commit.value)
    case _ => rest == Over && Ends(ss.c, ss.r, p)
  }

  predicate Stands(sessions: map<RunId, Session>, b: Backend, p: Protocol.Phase, i: RunId, rest: Rest) {
    if i in sessions then Ready(i, sessions[i], b, p, rest) else p.NotStarted? && rest == Over
  }

  predicate Mirrors(w: Protocol.World, b: Backend) {
    w.now == b.now && w.history == View(b.trunk) && w.held == b.held && w.aborted == b.aborted
  }

  ghost predicate Tracks(sessions: map<RunId, Session>, w: Protocol.World, b: Backend, trace: seq<Call>) {
    && Mirrors(w, b) && FromTheStart(b.trunk)
    && forall i: RunId {:trigger w.Phase(i)} :: Stands(sessions, b, w.Phase(i), i, Own(trace, i))
  }

  // ------------------------------------------------------------- the agreements

  /** The guard of the orchestrator is the guard of the protocol. */
  lemma GuardsAgree(plan: Plan, spec: Protocol.Spec, i: RunId, trunk: seq<Doc>, seen: seq<Version>, at: nat, f: Float64)
    requires FromTheStart(trunk) && |trunk| == at + 1 && As(i, trunk) <= seen
    requires spec.sourceSerial == plan.sourceSerial && spec.readSet == plan.readSet
    ensures GuardHolds(plan, seen, at, f) <==> Protocol.GuardPasses(spec, View(trunk), f)
  {
    GuardLater(plan, As(i, trunk), seen, at, f);
    if spec.Guarded() && spec.sourceSerial.value < at {
      SourcesAgree(plan, i, trunk, spec.sourceSerial.value, at, f);
    }
  }

  lemma SourcesAgree(plan: Plan, i: RunId, trunk: seq<Doc>, s: nat, at: nat, f: Float64)
    requires FromTheStart(trunk) && s < at && |trunk| == at + 1 && plan.sourceSerial == Some(s)
    ensures PlanStands(plan, As(i, trunk), at, f) <==>
            Unchanged(View(trunk)[s].rows, View(trunk)[at].rows, Groups(plan.readSet), f)
  {
    var h, v := As(i, trunk), View(trunk);
    assert v[s].rows == Index(h[s].state.resources) && v[at].rows == Index(h[at].state.resources);
    assert SourceUnchanged(plan, h, s, at, f) <==> Unchanged(v[s].rows, v[at].rows, Groups(plan.readSet), f);
  }

  /** The rows the surprise check looks at are those of the document. */
  lemma SurprisesAgree(post: State, footprint: set<string>)
    ensures HasSurprise(post, footprint) <==> !(Index(post.resources).Keys <= footprint)
  {
    IndexKeys(post.resources);
    if HasSurprise(post, footprint) {
      var r :| r in post.resources && r.Address() !in footprint;
      assert r.Address() in Index(post.resources);
    }
  }

  /** Terraform of the spec leaves the rows of the document Terraform left. */
  lemma PostAgrees(spec: Protocol.Spec, ss: Session, b: Backend, f: Float64)
    requires ss.Inner(f) && Explains(spec, ss) && CutAt(ss, b, ss.ev.at)
    ensures spec.PostApply(View(b.trunk)[ss.ev.at].rows) == ss.Post()
  {
    IndexOfSlice(ss.on.seen[ss.ev.at].state.resources, ss.plan.footprint);
  }

  /** The write that landed is the merge with the newest version. */
  lemma LandedMerge(ss: Session, f: Float64)
    requires ss.Inner(f) && ss.c.commit.Some? && !ss.c.NothingLanded()
    ensures var n := |ss.on.seen|;
            && n > 0 && |ss.after| == n + 1 && ss.on.seen <= ss.after && ss.after[n].mine
            && ss.after[n].state.serial == ss.on.seen[n - 1].state.serial + 1
            && ss.c.Landed(ss.after[n].state.serial)
            && IsMerge(ss.on.seen[n - 1].state, ss.ev.work.post, Groups(ss.plan.writeSet), ss.after[n].state)
  {
    var rounds := ss.c.commit.value.rounds;
    assert ss.c.Landed(rounds[|rounds| - 1].write.value.serial);
  }

  predicate LandsAs(spec: Protocol.Spec, i: RunId, ss: Session, b: Backend, b': Backend)
    requires b.trunk != []
  {
    && FromTheStart(b'.trunk) && ss.c.Landed(|b.trunk|)
    && View(b'.trunk) ==
       var rows := Overlay(View(b.trunk)[|b.trunk| - 1].rows, ss.Post(), spec.WriteGroups());
       View(b.trunk) + [Protocol.Version(rows, Some(i))]
  }

  /** What lands is the overlay of the post-apply rows on the newest rows. */
  lemma LandingAgrees(spec: Protocol.Spec, i: RunId, ss: Session, b: Backend, b': Backend, f: Float64)
    requires ss.Inner(f) && Explains(spec, ss) && FromTheStart(b.trunk) && Adds(i, ss, b, b')
    requires ss.c.commit.Some? && !ss.c.NothingLanded()
    ensures LandsAs(spec, i, ss, b, b')
  {
    LandedMerge(ss, f);
    var n := |b.trunk|;
    assert b.trunk[n - 1].state == As(i, b.trunk)[n - 1].state && b'.trunk[n].state == As(i, b'.trunk)[n].state;
    assert As(i, b'.trunk)[n].mine;
    MergedRows(b.trunk[n - 1].state, ss.ev.work.post, Groups(ss.plan.writeSet), b'.trunk[n].state);
    OneMore(b.trunk, b'.trunk);
  }

  lemma OneMore(trunk: seq<Doc>, trunk': seq<Doc>)
    requires trunk <= trunk' && |trunk'| == |trunk| + 1 && FromTheStart(trunk)
    requires trunk'[|trunk|].state.serial == |trunk|
    ensures FromTheStart(trunk') && View(trunk') == View(trunk) + [View(trunk')[|trunk|]]
  {
  }

  /** Where round `k` of a session's commit loop leads. */
  ghost predicate Leads(i: RunId, ss: Session, k: nat)
    requires ss.c.commit.Some? && k < |ss.c.commit.value.rounds|
  {
    var m := ss.c.commit.value;
    && (m.rounds[k].read.Broke? ==> m.rounds[k].write.None?)
    && (m.rounds[k].Lands() ==> !ss.c.NothingLanded() && m.lookup.Some? && RoundsFrom(i, m, k + 1) == AfterRounds(i, m))
    && (m.rounds[k].Lost() && k + 1 < MAX_COMMIT_RETRIES ==> k + 1 < |m.rounds|)
    && (m.rounds[k].Lost() && k + 1 >= MAX_COMMIT_RETRIES ==>
          RoundsFrom(i, m, k + 1) == Over && forall e, g :: Ends(ss.c, ss.r, Protocol.Exhausted(e, g)))
    && (!m.rounds[k].Lands() && !m.rounds[k].Lost() ==> Ends(ss.c, ss.r, Protocol.Failed))
  }

  lemma RoundLeads(i: RunId, ss: Session, f: Float64, k: nat)
    requires ss.Inner(f) && ss.c.commit.Some? && k < |ss.c.commit.value.rounds|
    ensures Leads(i, ss, k)
  {
  }

  lemma RefusalLeads(ss: Session, f: Float64)
    requires ss.Inner(f) && !ss.c.wait.Holding()
    ensures Ends(ss.c, ss.r, Protocol.Failed)
  {
  }

  /** How the lookup of the new version ends the run. */
  predicate LookupLeads(ss: Session, n: nat)
    requires ss.c.commit.Some? && ss.c.commit.value.lookup.Some?
  {
    Ends(ss.c, ss.r, if ss.c.commit.value.lookup.value.Fine? then Protocol.Committed(n) else Protocol.Unrecorded(n))
  }

  lemma LandingLeads(ss: Session, f: Float64, n: nat)
    requires ss.Inner(f) && ss.c.Landed(n) && ss.c.commit.value.lookup.Some?
    ensures LookupLeads(ss, n)
  {
  }

  // ------------------------------------------------------------------- one call

  /** Run `i` is to make the first of the calls that are left. */
  ghost predicate Turn(specs: Protocol.Specs, sessions: map<RunId, Session>, f: Float64, w: Protocol.World, b: Backend,
                       trace: seq<Call>, b': Backend, i: RunId) {
    && trace != [] && trace[0].Of(i) && Serves(specs, sessions, b, trace, b')
    && i in sessions && Mirrors(w, b) && FromTheStart(b.trunk) && Ready(i, sessions[i], b, w.Phase(i), Own(trace, i))
  }

  /** The protocol has a step for it, which leads to where the run then stands. */
  ghost predicate Taken(specs: Protocol.Specs, sessions: map<RunId, Session>, f: Float64, w: Protocol.World,
                        trace: seq<Call>, b': Backend, i: RunId)
    requires trace != [] && i in sessions
  {
    && w.history != [] && Protocol.Enabled(specs, w, trace[0].Step())
    && var w' := Protocol.Next(specs, f, w, trace[0].Step());
       && Mirrors(w', b') && FromTheStart(b'.trunk) && Ready(i, sessions[i], b', w'.Phase(i), Own(trace[1..], i))
  }

  lemma BeginCall(specs: Protocol.Specs, sessions: map<RunId, Session>, f: Float64, w: Protocol.World, b: Backend,
                  trace: seq<Call>, b': Backend, i: RunId)
    requires Turn(specs, sessions, f, w, b, trace, b', i) && w.Phase(i).NotStarted?
    ensures Taken(specs, sessions, f, w, trace, b', i)
  {
  }

  lemma AcquireCall(specs: Protocol.Specs, sessions: map<RunId, Session>, f: Float64, w: Protocol.World, b: Backend,
                    trace: seq<Call>, b': Backend, i: RunId)
    requires Turn(specs, sessions, f, w, b, trace, b', i) && w.Phase(i).Begun?
    requires !sessions[i].c.wait.Holding() ==> Ends(sessions[i].c, sessions[i].r, Protocol.Failed)
    ensures Taken(specs, sessions, f, w, trace, b', i)
  {
  }

  lemma GuardCall(specs: Protocol.Specs, sessions: map<RunId, Session>, f: Float64, w: Protocol.World, b: Backend,
                  trace: seq<Call>, b': Backend, i: RunId)
    requires Turn(specs, sessions, f, w, b, trace, b', i) && w.Phase(i).Holding?
    requires sessions[i].Inner(f) && Explains(specs(i), sessions[i])
    ensures Taken(specs, sessions, f, w, trace, b', i)
  {
    var ss := sessions[i];
    if ss.c.guard.Some? && ss.c.guard.value.Clean() {
      GuardsAgree(ss.plan, specs(i), i, b.trunk, ss.on.seen, ss.ev.at, f);
    }
  }

  lemma TerraformCall(specs: Protocol.Specs, sessions: map<RunId, Session>, f: Float64, w: Protocol.World, b: Backend,
                      trace: seq<Call>, b': Backend, i: RunId)
    requires Turn(specs, sessions, f, w, b, trace, b', i) && w.Phase(i).Running?
    requires sessions[i].Inner(f) && Explains(specs(i), sessions[i])
    ensures Taken(specs, sessions, f, w, trace, b', i)
  {
    PostAgrees(specs(i), sessions[i], b, f);
  }

  lemma EnterCall(specs: Protocol.Specs, sessions: map<RunId, Session>, f: Float64, w: Protocol.World, b: Backend,
                  trace: seq<Call>, b': Backend, i: RunId)
    requires Turn(specs, sessions, f, w, b, trace, b', i) && w.Phase(i).TerraformDone?
    requires sessions[i].Inner(f) && Explains(specs(i), sessions[i])
    ensures Taken(specs, sessions, f, w, trace, b', i)
  {
    SurprisesAgree(sessions[i].ev.work.post, sessions[i].plan.footprint);
  }

  lemma FetchCall(specs: Protocol.Specs, sessions: map<RunId, Session>, f: Float64, w: Protocol.World, b: Backend,
                  trace: seq<Call>, b': Backend, i: RunId)
    requires Turn(specs, sessions, f, w, b, trace, b', i) && w.Phase(i).Committing?
    requires Leads(i, sessions[i], w.Phase(i).attempts)
    ensures Taken(specs, sessions, f, w, trace, b', i)
  {
  }

  /** The round whose trunk read is done. */
  function RoundOf(ss: Session, p: Protocol.Phase): (r: Round)
    requires p.Fetched? && InRound(ss, p.post, p.attempts)
  {
    ss.c.commit.value.rounds[p.attempts]
  }

  lemma LandStep(specs: Protocol.Specs, f: Float64, w: Protocol.World, i: RunId, post: Rows, h: seq<Protocol.Version>)
    requires w.history != [] && Protocol.Lands(w, i) && w.Phase(i).post == post
    requires h ==
      w.history + [Protocol.Version(Overlay(w.history[|w.history| - 1].rows, post, specs(i).WriteGroups()), Some(i))]
    ensures var w' := Protocol.Next(specs, f, w, Protocol.Commit(i));
            && w'.history == h && w'.now == w.now && w'.held == w.held && w'.aborted == w.aborted
            && w'.Phase(i) == Protocol.Wrote(|w.history|)
  {
  }

  lemma LandCall(specs: Protocol.Specs, sessions: map<RunId, Session>, f: Float64, w: Protocol.World, b: Backend,
                 trace: seq<Call>, b': Backend, i: RunId)
    requires Turn(specs, sessions, f, w, b, trace, b', i) && w.Phase(i).Fetched?
    requires RoundOf(sessions[i], w.Phase(i)).Lands()
    requires Leads(i, sessions[i], w.Phase(i).attempts)
    requires Adds(i, sessions[i], b, b') ==> LandsAs(specs(i), i, sessions[i], b, b')
    ensures Taken(specs, sessions, f, w, trace, b', i)
  {
    LandStep(specs, f, w, i, sessions[i].Post(), View(b'.trunk));
  }

  lemma LoseCall(specs: Protocol.Specs, sessions: map<RunId, Session>, f: Float64, w: Protocol.World, b: Backend,
                 trace: seq<Call>, b': Backend, i: RunId)
    requires Turn(specs, sessions, f, w, b, trace, b', i) && w.Phase(i).Fetched?
    requires RoundOf(sessions[i], w.Phase(i)).Lost()
    requires Leads(i, sessions[i], w.Phase(i).attempts)
    ensures Taken(specs, sessions, f, w, trace, b', i)
  {
  }

  lemma BreakCall(specs: Protocol.Specs, sessions: map<RunId, Session>, f: Float64, w: Protocol.World, b: Backend,
                  trace: seq<Call>, b': Backend, i: RunId)
    requires Turn(specs, sessions, f, w, b, trace, b', i) && w.Phase(i).Fetched?
    requires !RoundOf(sessions[i], w.Phase(i)).Lands() && !RoundOf(sessions[i], w.Phase(i)).Lost()
    requires Leads(i, sessions[i], w.Phase(i).attempts)
    ensures Taken(specs, sessions, f, w, trace, b', i)
  {
  }

  lemma FinishCall(specs: Protocol.Specs, sessions: map<RunId, Session>, f: Float64, w: Protocol.World, b: Backend,
                   trace: seq<Call>, b': Backend, i: RunId)
    requires Turn(specs, sessions, f, w, b, trace, b', i) && w.Phase(i).Wrote?
    requires LookupLeads(sessions[i], w.Phase(i).serial)
    ensures Taken(specs, sessions, f, w, trace, b', i)
  {
  }
  lemma OwnCall(specs: Protocol.Specs, sessions: map<RunId, Session>, f: Float64, w: Protocol.World, b: Backend,
                trace: seq<Call>, b': Backend, i: RunId)
    requires Turn(specs, sessions, f, w, b, trace, b', i)
    requires sessions[i].Inner(f) && Explains(specs(i), sessions[i])
    ensures Taken(specs, sessions, f, w, trace, b', i)
  {
    match w.Phase(i)
    case NotStarted =>
      BeginCall(specs, sessions, f, w, b, trace, b', i);
    case Begun =>
      if !sessions[i].c.wait.Holding() {
        RefusalLeads(sessions[i], f);
      }
      AcquireCall(specs, sessions, f, w, b, trace, b', i);
    case Holding =>
      GuardCall(specs, sessions, f, w, b, trace, b', i);
    case Running(_) =>
      TerraformCall(specs, sessions, f, w, b, trace, b', i);
    case TerraformDone(_, _) =>
      EnterCall(specs, sessions, f, w, b, trace, b', i);
    case Committing(_, _, _, k) =>
      RoundLeads(i, sessions[i], f, k);
      FetchCall(specs, sessions, f, w, b, trace, b', i);
    case Fetched(_, _, _, _, _) =>
      WriteCall(specs, sessions, f, w, b, trace, b', i);
    case Wrote(n) =>
      LandingLeads(sessions[i], f, n);
      FinishCall(specs, sessions, f, w, b, trace, b', i);
    case _ =>
  }

  lemma WriteCall(specs: Protocol.Specs, sessions: map<RunId, Session>, f: Float64, w: Protocol.World, b: Backend,
                  trace: seq<Call>, b': Backend, i: RunId)
    requires Turn(specs, sessions, f, w, b, trace, b', i) && w.Phase(i).Fetched?
    requires sessions[i].Inner(f) && Explains(specs(i), sessions[i])
    ensures Taken(specs, sessions, f, w, trace, b', i)
  {
    var r := RoundOf(sessions[i], w.Phase(i));
    RoundLeads(i, sessions[i], f, w.Phase(i).attempts);
    if r.Lands() {
      if Adds(i, sessions[i], b, b') {
        LandingAgrees(specs(i), i, sessions[i], b, b', f);
      }
      LandCall(specs, sessions, f, w, b, trace, b', i);
    } else if r.Lost() {
      LoseCall(specs, sessions, f, w, b, trace, b', i);
    } else {
      BreakCall(specs, sessions, f, w, b, trace, b', i);
    }
  }

  /** The others stand where they stood. */
  lemma OtherStands(sessions: map<RunId, Session>, b: Backend, b': Backend, p: Protocol.Phase, j: RunId, rest: Rest)
    requires Stands(sessions, b, p, j, rest) && b.trunk <= b'.trunk
    requires j in b.fetched ==> j in b'.fetched && b'.fetched[j] == b.fetched[j]
    ensures Stands(sessions, b', p, j, rest)
  {
  }

  /** What the store does to what the runs share. */
  lemma ServedFrame(specs: Protocol.Specs, sessions: map<RunId, Session>, b: Backend, trace: seq<Call>, b': Backend)
    requires trace != [] && Serves(specs, sessions, b, trace, b')
    ensures b.trunk <= b'.trunk
    ensures forall j :: j in b.fetched && !trace[0].Of(j) ==> j in b'.fetched && b'.fetched[j] == b.fetched[j]
    ensures !(trace[0].Put? && trace[0].landed) ==> b'.trunk == b.trunk
  {
  }

  lemma OthersStand(specs: Protocol.Specs, sessions: map<RunId, Session>, f: Float64, w: Protocol.World, b: Backend,
                    trace: seq<Call>, b': Backend)
    requires Tracks(sessions, w, b, trace) && trace != [] && Serves(specs, sessions, b, trace, b')
    requires w.history != [] && Protocol.Enabled(specs, w, trace[0].Step())
    ensures var w' := Protocol.Next(specs, f, w, trace[0].Step());
            forall j: RunId {:trigger w'.Phase(j)} :: !trace[0].Of(j) ==>
              Stands(sessions, b', w'.Phase(j), j, Own(trace[1..], j))
  {
    var w' := Protocol.Next(specs, f, w, trace[0].Step());
    ServedFrame(specs, sessions, b, trace, b');
    forall j: RunId | !trace[0].Of(j) ensures Stands(sessions, b', w'.Phase(j), j, Own(trace[1..], j)) {
      OtherPhase(specs, f, w, trace[0], j);
      assert Stands(sessions, b, w.Phase(j), j, Own(trace, j));
      OtherStands(sessions, b, b', w.Phase(j), j, Own(trace, j));
    }
  }

  lemma OtherPhase(specs: Protocol.Specs, f: Float64, w: Protocol.World, call: Call, j: RunId)
    requires w.history != [] && Protocol.Enabled(specs, w, call.Step()) && !call.Of(j)
    ensures Protocol.Next(specs, f, w, call.Step()).Phase(j) == w.Phase(j)
  {
  }

  /** Renewals, aborts, releases and the clock. */
  lemma OutsideStep(specs: Protocol.Specs, sessions: map<RunId, Session>, f: Float64, w: Protocol.World, b: Backend,
                    trace: seq<Call>, b': Backend)
    requires Tracks(sessions, w, b, trace) && trace != [] && Serves(specs, sessions, b, trace, b')
    requires trace[0].Made? && (trace[0].s.Tick? || trace[0].s.Renew? || trace[0].s.Abort? || trace[0].s.Release?)
    ensures Protocol.Enabled(specs, w, trace[0].Step())
    ensures Mirrors(Protocol.Next(specs, f, w, trace[0].Step()), b') && b'.trunk == b.trunk
  {
    if !trace[0].s.Tick? {
      assert Stands(sessions, b, w.Phase(trace[0].s.i), trace[0].s.i, Own(trace, trace[0].s.i));
    }
  }

  lemma InsideStep(specs: Protocol.Specs, sessions: map<RunId, Session>, f: Float64, w: Protocol.World, b: Backend,
                   trace: seq<Call>, b': Backend, i: RunId)
    requires Tracks(sessions, w, b, trace) && trace != [] && trace[0].Of(i) && Serves(specs, sessions, b, trace, b')
    requires i in sessions ==> sessions[i].Inner(f) && Explains(specs(i), sessions[i])
    ensures i in sessions && Taken(specs, sessions, f, w, trace, b', i)
  {
    assert Stands(sessions, b, w.Phase(i), i, Own(trace, i));
    OwnCall(specs, sessions, f, w, b, trace, b', i);
  }

  /** One call of any run is one step of the protocol. */
  lemma OneCall(specs: Protocol.Specs, sessions: map<RunId, Session>, f: Float64, w: Protocol.World, b: Backend,
                trace: seq<Call>, b': Backend)
    requires Tracks(sessions, w, b, trace) && trace != [] && Serves(specs, sessions, b, trace, b')
    requires forall i :: i in sessions ==> sessions[i].Inner(f) && Explains(specs(i), sessions[i])
    ensures w.history != [] && Protocol.Enabled(specs, w, trace[0].Step())
    ensures Tracks(sessions, Protocol.Next(specs, f, w, trace[0].Step()), b', trace[1..])
  {
    var s := trace[0].Step();
    if s.Tick? || s.Renew? || s.Abort? || s.Release? {
      OutsideStep(specs, sessions, f, w, b, trace, b');
    } else {
      InsideStep(specs, sessions, f, w, b, trace, b', s.i);
    }
    OthersStand(specs, sessions, f, w, b, trace, b');
  }

  // ------------------------------------------------------------------- whole runs

  function Steps(trace: seq<Call>): seq<Protocol.Step> {
    seq(|trace|, k requires 0 <= k < |trace| => trace[k].Step())
  }

  lemma {:induction false} Simulate(specs: Protocol.Specs, sessions: map<RunId, Session>, f: Float64, bs: seq<Backend>,
                                    trace: seq<Call>, n: nat)
    returns (ws: seq<Protocol.World>)
    requires RanTogether(specs, sessions, f, bs, trace) && n <= |trace|
    ensures Protocol.IsRun(specs, f, ws, Steps(trace[..n]))
    ensures forall k :: 0 <= k <= n ==> Tracks(sessions, ws[k], bs[k], trace[k..])
  {
    if n == 0 {
      ws := [Protocol.World(bs[0].now, View(bs[0].trunk), map[], map[], bs[0].aborted)];
      assert trace[0..] == trace;
    } else {
      ws := Simulate(specs, sessions, f, bs, trace, n - 1);
      ws := Extend(specs, sessions, f, bs, trace, n - 1, ws);
    }
  }

  lemma RunGrows(specs: Protocol.Specs, f: Float64, ws: seq<Protocol.World>, steps: seq<Protocol.Step>,
                 s: Protocol.Step)
    requires Protocol.IsRun(specs, f, ws, steps)
    requires ws[|steps|].history != [] && Protocol.Enabled(specs, ws[|steps|], s)
    ensures Protocol.IsRun(specs, f, ws + [Protocol.Next(specs, f, ws[|steps|], s)], steps + [s])
  {
  }

  lemma Extend(specs: Protocol.Specs, sessions: map<RunId, Session>, f: Float64, bs: seq<Backend>, trace: seq<Call>,
               n: nat,
               ws: seq<Protocol.World>)
    returns (ws': seq<Protocol.World>)
    requires RanTogether(specs, sessions, f, bs, trace) && n < |trace|
    requires Protocol.IsRun(specs, f, ws, Steps(trace[..n])) && Tracks(sessions, ws[n], bs[n], trace[n..])
    ensures Protocol.IsRun(specs, f, ws', Steps(trace[..n + 1])) && ws' == ws + [ws'[n + 1]]
    ensures Tracks(sessions, ws'[n + 1], bs[n + 1], trace[n + 1..])
  {
    assert trace[n..][0] == trace[n] && trace[n..][1..] == trace[n + 1..];
    OneCall(specs, sessions, f, ws[n], bs[n], trace[n..], bs[n + 1]);
    assert Steps(trace[..n + 1]) == Steps(trace[..n]) + [trace[n].Step()];
    RunGrows(specs, f, ws, Steps(trace[..n]), trace[n].Step());
    ws' := ws + [Protocol.Next(specs, f, ws[n], trace[n].Step())];
  }

  /** Refinement.  Any number of `RunInner`s on one trunk, whatever their calls met with and in
      whatever order the store served them, are a run of the protocol: step by step the same
      clock, the same rows in the same versions by the same authors, the same reservations;
      and each run ends with the verdict it returned. */
  lemma InnerRunsFormOneRun(specs: Protocol.Specs, sessions: map<RunId, Session>, f: Float64, bs: seq<Backend>,
                            trace: seq<Call>)
    returns (ws: seq<Protocol.World>)
    requires RanTogether(specs, sessions, f, bs, trace)
    ensures Protocol.IsRun(specs, f, ws, Steps(trace))
    ensures forall k :: 0 <= k <= |trace| ==> Mirrors(ws[k], bs[k])
    ensures forall i :: i in sessions ==> Ends(sessions[i].c, sessions[i].r, ws[|trace|].Phase(i))
    ensures forall k :: 0 <= k < |trace| && trace[k].Step().Commit? ==>
              trace[k].Put? && (trace[k].landed <==> Protocol.Lands(ws[k], trace[k].i))
  {
    ws := Simulate(specs, sessions, f, bs, trace, |trace|);
    assert trace[..|trace|] == trace;
    forall i | i in sessions ensures Ends(sessions[i].c, sessions[i].r, ws[|trace|].Phase(i)) {
      assert Stands(sessions, bs[|trace|], ws[|trace|].Phase(i), i, Own(trace[|trace|..], i));
    }
    forall k | 0 <= k < |trace| && trace[k].Step().Commit?
      ensures trace[k].Put? && (trace[k].landed <==> Protocol.Lands(ws[k], trace[k].i))
    {
      WritesAgree(specs, sessions, ws[k], bs[k], trace[k..], bs[k + 1]);
    }
  }

  /** A write lands in the protocol exactly when it does in the store. */
  lemma WritesAgree(specs: Protocol.Specs, sessions: map<RunId, Session>, w: Protocol.World, b: Backend,
                    trace: seq<Call>, b': Backend)
    requires Tracks(sessions, w, b, trace) && trace != [] && Serves(specs, sessions, b, trace, b')
    requires trace[0].Step().Commit?
    ensures trace[0].Put? && (trace[0].landed <==> Protocol.Lands(w, trace[0].i))
  {
    var i := trace[0].Step().i;
    assert Stands(sessions, b, w.Phase(i), i, Own(trace, i));
  }

  /** Serializability and plan-to-commit stability of the runs themselves: if every write that
      lands finds the writer's leases unexpired, the rows of every document on the trunk are
      those of executing the committed plans one at a time, and every plan still held. */
  lemma InnerRunsAreSerializable(specs: Protocol.Specs, sessions: map<RunId, Session>, f: Float64, bs: seq<Backend>,
                                 trace: seq<Call>)
    requires RanTogether(specs, sessions, f, bs, trace)
    requires forall k :: 0 <= k < |trace| && trace[k].Put? && trace[k].landed ==>
               trace[k].i in bs[k].held && bs[k].now < bs[k].held[trace[k].i]
    ensures Protocol.Shielded(specs, Protocol.SoloResult) && Serializability.AllWellScoped(specs) ==>
              Serializability.SerialOutcome(specs, View(bs[0].trunk), View(bs[|trace|].trunk))
    ensures Protocol.Shielded(specs, Protocol.PlanBasis) ==>
              Serializability.PlansKept(specs, f, View(bs[0].trunk), View(bs[|trace|].trunk))
  {
    var ws := InnerRunsFormOneRun(specs, sessions, f, bs, trace);
    assert Protocol.Timely(ws, Steps(trace));
    if Protocol.Shielded(specs, Protocol.SoloResult) && Serializability.AllWellScoped(specs) {
      Serializability.Serializable(specs, f, ws, Steps(trace));
    }
    if Protocol.Shielded(specs, Protocol.PlanBasis) {
      Serializability.PlanToCommitStability(specs, f, ws, Steps(trace));
    }
  }

  // ------------------------------------------------------------- a run by itself

  /** The calls a run has left, as a trace of their own. */
  function TraceOf(rest: Rest): seq<Call> {
    match rest case Over => [] case Then(call, later) => [call] + TraceOf(later)
  }

  predicate AllOf(rest: Rest, i: RunId) {
    match rest case Over => true case Then(call, later) => call.Of(i) && AllOf(later, i)
  }

  lemma {:induction false} OwnOfTrace(rest: Rest, i: RunId, j: RunId)
    requires AllOf(rest, i)
    ensures Own(TraceOf(rest), j) == if j == i then rest else Over
  {
    if rest.Then? {
      assert TraceOf(rest)[1..] == TraceOf(rest.rest);
      OwnOfTrace(rest.rest, i, j);
    }
  }

  /** A run that is granted its reservations, finds the trunk to itself and meets no failure. */
  function LoneSession(i: RunId, trunk: seq<Doc>, plan: Plan, work: Work, own: State, applied: seq<string>): Session
    requires trunk != []
  {
    var n, h := |trunk|, As(i, trunk);
    var slice := trunk[n - 1].state.(resources := Keep(trunk[n - 1].state.resources, plan.footprint));
    var labour := Labour(true, Some(Fine), [], Some(Heartbeat.Stopped), Some(false), Some(true));
    var commit := Commit([Round(Fine, None, Some(Attempt(n, ApplyStore.Landed)))], Some(Fine));
    Session(h, Footing(h, n, applied), h + [Version(own, true)], plan,
            Calls(Waiting([Acquired], []), Some(GuardCalls(Fine, None)), Some(labour), Some(commit)),
            Evidence(n - 1, Some(slice), work), Done(n, applied))
  }

  lemma LoneFollows(i: RunId, trunk: seq<Doc>, plan: Plan, work: Work, own: State, applied: seq<string>,
                    f: Float64)
    requires FromTheStart(trunk) && !plan.useLock && plan.sourceSerial.None? && !HasSurprise(work.post, plan.footprint)
    requires Merges(trunk[|trunk| - 1].state, plan, work, own, applied)
    ensures var ss := LoneSession(i, trunk, plan, work, own, applied);
            Follows(plan, |trunk|, As(i, trunk), ss.c, ss.ev, f)
  {
    var h := As(i, trunk);
    assert GuardHolds(plan, h, |h| - 1, f) && h[|h| - 1].state == trunk[|h| - 1].state;
  }

  lemma LoneEffect(i: RunId, trunk: seq<Doc>, plan: Plan, work: Work, own: State, applied: seq<string>)
    requires FromTheStart(trunk) && !plan.useLock && plan.sourceSerial.None? && !HasSurprise(work.post, plan.footprint)
    requires Merges(trunk[|trunk| - 1].state, plan, work, own, applied)
    ensures var ss := LoneSession(i, trunk, plan, work, own, applied);
            Effect(ss.before, ss.on, ss.after, plan, ss.c, ss.ev)
  {
    var ss, n, h := LoneSession(i, trunk, plan, work, own, applied), |trunk|, As(i, trunk);
    assert h[n - 1].state == trunk[n - 1].state;
    assert CommitsOn(h, ss.after, plan, work, n, n, applied);
  }

  lemma LoneSessionIsInner(i: RunId, trunk: seq<Doc>, plan: Plan, work: Work, own: State, applied: seq<string>,
                           f: Float64)
    requires FromTheStart(trunk) && !plan.useLock && plan.sourceSerial.None? && !HasSurprise(work.post, plan.footprint)
    requires Merges(trunk[|trunk| - 1].state, plan, work, own, applied)
    ensures LoneSession(i, trunk, plan, work, own, applied).Inner(f)
  {
    LoneFollows(i, trunk, plan, work, own, applied, f);
    LoneEffect(i, trunk, plan, work, own, applied);
  }

  function LoneTrace(i: RunId): seq<Call> {
    [Made(Protocol.Begin(i)), Made(Protocol.Acquire(i)), Made(Protocol.Guard(i)), Made(Protocol.Terraform(i)),
     Made(Protocol.EnterCommit(i, false)), Made(Protocol.Fetch(i)), Put(i, true), Made(Protocol.Finish(i, true))]
  }

  /** The calls of a trace from the `n`th on, read backwards into what is left to make. */
  predicate Leaves(trace: seq<Call>, n: nat, rest: Rest, i: RunId) {
    n <= |trace| && TraceOf(rest) == trace[n..] && AllOf(rest, i)
  }

  lemma Before(trace: seq<Call>, n: nat, rest: Rest, i: RunId)
    requires n < |trace| && Leaves(trace, n + 1, rest, i) && trace[n].Of(i)
    ensures Leaves(trace, n, Then(trace[n], rest), i)
  {
  }

  lemma LoneRound(i: RunId, m: Commit)
    requires m.lookup == Some(Fine) && |m.rounds| == 1 && m.rounds[0].read.Fine? && m.rounds[0].Lands()
    ensures Leaves(LoneTrace(i), 5, RoundsFrom(i, m, 0), i)
  {
    var trace := LoneTrace(i);
    Before(trace, 7, Over, i);
    assert RoundsFrom(i, m, 1) == Then(trace[7], Over);
    Before(trace, 6, RoundsFrom(i, m, 1), i);
    assert AfterFetch(i, m, 0) == Then(trace[6], RoundsFrom(i, m, 1));
    Before(trace, 5, AfterFetch(i, m, 0), i);
  }

  lemma LoneScript(i: RunId, c: Calls)
    requires c.wait.Holding() && c.guard.Some? && c.guard.value.Clean() && c.labour.Some? && c.labour.value.Clean()
    requires c.commit.Some? && c.commit.value.lookup == Some(Fine) && |c.commit.value.rounds| == 1
    requires c.commit.value.rounds[0].read.Fine? && c.commit.value.rounds[0].Lands()
    ensures Leaves(LoneTrace(i), 0, Script(i, c), i)
  {
    var trace := LoneTrace(i);
    LoneRound(i, c.commit.value);
    Before(trace, 4, RoundsFrom(i, c.commit.value, 0), i);
    assert AfterTerraform(i, c) == Then(trace[4], RoundsFrom(i, c.commit.value, 0));
    Before(trace, 3, AfterTerraform(i, c), i);
    assert AfterGuard(i, c) == Then(trace[3], AfterTerraform(i, c));
    Before(trace, 2, AfterGuard(i, c), i);
    assert AfterGrant(i, c) == Then(trace[2], AfterGuard(i, c));
    Before(trace, 1, AfterGrant(i, c), i);
    assert AfterBegin(i, c) == Then(trace[1], AfterGrant(i, c));
    Before(trace, 0, AfterBegin(i, c), i);
  }

  function LoneBackends(i: RunId, lease: nat, trunk: seq<Doc>, own: State): seq<Backend> {
    var b0 := Backend(0, trunk, map[], {}, map[]);
    var b1 := b0.(held := b0.held[i := lease]);
    var b2 := b1.(fetched := b1.fetched[i := |trunk|]);
    var b3 := b2.(trunk := trunk + [Doc(own, Some(i))]);
    [b0, b0, b1, b1, b1, b1, b2, b3, b3]
  }

  lemma LoneCallsAreServed(specs: Protocol.Specs, i: RunId, trunk: seq<Doc>, plan: Plan, work: Work, own: State,
                           applied: seq<string>)
    requires trunk != []
    ensures var ss := LoneSession(i, trunk, plan, work, own, applied);
            Served(specs, map[i := ss], LoneBackends(i, specs(i).lease, trunk, own), LoneTrace(i))
  {
    var ss, trace := LoneSession(i, trunk, plan, work, own, applied), LoneTrace(i);
    var bs := LoneBackends(i, specs(i).lease, trunk, own);
    assert As(i, bs[7].trunk) == ss.after;
    forall k | 0 <= k < |trace| ensures Serves(specs, map[i := ss], bs[k], trace[k..], bs[k + 1]) {
      assert trace[k..][0] == trace[k];
    }
  }

  /** Such a run is served: what is assumed of runs together can be met. */
  lemma LoneRunIsServed(specs: Protocol.Specs, f: Float64, i: RunId, trunk: seq<Doc>,
                        plan: Plan, work: Work, own: State, applied: seq<string>)
    requires FromTheStart(trunk) && !plan.useLock && plan.sourceSerial.None? && !HasSurprise(work.post, plan.footprint)
    requires forall k :: 0 <= k < |trunk| ==> trunk[k].author == None
    requires Merges(trunk[|trunk| - 1].state, plan, work, own, applied)
    requires Explains(specs(i), LoneSession(i, trunk, plan, work, own, applied))
    ensures RanTogether(specs, map[i := LoneSession(i, trunk, plan, work, own, applied)], f,
                        LoneBackends(i, specs(i).lease, trunk, own), LoneTrace(i))
  {
    LoneSessionIsInner(i, trunk, plan, work, own, applied, f);
    LoneCallsAreServed(specs, i, trunk, plan, work, own, applied);
    var c := LoneSession(i, trunk, plan, work, own, applied).c;
    LoneScript(i, c);
    var rest := Script(i, c);
    assert TraceOf(rest) == LoneTrace(i);
    forall j ensures Own(LoneTrace(i), j) == if j == i then rest else Over {
      OwnOfTrace(rest, i, j);
    }
  }
}
