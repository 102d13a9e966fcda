/** The parallel-apply commit protocol of internal/apply/orchestrator.go as a step system
    over any number of runs sharing one trunk.

    The store is assumed to do what the orchestrator's comments rely on: versions are
    append-only, a write lands exactly when its base serial is current, reservations are
    granted all or nothing against the unexpired reservations of other runs, and a renewal
    extends only a lease that has not lapsed. */
module ApplyProtocol {
  import opened Json
  import opened TrunkState
  import opened Merge
  import opened Staleness

  type RunId = nat

  datatype Mode = Read | Write

  const MAX_COMMIT_RETRIES := 8

  /** What a run brings along: its plan spec, and Terraform as a function of the slice. */
  datatype Spec = Spec(
    writeSet: seq<string>, readSet: seq<string>, reservations: map<string, Mode>,
    footprint: set<string>, sourceSerial: Option<int>, lease: nat, terraform: Rows -> Rows)
  {
    function WriteGroups(): set<string> { Groups(writeSet) }
    function ReadGroups(): set<string> { Groups(readSet) }
    function Touched(): set<string> { WriteGroups() + ReadGroups() }

    /** Post-apply rows when the slice is cut from `rows`. */
    function PostApply(rows: Rows): Rows { terraform(Restrict(rows, footprint)) }

    /** The rows Terraform writes depend only on the rows this run reads or writes. */
    ghost predicate WellScoped() {
      forall m, n :: (forall g :: g in Touched() ==> At(m, g) == At(n, g)) ==>
        forall g :: g in WriteGroups() ==> At(terraform(m), g) == At(terraform(n), g)
    }

    /** Executing the run alone on `rows`. */
    function Alone(rows: Rows): Rows { Overlay(rows, PostApply(rows), WriteGroups()) }

    predicate Guarded() { sourceSerial.Some? && sourceSerial.value > 0 }

    /** The groups whose rows must not change under the run, for a given concern. */
    function ReliesOn(c: Concern): set<string> {
      match c
      case SoloResult => if WriteGroups() == {} then {} else Touched() * footprint
      case PlanBasis => if Guarded() then ReadGroups() else {}
    }
  }

  /** What a run wants of the runs beside it: that its rows come out as if it had run alone,
      or that the read set it was planned against still holds when it commits. */
  datatype Concern = SoloResult | PlanBasis

  type Specs = RunId -> Spec

  /** The reservation matrix: same address, not both reads. */
  predicate Conflict(r: map<string, Mode>, s: map<string, Mode>) {
    exists a :: a in r && a in s && (r[a].Write? || s[a].Write?)
  }

  datatype Version = Version(rows: Rows, author: Option<RunId>)

  datatype Phase =
    | NotStarted
    | Begun
    | Holding
    | Running(cut: nat)
    | TerraformDone(cut: nat, post: Rows)
    | Committing(cut: nat, post: Rows, entered: nat, attempts: nat)
    | Fetched(cut: nat, post: Rows, entered: nat, attempts: nat, base: nat)
    | Wrote(serial: nat)
    | Committed(serial: nat)
    | Unrecorded(serial: nat)
    | Exhausted(entered: nat, gaveUp: nat)
    | Failed
  {
    predicate Finished() { Committed? || Unrecorded? || Exhausted? || Failed? }
    predicate Sliced() { Running? || TerraformDone? || Committing? || Fetched? }
    predicate HasPost() { TerraformDone? || Committing? || Fetched? }
  }

  /** `history[s]` is the version with serial `s`; `held[i]` is when run i's leases lapse. */
  datatype World = World(
    now: nat, history: seq<Version>, held: map<RunId, nat>, phases: map<RunId, Phase>, aborted: set<RunId>)
  {
    function Phase(i: RunId): Phase { if i in phases then phases[i] else NotStarted }
    function Go(i: RunId, p: Phase): World { this.(phases := phases[i := p]) }
    predicate Protected(i: RunId) { i in held && now < held[i] }
    function Current(): int { |history| - 1 }
    function Trunk(): Rows requires history != [] { history[|history| - 1].rows }
  }

  datatype Step =
    | Begin(i: RunId)
    | Acquire(i: RunId)
    | Renew(i: RunId)
    | Guard(i: RunId)
    | Terraform(i: RunId)
    | EnterCommit(i: RunId, statusRead: bool)
    | Fetch(i: RunId)
    | Commit(i: RunId)
    | Finish(i: RunId, versionFound: bool)
    | Release(i: RunId)
    | Fail(i: RunId)
    | Abort(i: RunId)
    | Tick(d: nat)

  /** The plan-staleness guard of orchestrator.go:202-221 on the current trunk. */
  predicate GuardPasses(spec: Spec, h: seq<Version>, f: Float64)
    requires h != []
  {
    spec.Guarded() ==>
      var s := spec.sourceSerial.value;
      && s <= |h| - 1
      && (s < |h| - 1 ==> Unchanged(h[s].rows, h[|h| - 1].rows, spec.ReadGroups(), f))
  }

  predicate Enabled(specs: Specs, w: World, s: Step) {
    match s
    case Begin(i) => w.Phase(i).NotStarted?
    case Acquire(i) =>
      && w.Phase(i).Begun?
      && forall j :: j in w.held && j != i && w.Protected(j) ==>
                       !Conflict(specs(i).reservations, specs(j).reservations)
    case Renew(i) => (w.Phase(i).Holding? || w.Phase(i).Running?) && w.Protected(i)
    case Guard(i) => w.Phase(i).Holding?
    case Terraform(i) => w.Phase(i).Running? && w.Phase(i).cut < |w.history|
    case EnterCommit(i, _) => w.Phase(i).TerraformDone?
    case Fetch(i) => w.Phase(i).Committing?
    case Commit(i) => w.Phase(i).Fetched?
    case Finish(i, _) => w.Phase(i).Wrote?
    case Release(i) => w.Phase(i).Finished()
    case Fail(i) => w.Phase(i).Begun? || w.Phase(i).Holding? || w.Phase(i).Sliced()
    case Abort(i) => !w.Phase(i).NotStarted? && !w.Phase(i).Finished()
    case Tick(_) => true
  }

  /** The write lands: the base serial is still current. */
  predicate Lands(w: World, i: RunId) {
    w.Phase(i).Fetched? && w.Phase(i).base == w.Current()
  }

  function Next(specs: Specs, f: Float64, w: World, s: Step): World
    requires w.history != [] && Enabled(specs, w, s)
  {
    match s
    case Begin(i) => w.Go(i, Begun)
    case Acquire(i) => w.Go(i, Holding).(held := w.held[i := w.now + specs(i).lease])
    case Renew(i) => w.(held := w.held[i := w.now + specs(i).lease])
    case Guard(i) => w.Go(i, if GuardPasses(specs(i), w.history, f) then Running(w.Current()) else Failed)
    case Terraform(i) =>
      var cut := w.Phase(i).cut;
      w.Go(i, TerraformDone(cut, specs(i).PostApply(w.history[cut].rows)))
    case EnterCommit(i, statusRead) =>
      var p := w.Phase(i);
      var goesOn := !(statusRead && i in w.aborted) && p.post.Keys <= specs(i).footprint;
      w.Go(i, if goesOn then Committing(p.cut, p.post, w.Current(), 0) else Failed)
    case Fetch(i) =>
      var p := w.Phase(i);
      w.Go(i, Fetched(p.cut, p.post, p.entered, p.attempts, w.Current()))
    case Commit(i) =>
      var p := w.Phase(i);
      if Lands(w, i) then
        w.Go(i, Wrote(|w.history|))
         .(history := w.history + [Version(Overlay(w.Trunk(), p.post, specs(i).WriteGroups()), Some(i))])
      else if p.attempts + 1 < MAX_COMMIT_RETRIES then
        w.Go(i, Committing(p.cut, p.post, p.entered, p.attempts + 1))
      else
        w.Go(i, Exhausted(p.entered, w.Current()))
    case Finish(i, found) =>
      var serial := w.Phase(i).serial;
      w.Go(i, if found then Committed(serial) else Unrecorded(serial))
    case Release(i) => w.(held := w.held - {i})
    case Fail(i) => w.Go(i, Failed)
    case Abort(i) => w.(aborted := w.aborted + {i}, held := w.held - {i})
    case Tick(d) => w.(now := w.now + d)
  }

  /** No run has started; the trunk has at least the version every state begins with. */
  predicate Initial(w: World) {
    && w.history != [] && w.held == map[] && w.phases == map[]
    && forall k :: 0 <= k < |w.history| ==> w.history[k].author == None
  }

  /** A finite run of the system: `ws[k]` steps to `ws[k + 1]` by `steps[k]`. */
  ghost predicate IsRun(specs: Specs, f: Float64, ws: seq<World>, steps: seq<Step>) {
    && |ws| == |steps| + 1
    && Initial(ws[0])
    && forall k :: 0 <= k < |steps| ==>
         ws[k].history != [] && Enabled(specs, ws[k], steps[k]) && ws[k + 1] == Next(specs, f, ws[k], steps[k])
  }

  /** Every write that lands does so while the writer's leases are unexpired and unreleased.
      The heartbeat has stopped by then, so this is about the time the commit loop takes. */
  predicate TimelyStep(w: World, s: Step) {
    s.Commit? && Lands(w, s.i) ==> w.Protected(s.i)
  }

  /** One step of a timely run. */
  lemma StepOf(specs: Specs, f: Float64, ws: seq<World>, steps: seq<Step>, k: nat)
    requires IsRun(specs, f, ws, steps) && k < |steps|
    ensures ws[k].history != [] && Enabled(specs, ws[k], steps[k]) && ws[k + 1] == Next(specs, f, ws[k], steps[k])
    ensures Timely(ws, steps) ==> TimelyStep(ws[k], steps[k])
  {
  }

  ghost predicate Timely(ws: seq<World>, steps: seq<Step>)
    requires |ws| == |steps| + 1
  {
    forall k :: 0 <= k < |steps| ==> TimelyStep(ws[k], steps[k])
  }

  /** Whenever one run writes a group that another relies on, the reservation matrix sees a
      conflict between the two. */
  ghost predicate Shielded(specs: Specs, c: Concern) {
    forall i, j :: i != j && specs(i).WriteGroups() * specs(j).ReliesOn(c) != {} ==>
      Conflict(specs(i).reservations, specs(j).reservations)
  }

  /** Reservations taken on groups: every write group for writing, every read group at all. */
  predicate ReservesGroups(spec: Spec) {
    && (forall g :: g in spec.WriteGroups() ==> g in spec.reservations && spec.reservations[g].Write?)
    && (forall g :: g in spec.ReadGroups() ==> g in spec.reservations)
  }

  lemma GroupReservationsShield(specs: Specs, c: Concern)
    requires forall i :: ReservesGroups(specs(i))
    ensures Shielded(specs, c)
  {
    forall i, j | i != j && specs(i).WriteGroups() * specs(j).ReliesOn(c) != {}
      ensures Conflict(specs(i).reservations, specs(j).reservations)
    {
      var g :| g in specs(i).WriteGroups() * specs(j).ReliesOn(c);
      assert ReservesGroups(specs(i)) && ReservesGroups(specs(j));
      assert g in specs(i).reservations && g in specs(j).reservations && specs(i).reservations[g].Write?;
    }
  }

  /** `buildReservations` (internal/plan/spec.go:128): one entry per read-set address, for
      writing when the address is in the write set. */
  function BuildReservations(writeSet: seq<string>, readSet: seq<string>): map<string, Mode> {
    map a | a in readSet :: if a in writeSet then Write else Read
  }

  /** Which built reservations stand in one another's way: those for a common address that one
      of the two writes. */
  lemma BuiltReservationsConflictIff(w: seq<string>, r: seq<string>, w': seq<string>, r': seq<string>)
    ensures Conflict(BuildReservations(w, r), BuildReservations(w', r')) <==>
              exists a :: a in r && a in r' && (a in w || a in w')
  {
    var x, y := BuildReservations(w, r), BuildReservations(w', r');
    if a :| a in r && a in r' && (a in w || a in w') {
      assert a in x && a in y && (x[a].Write? || y[a].Write?);
    }
    if Conflict(x, y) {
      var a :| a in x && a in y && (x[a].Write? || y[a].Write?);
      assert a in r && a in r';
    }
  }

  /** A spec whose addresses carry no instance index, and whose read set covers its write
      set as `CloseReadSet` promises, reserves whole groups. */
  lemma BuiltReservationsReserveGroups(spec: Spec)
    requires spec.reservations == BuildReservations(spec.writeSet, spec.readSet)
    requires forall a :: a in spec.writeSet ==> a in spec.readSet
    requires forall a :: a in spec.readSet ==> StripIndex(a) == a
    ensures ReservesGroups(spec)
  {
  }

  // ------------------------------------------------------------ invariants

  predicate PhaseSane(spec: Spec, h: seq<Version>, p: Phase) {
    && (p.Sliced() ==> p.cut < |h|)
    && (p.Fetched? ==> p.base < |h|)
    && (p.HasPost() && p.cut < |h| ==> p.post == spec.PostApply(h[p.cut].rows))
  }

  ghost predicate Sane(specs: Specs, w: World) {
    && w.history != []
    && forall i {:trigger w.Phase(i)} :: PhaseSane(specs(i), w.history, w.Phase(i))
  }

  /** Two runs whose leases are both alive do not conflict. */
  ghost predicate Exclusive(specs: Specs, w: World) {
    forall i, j {:trigger w.Protected(i), w.Protected(j)} ::
      i != j && w.Protected(i) && w.Protected(j) ==> !Conflict(specs(i).reservations, specs(j).reservations)
  }

  /** While its leases live, the rows a sliced run relies on stay as they were in its slice. */
  ghost predicate Frozen(specs: Specs, c: Concern, w: World)
    requires Sane(specs, w)
  {
    forall i, g {:trigger w.Phase(i), g in specs(i).ReliesOn(c)} ::
      w.Phase(i).Sliced() && w.Protected(i) && g in specs(i).ReliesOn(c) ==>
        At(w.history[w.Phase(i).cut].rows, g) == At(w.Trunk(), g)
  }

  predicate Authored(p: Phase, k: nat) {
    (p.Wrote? || p.Committed? || p.Unrecorded?) && p.serial == k
  }

  /** A version names its author, and the author remembers that one serial. */
  ghost predicate OneVersionEach(w: World) {
    && (forall k {:trigger w.history[k]} :: 0 <= k < |w.history| && w.history[k].author.Some? ==>
          Authored(w.Phase(w.history[k].author.value), k))
    && (forall i: RunId {:trigger w.Phase(i)} ::
          w.Phase(i).Wrote? || w.Phase(i).Committed? || w.Phase(i).Unrecorded? ==>
          w.Phase(i).serial < |w.history| && w.history[w.Phase(i).serial].author == Some(i))
  }

  lemma SaneStep(specs: Specs, f: Float64, w: World, s: Step)
    requires Sane(specs, w) && Enabled(specs, w, s)
    ensures Sane(specs, Next(specs, f, w, s))
  {
    var w' := Next(specs, f, w, s);
    forall i ensures PhaseSane(specs(i), w'.history, w'.Phase(i)) {
      assert PhaseSane(specs(i), w.history, w.Phase(i));
      assert w'.Phase(i) == w.Phase(i) || (!s.Tick? && s.i == i);
    }
  }

  lemma ExclusiveStep(specs: Specs, f: Float64, w: World, s: Step)
    requires Sane(specs, w) && Exclusive(specs, w) && Enabled(specs, w, s)
    ensures Exclusive(specs, Next(specs, f, w, s))
  {
    var w' := Next(specs, f, w, s);
    forall i, j | i != j && w'.Protected(i) && w'.Protected(j)
      ensures !Conflict(specs(i).reservations, specs(j).reservations)
    {
      if s.Acquire? && (s.i == i || s.i == j) {
        var other := if s.i == i then j else i;
        assert w.Protected(other);
        ConflictSymmetric(specs(i).reservations, specs(j).reservations);
      } else {
        assert w.Protected(i) && w.Protected(j);
      }
    }
  }

  lemma ConflictSymmetric(r: map<string, Mode>, s: map<string, Mode>)
    ensures Conflict(r, s) <==> Conflict(s, r)
  {
  }

  /** A step moves only the run it is about, and only a landing write adds a version. */
  lemma StepFrame(specs: Specs, f: Float64, w: World, s: Step)
    requires w.history != [] && Enabled(specs, w, s)
    ensures forall j: RunId {:trigger Next(specs, f, w, s).Phase(j)} ::
              s.Tick? || j != s.i ==> Next(specs, f, w, s).Phase(j) == w.Phase(j)
    ensures Next(specs, f, w, s).history ==
              if s.Commit? && Lands(w, s.i)
              then w.history + [Version(Overlay(w.Trunk(), w.Phase(s.i).post, specs(s.i).WriteGroups()), Some(s.i))]
              else w.history
  {
  }

  /** A timely write by another run leaves the rows a protected run relies on as they are. */
  lemma OthersWriteElsewhere(specs: Specs, c: Concern, w: World, writer: RunId, i: RunId, g: string)
    requires Shielded(specs, c) && Sane(specs, w) && Exclusive(specs, w)
    requires writer != i && w.Protected(writer) && w.Protected(i) && Lands(w, writer) && g in specs(i).ReliesOn(c)
    ensures At(Overlay(w.Trunk(), w.Phase(writer).post, specs(writer).WriteGroups()), g) == At(w.Trunk(), g)
  {
    CommitAvoids(specs, c, writer, i, g);
    OverlayAt(w.Trunk(), w.Phase(writer).post, specs(writer).WriteGroups(), g);
  }

  lemma FrozenStep(specs: Specs, c: Concern, f: Float64, w: World, s: Step)
    requires Shielded(specs, c)
    requires Sane(specs, w) && Exclusive(specs, w) && Frozen(specs, c, w)
    requires Enabled(specs, w, s) && TimelyStep(w, s)
    requires Sane(specs, Next(specs, f, w, s))
    ensures Frozen(specs, c, Next(specs, f, w, s))
  {
    var w' := Next(specs, f, w, s);
    StepFrame(specs, f, w, s);
    forall i, g | w'.Phase(i).Sliced() && w'.Protected(i) && g in specs(i).ReliesOn(c)
      ensures At(w'.history[w'.Phase(i).cut].rows, g) == At(w'.Trunk(), g)
    {
      if s.Guard? && s.i == i {
      } else {
        StaysFrozen(specs, c, f, w, s, i, g);
      }
    }
  }

  /** A run is sliced after a step only if it was so before, or just guarded. */
  lemma SlicedBefore(specs: Specs, f: Float64, w: World, s: Step, i: RunId)
    requires w.history != [] && Enabled(specs, w, s) && !(s.Guard? && s.i == i)
    requires Next(specs, f, w, s).Phase(i).Sliced()
    ensures w.Phase(i).Sliced() && Next(specs, f, w, s).Phase(i).cut == w.Phase(i).cut
  {
  }

  lemma WasSliced(specs: Specs, f: Float64, w: World, s: Step, i: RunId)
    requires w.history != [] && Enabled(specs, w, s) && !(s.Guard? && s.i == i)
    requires Next(specs, f, w, s).Phase(i).Sliced() && Next(specs, f, w, s).Protected(i)
    ensures w.Phase(i).Sliced() && w.Protected(i) && Next(specs, f, w, s).Phase(i).cut == w.Phase(i).cut
  {
    SlicedBefore(specs, f, w, s, i);
  }

  lemma StaysFrozen(specs: Specs, c: Concern, f: Float64, w: World, s: Step, i: RunId, g: string)
    requires Shielded(specs, c)
    requires Sane(specs, w) && Exclusive(specs, w) && Frozen(specs, c, w)
    requires Enabled(specs, w, s) && TimelyStep(w, s) && !(s.Guard? && s.i == i)
    requires var w' := Next(specs, f, w, s);
             w'.Phase(i).Sliced() && w'.Protected(i) && g in specs(i).ReliesOn(c) && w'.Phase(i).cut < |w'.history|
    ensures var w' := Next(specs, f, w, s);
            At(w'.history[w'.Phase(i).cut].rows, g) == At(w'.history[|w'.history| - 1].rows, g)
  {
    var w' := Next(specs, f, w, s);
    StepFrame(specs, f, w, s);
    WasSliced(specs, f, w, s, i);
    assert PhaseSane(specs(i), w.history, w.Phase(i));
    assert At(w.history[w.Phase(i).cut].rows, g) == At(w.Trunk(), g);
    if s.Commit? && Lands(w, s.i) {
      OthersWriteElsewhere(specs, c, w, s.i, i, g);
    }
  }

  lemma CommitAvoids(specs: Specs, c: Concern, writer: RunId, other: RunId, g: string)
    requires Shielded(specs, c) && writer != other
    requires !Conflict(specs(writer).reservations, specs(other).reservations)
    requires g in specs(other).ReliesOn(c)
    ensures g !in specs(writer).WriteGroups()
  {
    assert g in specs(writer).WriteGroups() ==> g in specs(writer).WriteGroups() * specs(other).ReliesOn(c);
  }

  lemma OneVersionEachStep(specs: Specs, f: Float64, w: World, s: Step)
    requires Sane(specs, w) && OneVersionEach(w) && Enabled(specs, w, s)
    ensures OneVersionEach(Next(specs, f, w, s))
  {
    var w' := Next(specs, f, w, s);
    StepFrame(specs, f, w, s);
    forall k | 0 <= k < |w'.history| && w'.history[k].author.Some?
      ensures Authored(w'.Phase(w'.history[k].author.value), k)
    {
      if k < |w.history| {
        var i := w.history[k].author.value;
        assert w'.history[k] == w.history[k] && Authored(w.Phase(i), k);
        if !s.Tick? && s.i == i { AuthorKeeps(specs, f, w, s, k); }
      }
    }
    forall i: RunId | w'.Phase(i).Wrote? || w'.Phase(i).Committed? || w'.Phase(i).Unrecorded?
      ensures w'.Phase(i).serial < |w'.history| && w'.history[w'.Phase(i).serial].author == Some(i)
    {
      assert w.Phase(i) == w.Phase(i);
    }
  }

  /** The author of a version never forgets its serial. */
  lemma AuthorKeeps(specs: Specs, f: Float64, w: World, s: Step, k: nat)
    requires w.history != [] && Enabled(specs, w, s) && !s.Tick? && Authored(w.Phase(s.i), k)
    ensures Authored(Next(specs, f, w, s).Phase(s.i), k)
  {
  }

  ghost predicate Inv(specs: Specs, c: Concern, w: World) {
    Sane(specs, w) && Exclusive(specs, w) && Frozen(specs, c, w) && OneVersionEach(w)
  }

  lemma InvStep(specs: Specs, c: Concern, f: Float64, w: World, s: Step)
    requires Inv(specs, c, w) && Shielded(specs, c) && Enabled(specs, w, s) && TimelyStep(w, s)
    ensures Inv(specs, c, Next(specs, f, w, s))
  {
    SaneStep(specs, f, w, s);
    ExclusiveStep(specs, f, w, s);
    FrozenStep(specs, c, f, w, s);
    OneVersionEachStep(specs, f, w, s);
  }
}
