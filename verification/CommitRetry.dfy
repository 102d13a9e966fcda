/** The optimistic commit loop (internal/apply/orchestrator.go:325-413). */
module CommitRetry {
  import opened Ordering
  import opened Json
  import opened TrunkState
  import opened Merge
  import opened ApplyStore
  import ApplyProtocol
  import StateEngineDelta

  const MAX_COMMIT_RETRIES := ApplyProtocol.MAX_COMMIT_RETRIES

  datatype Plan = Plan(
    writeSet: seq<string>, readSet: seq<string>, footprint: set<string>, wanted: nat,
    sourceSerial: Option<int>, waitBudget: int, useLock: bool)

  /** The exact writes and deletes of the validation replan. */
  datatype Intent = Intent(writes: seq<string>, deletes: seq<string>)

  /** What Terraform left: the document and, for the native path, the intent. */
  datatype Work = Work(post: State, intent: Intent)

  /** One pass of the loop: the trunk is read again, on the native path a delta is built, and
      a write is tried. */
  datatype Round = Round(read: Fault, delta: Option<bool>, write: Option<Attempt>)
  {
    function Events(): seq<Event> {
      [TrunkRead(read)]
      + DeltaEvents(delta)
      + (if write.Some? then [WriteTried(write.value.serial, write.value.result)] else [])
    }

    predicate Lost() {
      write.Some? && write.value.result.SerialConflict?
    }

    predicate Lands() {
      write.Some? && write.value.result.Landed?
    }

    predicate Cancelled() {
      || (read == Broke(true) && write.None?)
      || (write.Some? && write.value.result == WriteError(true))
    }
  }

  function DeltaEvents(delta: Option<bool>): seq<Event> {
    if delta.Some? then [DeltaBuilt(delta.value)] else []
  }

  datatype Attempt = Attempt(serial: int, result: WriteResult)

  /** `validateTrustedStateEngineIntent` accepts (internal/apply/state_engine_delta.go:55-95). */
  predicate Trusted(plan: Plan, intent: Intent) {
    && Groups(plan.writeSet) == Groups(intent.writes)
    && forall a :: a in intent.deletes && a != "" ==> a in Groups(intent.writes)
  }

  /** Which calls a round makes: the native path builds a delta exactly for a trusted intent;
      a write is tried exactly when nothing before it failed. */
  predicate InOrder(plan: Plan, work: Work, r: Round) {
    && (r.delta.Some? <==> r.read.Fine? && plan.useLock && Trusted(plan, work.intent))
    && (r.write.Some? <==> r.read.Fine? && (plan.useLock ==> r.delta == Some(true)))
  }

  /** The last version of `h` is this run's commit on top of the versions `seen`.  The round
      that wrote it had read the trunk when there were `read` versions, and records the serial
      after that.  On the merge path nothing landed in between, and the version is the merge of
      the post-apply document over the newest one; the applied addresses are the write groups
      found on either side.  On the native path the store builds the document, on whatever is
      newest, and the applied addresses are those of the intent. */
  ghost predicate CommitsOn(seen: seq<Version>, h: seq<Version>, plan: Plan, work: Work,
                            read: nat, serial: int, applied: seq<string>) {
    var at := |seen|;
    && 0 < read <= at && |h| == at + 1 && seen <= h
    && h[at].mine && h[at].state.serial == h[at - 1].state.serial + 1
    && serial == seen[read - 1].state.serial + 1
    && (plan.useLock ==> applied == work.intent.writes)
    && (!plan.useLock ==> read == at && Merges(h[at - 1].state, plan, work, h[at].state, applied))
  }

  /** `doc` is what the merge path writes on `base`, and `applied` what it reports. */
  ghost predicate Merges(base: State, plan: Plan, work: Work, doc: State, applied: seq<string>) {
    && IsMerge(base, work.post, Groups(plan.writeSet), doc)
    && Ascending(applied)
    && Elements(applied) == Applied(Index(base.resources), Index(work.post.resources), Groups(plan.writeSet))
  }

  /** Some version with this serial is this run's. */
  ghost predicate Owns(h: seq<Version>, serial: int) {
    exists k :: 0 <= k < |h| && h[k].state.serial == serial && h[k].mine
  }

  /** Whose version a run records.  Of a run that had written nothing before, the recorded
      serial is its own version if and only if no version landed between the trunk read and
      the write: always on the merge path, where the write would not have landed otherwise. */
  lemma RecordedSerialIsOwnIff(before: seq<Version>, seen: seq<Version>, h: seq<Version>, plan: Plan, work: Work,
                               read: nat, serial: int, applied: seq<string>)
    requires Contiguous(h) && OthersOnly(before, seen) && |before| <= read
    requires forall k :: 0 <= k < |before| ==> !before[k].mine
    requires CommitsOn(seen, h, plan, work, read, serial, applied)
    ensures Owns(h, serial) <==> read == |seen|
    ensures !plan.useLock ==> Owns(h, serial)
    ensures read < |seen| ==> h[read].state.serial == serial && !h[read].mine
  {
    assert h[read].state.serial == serial;
    forall k | 0 <= k < |h| && h[k].state.serial == serial ensures k == read {
      assert h[k].state.serial == h[0].state.serial + k;
    }
  }

  /** orchestrator.go:341-379: what to write on `base`.  On the merge path that is a document;
      the native path hands over a delta, built for a trusted intent. */
  method Prepare(st: Store, plan: Plan, work: Work, base: State)
    returns (delta: Option<bool>, doc: Option<State>, applied: seq<string>)
    requires !HasSurprise(work.post, plan.footprint)
    modifies st`log
    ensures st.log == old(st.log) + DeltaEvents(delta)
    ensures delta.Some? <==> plan.useLock && Trusted(plan, work.intent)
    ensures doc.Some? <==> !plan.useLock
    ensures doc.Some? ==> Merges(base, plan, work, doc.value, applied)
    ensures delta == Some(true) ==> applied == work.intent.writes
  {
    if !plan.useLock {
      var merged := BuildMergedState(Some(base), Some(work.post), plan.writeSet, plan.footprint);
      return None, Some(merged.state), merged.applied;
    }
    var verdict := StateEngineDelta.ValidateTrustedIntent(Some(plan.writeSet), Some(work.intent.writes),
      work.intent.deletes);
    if !verdict.Accepted? { return None, None, []; }
    var built: bool := *;
    st.Record(DeltaBuilt(built));
    return Some(built), None, work.intent.writes;
  }

  /** One round.  On the merge path, what lands is prepared from the version it lands on; on
      the native path it lands on whatever is newest.  A lost race means, on either path, that
      another version landed since the trunk was read. */
  method TryCommit(st: Store, plan: Plan, work: Work)
    returns (r: Round, applied: seq<string>, ghost read: nat, ghost seen: seq<Version>)
    requires st.Valid() && !HasSurprise(work.post, plan.footprint)
    modifies st
    ensures st.Valid() && st.now >= old(st.now)
    ensures st.log == old(st.log) + r.Events() && InOrder(plan, work, r)
    ensures OthersOnly(old(st.history), seen) && |old(st.history)| <= read
    ensures !r.Lands() ==> st.history == seen
    ensures r.Lands() ==> CommitsOn(seen, st.history, plan, work, read, r.write.value.serial, applied)
    ensures r.Lost() ==> |seen| > |old(st.history)|
  {
    var fresh_ := st.CurrentState();
    ghost var fetched := st.history;
    read, seen := |fetched|, fetched;
    if fresh_.Failed? {
      return Round(fresh_.Outcome(), None, None), [], read, seen;
    }
    var delta, doc;
    delta, doc, applied := Prepare(st, plan, work, fresh_.state);
    if plan.useLock && delta != Some(true) {
      return Round(Fine, delta, None), applied, read, seen;
    }
    var w;
    var recorded := fresh_.state.serial + 1;
    if plan.useLock {
      w, seen := st.WriteDelta(recorded);
    } else {
      w, seen := st.Write(fresh_.state.serial, doc.value);
    }
    OthersChain(old(st.history), fetched, seen);
    assert w.SerialConflict? ==> seen != fetched;
    r := Round(Fine, delta, Some(Attempt(recorded, w)));
  }

  function RoundEvents(rounds: seq<Round>): seq<Event> {
    if rounds == [] then [] else RoundEvents(rounds[..|rounds| - 1]) + rounds[|rounds| - 1].Events()
  }

  /** A finished loop: at most eight rounds, all but the last of them lost races; and only the
      eighth may be lost without another round. */
  predicate RoundsDone(plan: Plan, work: Work, rounds: seq<Round>) {
    && 0 < |rounds| <= 8
    && (forall k :: 0 <= k < |rounds| ==> InOrder(plan, work, rounds[k]))
    && (forall k :: 0 <= k < |rounds| - 1 ==> rounds[k].Lost())
    && (rounds[|rounds| - 1].Lost() ==> |rounds| == 8)
  }

  /** `commit` is the landed write of the rounds, if any. */
  predicate Landing(rounds: seq<Round>, commit: Option<int>) {
    && (commit.Some? <==> rounds != [] && rounds[|rounds| - 1].Lands())
    && (commit.Some? ==> rounds[|rounds| - 1].write.value.serial == commit.value)
  }

  /** Every lost race among the rounds is paid for by one of `others` commits. */
  predicate PaidFor(rounds: seq<Round>, others: int) {
    && (rounds != [] ==> |rounds| - 1 <= others)
    && (rounds != [] && rounds[|rounds| - 1].Lost() ==> |rounds| <= others)
  }

  lemma RoundLogged(log: seq<Event>, rounds: seq<Round>, r: Round)
    ensures log + RoundEvents(rounds + [r]) == log + RoundEvents(rounds) + r.Events()
  {
    assert (rounds + [r])[..|rounds|] == rounds;
  }

  /** Before a round: every round so far was lost. */
  predicate Losing(plan: Plan, work: Work, rounds: seq<Round>) {
    forall k :: 0 <= k < |rounds| ==> InOrder(plan, work, rounds[k]) && rounds[k].Lost()
  }

  lemma RoundAdded(plan: Plan, work: Work, rounds: seq<Round>, r: Round)
    requires Losing(plan, work, rounds) && |rounds| < MAX_COMMIT_RETRIES && InOrder(plan, work, r)
    ensures r.Lost() ==> Losing(plan, work, rounds + [r])
    ensures !r.Lost() || |rounds| + 1 == MAX_COMMIT_RETRIES ==> RoundsDone(plan, work, rounds + [r])
    ensures Landing(rounds + [r], if r.Lands() then Some(r.write.value.serial) else None)
  {
  }

  /** The retry loop.  Each lost race is charged to another run's commit, so giving up takes
      eight of them. */
  method CommitLoop(st: Store, plan: Plan, work: Work)
    returns (commit: Option<int>, cancelled: bool, applied: seq<string>,
             ghost rounds: seq<Round>, ghost read: nat, ghost seen: seq<Version>)
    requires st.Valid() && !HasSurprise(work.post, plan.footprint)
    modifies st
    ensures st.Valid() && st.now >= old(st.now)
    ensures st.log == old(st.log) + RoundEvents(rounds)
    ensures RoundsDone(plan, work, rounds) && Landing(rounds, commit)
    ensures cancelled <==> rounds[|rounds| - 1].Cancelled()
    ensures OthersOnly(old(st.history), seen) && |old(st.history)| <= read
    ensures PaidFor(rounds, |seen| - |old(st.history)|)
    ensures commit.None? ==> st.history == seen
    ensures commit.Some? ==> CommitsOn(seen, st.history, plan, work, read, commit.value, applied)
  {
    ghost var before := st.history;
    rounds, read, seen := [], |before|, before;
    for attempt := 0 to MAX_COMMIT_RETRIES
      invariant st.Valid() && st.now >= old(st.now) && st.history == seen
      invariant OthersOnly(before, seen) && |before| <= read && |rounds| == attempt <= |seen| - |before|
      invariant Losing(plan, work, rounds)
      invariant st.log == old(st.log) + RoundEvents(rounds)
      invariant attempt == MAX_COMMIT_RETRIES ==> RoundsDone(plan, work, rounds)
      invariant attempt > 0 ==> Landing(rounds, None) && !rounds[attempt - 1].Cancelled()
    {
      var r;
      ghost var now;
      r, applied, read, now := TryCommit(st, plan, work);
      OthersChain(before, seen, now);
      RoundAdded(plan, work, rounds, r);
      RoundLogged(old(st.log), rounds, r);
      rounds, seen := rounds + [r], now;
      if r.Lands() { return Some(r.write.value.serial), false, applied, rounds, read, seen; }
      if !r.Lost() { return None, r.Cancelled(), [], rounds, read, seen; }
    }
    return None, false, [], rounds, read, seen;
  }
}
