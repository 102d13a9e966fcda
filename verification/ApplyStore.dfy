/** The store as the orchestrator sees it (internal/apply/storeiface.go), and the trace of the
    calls made to it.  Other runs use the store at the same time: every call may be preceded
    by their commits and by the passing of time, and may fail.  How the two writes number
    their versions is in pkg/store/state.go:380-384, 490-529 and 775-838. */
module ApplyStore {
  import opened Json
  import opened TrunkState
  import Heartbeat

  /** How a call that returns only an error went; the error may carry a cancelled or expired
      context. */
  datatype Fault = Fine | Broke(cancelled: bool)

  datatype Acquisition = Acquired | Conflict(blockers: nat) | AcquireError(cancelled: bool)
  {
    predicate Cancelled() { AcquireError? && cancelled }
  }

  datatype WriteResult = Landed | SerialConflict | WriteError(cancelled: bool)

  datatype Read = Got(state: State) | Failed(cancelled: bool)
  {
    function Outcome(): Fault {
      match this case Got(_) => Fine case Failed(c) => Broke(c)
    }
  }

  datatype RunStatus = RunCommitted | RunAborted | RunFailed

  datatype Event =
    | TrunkRead(f: Fault)
    | BeginTried(f: Fault)
    | LockTried(f: Fault)
    | Tried(a: Acquisition)
    | Slept(duration: int, completed: bool)
    | BaseRead(f: Fault)
    | Prepared(ok: bool)
    | TerraformRan(f: Fault)
    | HeartbeatStopped(v: Heartbeat.Verdict)
    | StatusRead(aborted: bool)
    | PostRead(ok: bool)
    | DeltaBuilt(ok: bool)
    | WriteTried(serial: int, r: WriteResult)
    | VersionLookedUp(f: Fault)
    | Finished(status: RunStatus, committed: Option<int>, applied: nat)
    | Released
    | LockReleased

  datatype Version = Version(state: State, mine: bool)

  /** Serials are contiguous. */
  predicate Contiguous(h: seq<Version>) {
    h != [] && forall k :: 0 <= k < |h| ==> h[k].state.serial == h[0].state.serial + k
  }

  /** Only other runs committed between `h` and `h'`. */
  predicate OthersOnly(h: seq<Version>, h': seq<Version>) {
    h <= h' && forall k :: |h| <= k < |h'| ==> !h'[k].mine
  }

  lemma OthersChain(a: seq<Version>, b: seq<Version>, c: seq<Version>)
    requires OthersOnly(a, b) && OthersOnly(b, c)
    ensures OthersOnly(a, c)
  {
  }

  class Store {
    var now: int
    var history: seq<Version>
    var log: seq<Event>

    ghost predicate Valid()
      reads this
    {
      Contiguous(history)
    }

    /** Time passes and other runs commit. */
    method Interfere()
      requires Valid()
      modifies this`now, this`history
      ensures Valid() && now >= old(now) && OthersOnly(old(history), history)
    {
      var wait: int := *;
      var more: seq<Version> := *;
      if wait > 0 {
        now := now + wait;
      }
      if OthersOnly(history, history + more) && Contiguous(history + more) {
        history := history + more;
      }
    }

    method Record(e: Event)
      modifies this`log
      ensures log == old(log) + [e]
    {
      log := log + [e];
    }

    /** `EnsureCurrentStateInfo` and parsing what it returns. */
    method CurrentState() returns (r: Read)
      requires Valid()
      modifies this
      ensures Valid() && now >= old(now) && OthersOnly(old(history), history)
      ensures log == old(log) + [TrunkRead(r.Outcome())]
      ensures r.Got? ==> r.state == history[|history| - 1].state
    {
      Interfere();
      var outcome: Fault := *;
      r := if outcome.Broke? then Failed(outcome.cancelled) else Got(history[|history| - 1].state);
      Record(TrunkRead(r.Outcome()));
    }

    /** `GetStateRawAtSerial` and parsing what it returns. */
    method StateAt(serial: int) returns (r: Read, k: int)
      requires Valid()
      modifies this`log
      ensures log == old(log) + [BaseRead(r.Outcome())]
      ensures r.Got? ==> 0 <= k < |history| && history[k].state.serial == serial && r.state == history[k].state
    {
      k := serial - history[0].state.serial;
      var outcome: Fault := *;
      r := if outcome.Broke? then Failed(outcome.cancelled)
           else if k < 0 || k >= |history| then Failed(false)
           else Got(history[k].state);
      Record(BaseRead(r.Outcome()));
    }

    method AcquireReservations() returns (a: Acquisition)
      requires Valid()
      modifies this
      ensures Valid() && now >= old(now) && OthersOnly(old(history), history)
      ensures log == old(log) + [Tried(a)]
    {
      Interfere();
      a := *;
      Record(Tried(a));
    }

    /** A sleep of `d`, which a cancelled context cuts short. */
    method Sleep(d: int) returns (completed: bool)
      requires Valid() && d >= 0
      modifies this
      ensures Valid() && now >= old(now) && OthersOnly(old(history), history)
      ensures completed ==> now >= old(now) + d
      ensures log == old(log) + [Slept(d, completed)]
    {
      Interfere();
      completed := *;
      if completed {
        now := now + d;
      }
      Record(Slept(d, completed));
    }

    /** `WriteStateForApply`.  The document brings its own serial, which must be new: the write
        lands exactly when the base serial is still current, unless the store fails for
        another reason. */
    method Write(base: int, doc: State) returns (r: WriteResult, ghost seen: seq<Version>)
      requires Valid() && doc.serial == base + 1
      modifies this
      ensures Valid() && now >= old(now)
      ensures OthersOnly(old(history), seen) && Contiguous(seen)
      ensures r.Landed? ==> seen[|seen| - 1].state.serial == base && history == seen + [Version(doc, true)]
      ensures !r.Landed? ==> history == seen
      ensures r.SerialConflict? ==> seen[|seen| - 1].state.serial != base
      ensures log == old(log) + [WriteTried(doc.serial, r)]
    {
      Interfere();
      seen := history;
      var outcome: Fault := *;
      if outcome.Broke? {
        r := WriteError(outcome.cancelled);
      } else if history[|history| - 1].state.serial != base {
        r := SerialConflict;
      } else {
        r := Landed;
        history := history + [Version(doc, true)];
      }
      Record(WriteTried(doc.serial, r));
    }

    /** `WriteStateEngineDeltaForApply`.  The base serial is ignored: the store puts the delta
        on whatever version is newest and numbers the result itself.  A conflict is possible
        only when another version lands while it does so. */
    method WriteDelta(recorded: int) returns (r: WriteResult, ghost seen: seq<Version>)
      requires Valid()
      modifies this
      ensures Valid() && now >= old(now)
      ensures OthersOnly(old(history), seen) && Contiguous(seen)
      ensures r.Landed? ==>
                && |history| == |seen| + 1 && seen <= history && history[|seen|].mine
                && history[|seen|].state.serial == seen[|seen| - 1].state.serial + 1
      ensures !r.Landed? ==> history == seen
      ensures r.SerialConflict? ==> seen != old(history)
      ensures log == old(log) + [WriteTried(recorded, r)]
    {
      Interfere();
      ghost var before := history;
      var numbered := |history|;
      Interfere();
      OthersChain(old(history), before, history);
      seen := history;
      var outcome: Fault := *;
      var built: State := *;
      if outcome.Broke? {
        r := WriteError(outcome.cancelled);
      } else if |history| != numbered {
        r := SerialConflict;
      } else {
        r := Landed;
        history := history + [Version(built.(serial := history[|history| - 1].state.serial + 1), true)];
      }
      Record(WriteTried(recorded, r));
    }
  }
}
