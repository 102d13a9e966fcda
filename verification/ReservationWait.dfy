/** Waiting for reservations (`acquireWithWait`, internal/apply/orchestrator.go:545-617).
    Durations are in nanoseconds. */
module ReservationWait {
  import opened Json
  import opened ApplyStore
  import Heartbeat

  const SECOND := Heartbeat.SECOND
  const BACKOFFS := [1 * SECOND, 2 * SECOND, 4 * SECOND, 8 * SECOND, 10 * SECOND]

  function Sum(s: seq<int>): int {
    if s == [] then 0 else Sum(s[..|s| - 1]) + s[|s| - 1]
  }

  lemma SumAppend(s: seq<int>, x: int)
    ensures Sum(s + [x]) == Sum(s) + x
  {
    assert (s + [x])[..|s|] == s;
  }

  function Backoff(iteration: nat): int {
    if iteration < |BACKOFFS| then BACKOFFS[iteration] else BACKOFFS[|BACKOFFS| - 1]
  }

  /** One second at first, then twice the last, up to ten. */
  lemma BackoffDoubles(iteration: nat)
    ensures Backoff(0) == 1_000_000_000
    ensures Backoff(iteration + 1) ==
            if 2 * Backoff(iteration) < 10_000_000_000 then 2 * Backoff(iteration) else 10_000_000_000
  {
  }

  lemma BackoffIsPositive(iteration: nat)
    ensures SECOND <= Backoff(iteration) <= 10 * SECOND
  {
  }

  /** The calls of one acquisition: attempts with a sleep between any two, and perhaps a last
      sleep that was cut short. */
  datatype Waiting = Waiting(attempts: seq<Acquisition>, sleeps: seq<int>)
  {
    predicate Holding() {
      |attempts| == |sleeps| + 1 && attempts[|sleeps|].Acquired?
    }

    predicate Interrupted() {
      |attempts| == |sleeps|
    }

    /** The error of the acquisition carries a cancellation. */
    predicate Cancelled() {
      Interrupted() || (attempts != [] && attempts[|attempts| - 1].Cancelled())
    }

    /** Attempts and sleeps in turn, beginning with an attempt. */
    function Events(): seq<Event> {
      seq(Length(), i requires 0 <= i < Length() => EventAt(i))
    }

    function Length(): nat {
      if Interrupted() then 2 * |sleeps| else if |attempts| == |sleeps| + 1 then 2 * |sleeps| + 1 else 0
    }

    function EventAt(i: nat): Event
      requires i < Length()
    {
      if i % 2 == 0 then Tried(attempts[i / 2]) else Slept(sleeps[i / 2], i + 1 < Length())
    }

    function Pausing(d: int): Waiting {
      Waiting(attempts, sleeps + [d])
    }

    function Retrying(d: int, a: Acquisition): Waiting {
      Waiting(attempts + [a], sleeps + [d])
    }
  }

  lemma EventsGrow(w: Waiting, d: int, a: Acquisition)
    requires |w.attempts| == |w.sleeps| + 1
    ensures w.Pausing(d).Events() == w.Events() + [Slept(d, false)]
    ensures w.Retrying(d, a).Events() == w.Events() + [Slept(d, true), Tried(a)]
  {
  }

  /** What a finished acquisition looks like.  The sleeps follow the backoff schedule, only
      the last being cut to the budget, and never exceed the budget in sum; every attempt but
      the last met a conflict; and it stops trying only on a grant, an error that is no
      conflict, a cancellation, or a conflict that finds no budget left. */
  predicate WaitDone(budget: int, elapsed: int, w: Waiting) {
    && w.attempts != []
    && (|w.attempts| == |w.sleeps| + 1 || w.Interrupted())
    && Sum(w.sleeps) <= (if budget > 0 then budget else 0)
    && (forall k :: 0 <= k < |w.sleeps| ==> 0 < w.sleeps[k] <= Backoff(k))
    && (forall k :: 0 <= k < |w.sleeps| - 1 ==> w.sleeps[k] == Backoff(k))
    && (forall k :: 0 <= k < |w.attempts| - 1 ==> w.attempts[k].Conflict?)
    && (w.Interrupted() ==> w.attempts[|w.attempts| - 1].Conflict?)
    && (budget <= 0 ==> w.sleeps == [])
    && (!w.Interrupted() && w.attempts[|w.attempts| - 1].Conflict? && budget > 0 ==> elapsed >= budget)
  }

  datatype WaitResult = Granted | Refused(a: Acquisition) | WaitCancelled

  /** The return value belongs to the calls: a grant or a refusal reports the last attempt. */
  predicate Reports(r: WaitResult, w: Waiting) {
    match r
    case Granted => w.Holding()
    case Refused(a) => |w.attempts| == |w.sleeps| + 1 && a == w.attempts[|w.sleeps|] && !a.Acquired?
    case WaitCancelled => w.Interrupted()
  }

  /** `acquireWithWait`.  It ends because every completed sleep moves the clock on by at least
      the time slept. */
  method AcquireWithWait(st: Store, budget: int) returns (r: WaitResult, ghost w: Waiting)
    requires st.Valid()
    modifies st
    ensures st.Valid() && st.now >= old(st.now) && OthersOnly(old(st.history), st.history)
    ensures st.log == old(st.log) + w.Events()
    ensures WaitDone(budget, st.now - old(st.now), w) && Reports(r, w)
    ensures Sum(w.sleeps) <= (if budget > 0 then budget else 0) && |w.attempts| <= |w.sleeps| + 1
    ensures r.Refused? && r.a.Conflict? && budget > 0 ==> st.now >= old(st.now) + budget
  {
    var a := st.AcquireReservations();
    w := Waiting([a], []);
    if a.Acquired? { return Granted, w; }
    if budget <= 0 || a.AcquireError? { return Refused(a), w; }
    r, w := WaitAndRetry(st, budget, a, old(st.log));
  }

  /** The backoff loop after a first conflict (orchestrator.go:562-616). */
  method WaitAndRetry(st: Store, budget: int, first: Acquisition, ghost log: seq<Event>)
    returns (r: WaitResult, ghost w: Waiting)
    requires st.Valid() && budget > 0 && first.Conflict?
    requires st.log == log + [Tried(first)]
    modifies st
    ensures st.Valid() && st.now >= old(st.now) && OthersOnly(old(st.history), st.history)
    ensures st.log == log + w.Events()
    ensures WaitDone(budget, st.now - old(st.now), w) && Reports(r, w)
  {
    ghost var start := st.now;
    var deadline := st.now + budget;
    var iter, a := 0, first;
    w := Waiting([first], []);
    while true
      invariant st.Valid() && st.now >= start && OthersOnly(old(st.history), st.history)
      invariant Blocked(start, budget, st.now, w)
      invariant iter == |w.sleeps| && a == w.attempts[iter]
      invariant st.log == log + w.Events()
      decreases deadline - st.now
    {
      ghost var before := st.history;
      var over;
      a, over, w := WaitOnce(st, a, iter, deadline, w, start, budget, log);
      OthersChain(old(st.history), before, st.history);
      if over.Some? { return over.value, w; }
      iter := iter + 1;
    }
  }

  /** One round of the loop: give up when the budget is spent, otherwise sleep and try again. */
  method WaitOnce(st: Store, last: Acquisition, iter: nat, deadline: int,
                  ghost w0: Waiting, ghost start: int, ghost budget: int, ghost log: seq<Event>)
    returns (a: Acquisition, over: Option<WaitResult>, ghost w: Waiting)
    requires st.Valid() && deadline == start + budget && budget > 0
    requires Blocked(start, budget, st.now, w0) && iter == |w0.sleeps| && last == w0.attempts[iter]
    requires st.log == log + w0.Events()
    modifies st
    ensures st.Valid() && st.now >= old(st.now) && OthersOnly(old(st.history), st.history)
    ensures st.log == log + w.Events()
    ensures over.Some? ==> WaitDone(budget, st.now - start, w) && Reports(over.value, w)
    ensures over.None? ==>
              && Blocked(start, budget, st.now, w) && |w.sleeps| == iter + 1 && a == w.attempts[iter + 1]
              && old(st.now) < deadline && st.now > old(st.now)
  {
    ghost var h0 := st.history;
    st.Interfere();
    ghost var h1 := st.history;
    var remaining := deadline - st.now;
    var nextSleep := Backoff(iter);
    if nextSleep > remaining {
      nextSleep := remaining;
    }
    BlockedLater(start, budget, old(st.now), st.now, w0);
    if remaining <= 0 {
      return last, Some(Refused(last)), w0;
    }
    BackoffIsPositive(iter);
    a, over, w := SleepAndRetry(st, last, nextSleep, w0, start, budget, log);
    OthersChain(h0, h1, st.history);
  }

  /** The rest of a round: the sleep, cut to the budget, and another attempt. */
  method SleepAndRetry(st: Store, last: Acquisition, nextSleep: int, ghost w0: Waiting, ghost start: int,
                       ghost budget: int, ghost log: seq<Event>)
    returns (a: Acquisition, over: Option<WaitResult>, ghost w: Waiting)
    requires st.Valid() && budget > 0 && nextSleep > 0
    requires Blocked(start, budget, st.now, w0) && NextSleep(start, budget, st.now, w0.sleeps, nextSleep)
    requires st.log == log + w0.Events()
    modifies st
    ensures st.Valid() && st.now >= old(st.now) && OthersOnly(old(st.history), st.history)
    ensures st.log == log + w.Events()
    ensures over.Some? ==> WaitDone(budget, st.now - start, w) && Reports(over.value, w)
    ensures over.None? ==>
              && Blocked(start, budget, st.now, w) && |w.sleeps| == |w0.sleeps| + 1 && a == w.attempts[|w.sleeps|]
              && st.now > old(st.now)
  {
    ghost var asleep := st.now;
    var next := SleepThenAcquire(st, nextSleep, w0, log);
    w := if next.None? then w0.Pausing(nextSleep) else w0.Retrying(nextSleep, next.value);
    if next.None? {
      SleepAdded(start, budget, asleep, w0, nextSleep, st.now - start);
      return last, Some(WaitCancelled), w;
    }
    a := next.value;
    AttemptAdded(start, budget, asleep, st.now, w0, nextSleep, a);
    over := if a.Conflict? then None else Some(if a.Acquired? then Granted else Refused(a));
  }

  /** orchestrator.go:597-603: `None` when the context is cancelled during the sleep. */
  method SleepThenAcquire(st: Store, d: int, ghost w: Waiting, ghost log: seq<Event>) returns (a: Option<Acquisition>)
    requires st.Valid() && d >= 0 && |w.attempts| == |w.sleeps| + 1 && st.log == log + w.Events()
    modifies st
    ensures st.Valid() && st.now >= old(st.now) && OthersOnly(old(st.history), st.history)
    ensures a.Some? ==> st.now >= old(st.now) + d
    ensures st.log == log + (if a.None? then w.Pausing(d) else w.Retrying(d, a.value)).Events()
  {
    var completed := st.Sleep(d);
    ghost var h := st.history;
    if !completed {
      EventsGrow(w, d, Acquired);
      return None;
    }
    var tried := st.AcquireReservations();
    OthersChain(old(st.history), h, st.history);
    EventsGrow(w, d, tried);
    a := Some(tried);
  }

  /** Between two attempts: only conflicts so far, and the sleeps fit the elapsed time. */
  predicate Blocked(start: int, budget: int, now: int, w: Waiting) {
    && |w.attempts| == |w.sleeps| + 1
    && (forall k :: 0 <= k < |w.attempts| ==> w.attempts[k].Conflict?)
    && (forall k :: 0 <= k < |w.sleeps| ==> 0 < w.sleeps[k] <= Backoff(k))
    && (forall k :: 0 <= k < |w.sleeps| - 1 ==> w.sleeps[k] == Backoff(k))
    && (w.sleeps != [] && w.sleeps[|w.sleeps| - 1] != Backoff(|w.sleeps| - 1) ==> now >= start + budget)
    && Sum(w.sleeps) <= now - start
    && Sum(w.sleeps) <= budget
  }

  lemma BlockedLater(start: int, budget: int, now: int, now': int, w: Waiting)
    requires Blocked(start, budget, now, w) && now <= now' && budget > 0
    ensures Blocked(start, budget, now', w)
    ensures now' >= start + budget ==> WaitDone(budget, now' - start, w)
  {
  }

  predicate NextSleep(start: int, budget: int, now: int, sleeps: seq<int>, next: int) {
    && now < start + budget
    && next == if Backoff(|sleeps|) > start + budget - now then start + budget - now else Backoff(|sleeps|)
  }

  /** One more sleep, cut to the remaining budget. */
  lemma SleepAdded(start: int, budget: int, now: int, w: Waiting, next: int, elapsed: int)
    requires Blocked(start, budget, now, w) && NextSleep(start, budget, now, w.sleeps, next) && budget > 0
    ensures WaitDone(budget, elapsed, w.Pausing(next)) && Reports(WaitCancelled, w.Pausing(next))
    ensures Sum(w.sleeps + [next]) == Sum(w.sleeps) + next <= budget
  {
    SumAppend(w.sleeps, next);
  }

  /** The attempt after a completed sleep. */
  lemma AttemptAdded(start: int, budget: int, before: int, now: int, w: Waiting, next: int, a: Acquisition)
    requires Blocked(start, budget, before, w) && NextSleep(start, budget, before, w.sleeps, next) && budget > 0
    requires now >= before + next
    ensures !a.Conflict? ==> WaitDone(budget, now - start, w.Retrying(next, a))
    ensures a.Acquired? ==> Reports(Granted, w.Retrying(next, a))
    ensures a.AcquireError? ==> Reports(Refused(a), w.Retrying(next, a))
    ensures a.Conflict? ==> Blocked(start, budget, now, w.Retrying(next, a))
  {
    SleepAdded(start, budget, before, w, next, now - start);
  }
}
