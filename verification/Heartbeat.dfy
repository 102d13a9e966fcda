/** Lease renewal while Terraform runs (`renewReservationLeases`,
    internal/apply/orchestrator.go:474-514).  Durations are in nanoseconds. */
module Heartbeat {

  const SECOND := 1_000_000_000

  /** Go's integer division truncates toward zero. */
  function Third(lease: int): int {
    if lease >= 0 then lease / 3 else -((-lease) / 3)
  }

  /** orchestrator.go:478-486. */
  function Interval(lease: int): int {
    var i := Third(lease);
    if i <= 0 then SECOND
    else if i > 30 * SECOND then 30 * SECOND
    else if i < SECOND then SECOND
    else i
  }

  /** The heartbeat beats before the lease runs out exactly for leases above one second; from
      three seconds up it beats at least three times per lease, and at least every 30 s. */
  lemma IntervalFitsLease(lease: int)
    ensures Interval(lease) < lease <==> lease > SECOND
    ensures lease >= 3 * SECOND ==> 3 * Interval(lease) <= lease
    ensures SECOND <= Interval(lease) <= 30 * SECOND
    ensures lease < 3_000_000_000 ==> Interval(lease) == 1_000_000_000
    ensures 3_000_000_000 <= lease <= 90_000_000_000 ==> Interval(lease) == lease / 3
    ensures lease > 90_000_000_000 ==> Interval(lease) == 30_000_000_000
  {
  }

  datatype Renewal = Renewed(count: int) | RenewError(cancelled: bool)

  /** One tick: the time, what the status read said (a failed read says nothing), and how the
      renewal went. */
  datatype Beat = Beat(at: int, seenAborted: bool, renewal: Renewal)

  predicate Good(b: Beat, expected: int) {
    !b.seenAborted && b.renewal.Renewed? && b.renewal.count >= expected
  }

  datatype Verdict = Stopped | AbortSeen | RenewFailed(cancelled: bool) | LeasesLost(renewed: int)

  /** What a beat that ends the loop makes it return. */
  function BadBeat(b: Beat): Verdict {
    if b.seenAborted then AbortSeen
    else match b.renewal case RenewError(c) => RenewFailed(c) case Renewed(n) => LeasesLost(n)
  }

  /** The ticker loop over the beats that arrive before the run stops it. */
  method RenewReservationLeases(beats: seq<Beat>, expected: int) returns (v: Verdict, served: nat)
    ensures v.Stopped? <==> expected <= 0 || forall k :: 0 <= k < |beats| ==> Good(beats[k], expected)
    ensures served <= |beats| && forall k :: 0 <= k < served ==>
              !beats[k].seenAborted && beats[k].renewal.Renewed? && beats[k].renewal.count >= expected
    ensures v.Stopped? ==> served == if expected <= 0 then 0 else |beats|
    ensures !v.Stopped? ==> served < |beats| && expected > 0
    ensures v.AbortSeen? <==> served < |beats| && expected > 0 && beats[served].seenAborted
    ensures v.RenewFailed? ==> beats[served].renewal == RenewError(v.cancelled)
    ensures v.LeasesLost? ==> beats[served].renewal == Renewed(v.renewed) && v.renewed < expected
  {
    if expected <= 0 { return Stopped, 0; }
    for i := 0 to |beats|
      invariant forall k :: 0 <= k < i ==> Good(beats[k], expected)
    {
      var b := beats[i];
      if b.seenAborted { return AbortSeen, i; }
      if b.renewal.RenewError? { return RenewFailed(b.renewal.cancelled), i; }
      if b.renewal.count < expected { return LeasesLost(b.renewal.count), i; }
    }
    return Stopped, |beats|;
  }

  /** When the leases lapse, after the first `n` beats of a run that acquired at `start`: a
      beat that saw an abort or renewed less than everything extends nothing. */
  function Expiry(start: int, lease: int, beats: seq<Beat>, expected: int, n: nat): int
    requires n <= |beats|
  {
    if n == 0 then start + lease
    else if Good(beats[n - 1], expected) then beats[n - 1].at + lease
    else Expiry(start, lease, beats, expected, n - 1)
  }

  function BeatTime(start: int, beats: seq<Beat>, n: nat): int
    requires n <= |beats|
  {
    if n == 0 then start else beats[n - 1].at
  }

  /** Ticks come no later than one interval after the acquisition or the previous tick, and
      the loop is stopped before the next one is due. */
  predicate Prompt(start: int, lease: int, beats: seq<Beat>, stop: int) {
    && (forall n :: 0 <= n < |beats| ==>
          BeatTime(start, beats, n) <= beats[n].at <= BeatTime(start, beats, n) + Interval(lease))
    && BeatTime(start, beats, |beats|) <= stop <= BeatTime(start, beats, |beats|) + Interval(lease)
  }

  /** With prompt ticks and full renewals, at no instant from acquisition to stop has the
      lease lapsed, and at least `lease - interval` of it is left for the commit loop. */
  lemma LeasesOutliveTerraform(start: int, lease: int, beats: seq<Beat>, expected: int, stop: int, t: int)
    returns (n: nat)
    requires lease > SECOND && Prompt(start, lease, beats, stop) && start <= t <= stop
    requires forall k :: 0 <= k < |beats| ==> Good(beats[k], expected)
    ensures n <= |beats| && BeatTime(start, beats, n) <= t
    ensures n == |beats| || t <= beats[n].at
    ensures t < Expiry(start, lease, beats, expected, n)
    ensures Expiry(start, lease, beats, expected, |beats|) - stop >= lease - Interval(lease) > 0
  {
    IntervalFitsLease(lease);
    n := 0;
    while n < |beats| && beats[n].at < t
      invariant n <= |beats| && BeatTime(start, beats, n) <= t
    {
      n := n + 1;
    }
  }

  /** However many beats come, failed ones leave the lease where it was. */
  lemma {:induction false} FailedBeatsExtendNothing(start: int, lease: int, beats: seq<Beat>, expected: int, n: nat)
    requires n <= |beats| && forall k :: 0 <= k < n ==> !Good(beats[k], expected)
    ensures Expiry(start, lease, beats, expected, n) == start + lease
  {
    if n > 0 {
      FailedBeatsExtendNothing(start, lease, beats, expected, n - 1);
    }
  }
}
