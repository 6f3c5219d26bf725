/** Polling for free quota with a growing, capped interval and a deadline. */
module QuotaPolling {

  datatype Snapshot = Snapshot(cpuLimit: real, cpuUsage: real, diskLimit: real, diskUsage: real)

  datatype Requirement = Requirement(vcpus: real, disk: real)

  datatype Policy = Policy(initial: real, maximum: real, timeout: real)

  datatype Status = Ready | TimedOut | BadPolicy

  datatype Outcome = Outcome(status: Status, observations: seq<Snapshot>, waited: real)

  predicate Accepted(p: Policy) {
    0.0 < p.initial <= p.maximum && 0.0 < p.timeout
  }

  predicate Meets(s: Snapshot, r: Requirement) {
    s.cpuLimit - s.cpuUsage >= r.vcpus && s.diskLimit - s.diskUsage >= r.disk
  }

  function Min(a: real, b: real): real { if a <= b then a else b }

  function Ceiling(x: real): int { -(-x).Floor }

  /** The interval after `k` sleeps. */
  function Interval(p: Policy, k: nat): real {
    if k == 0 then p.initial else Min(p.maximum, Interval(p, k - 1) * 1.5)
  }

  /** Growth without the cap. */
  function Grown(p: Policy, k: nat): real {
    if k == 0 then p.initial else Grown(p, k - 1) * 1.5
  }

  /** The cap acts as if it were applied once to the geometric growth. */
  lemma {:induction false} IntervalIsCappedGrowth(p: Policy, k: nat)
    requires Accepted(p)
    ensures Interval(p, k) == Min(p.maximum, Grown(p, k)) && Grown(p, k) >= p.initial
    ensures p.initial <= Interval(p, k) <= p.maximum
    ensures k > 0 ==> Interval(p, k - 1) <= Interval(p, k)
    ensures k > 0 ==> Interval(p, k) == p.maximum || Interval(p, k) == Interval(p, k - 1) * 1.5
  {
    if k == 0 {
    } else {
      IntervalIsCappedGrowth(p, k - 1);
    }
  }

  function Sum(xs: seq<real>): real
    decreases |xs|
  {
    if xs == [] then 0.0 else Sum(xs[..|xs| - 1]) + xs[|xs| - 1]
  }

  /** The time that passes on its own up to the `n`-th reading. */
  function Passed(delays: nat -> real, n: nat): real {
    if n == 0 then 0.0 else Passed(delays, n - 1) + delays(n - 1)
  }

  /** When the `k`-th sleep begins. */
  function Elapsed(delays: nat -> real, sleeps: seq<real>, k: nat): real
    requires k <= |sleeps|
  {
    Passed(delays, k + 1) + Sum(sleeps[..k])
  }

  /** A sleep begins before the deadline and lasts for the interval or up to the deadline. */
  predicate SleepIsExact(p: Policy, delays: nat -> real, sleeps: seq<real>, k: nat)
    requires k < |sleeps|
  {
    var elapsed := Elapsed(delays, sleeps, k);
    elapsed < p.timeout && sleeps[k] == Min(Interval(p, k), p.timeout - elapsed)
  }

  predicate SleptExactly(p: Policy, delays: nat -> real, sleeps: seq<real>) {
    forall k :: 0 <= k < |sleeps| ==> SleepIsExact(p, delays, sleeps, k)
  }

  lemma SleepStaysExact(p: Policy, delays: nat -> real, sleeps: seq<real>, nap: real, k: nat)
    requires k < |sleeps| && SleepIsExact(p, delays, sleeps, k)
    ensures SleepIsExact(p, delays, sleeps + [nap], k)
  {
    hide Interval, Min, Passed, Sum;
    assert (sleeps + [nap])[..k] == sleeps[..k];
  }

  lemma LastSleepIsExact(p: Policy, delays: nat -> real, sleeps: seq<real>)
    requires Elapsed(delays, sleeps, |sleeps|) < p.timeout
    ensures var nap := Min(Interval(p, |sleeps|), p.timeout - Elapsed(delays, sleeps, |sleeps|));
            SleepIsExact(p, delays, sleeps + [nap], |sleeps|)
  {
    hide Interval, Min, Passed, Sum;
    var nap := Min(Interval(p, |sleeps|), p.timeout - Elapsed(delays, sleeps, |sleeps|));
    assert (sleeps + [nap])[..|sleeps|] == sleeps[..|sleeps|];
  }

  lemma SleptExactlyGrows(p: Policy, delays: nat -> real, sleeps: seq<real>, elapsed: real)
    requires SleptExactly(p, delays, sleeps) && elapsed == Elapsed(delays, sleeps, |sleeps|) < p.timeout
    ensures SleptExactly(p, delays, sleeps + [Min(Interval(p, |sleeps|), p.timeout - elapsed)])
  {
    hide Interval, Min, Elapsed, SleepIsExact;
    var nap := Min(Interval(p, |sleeps|), p.timeout - elapsed);
    LastSleepIsExact(p, delays, sleeps);
    forall k | 0 <= k < |sleeps| ensures SleepIsExact(p, delays, sleeps + [nap], k) {
      SleepStaysExact(p, delays, sleeps, nap, k);
    }
  }

  lemma LastElapsed(delays: nat -> real, sleeps: seq<real>)
    ensures Elapsed(delays, sleeps, |sleeps|) == Passed(delays, |sleeps| + 1) + Sum(sleeps)
  {
    assert sleeps[..|sleeps|] == sleeps;
  }

  lemma NothingSlept(p: Policy, delays: nat -> real)
    requires Accepted(p)
    ensures Sum([]) == 0.0 && SleptExactly(p, delays, []) && Waiting(p, [], 0.0)
  {
  }

  lemma SumAppends(xs: seq<real>, x: real)
    ensures Sum(xs + [x]) == Sum(xs) + x
  {
    assert (xs + [x])[..|xs|] == xs;
  }

  /** `n` initial intervals. */
  function Span(p: Policy, n: nat): real {
    if n == 0 then 0.0 else Span(p, n - 1) + p.initial
  }

  lemma {:induction false} SpanIsProduct(p: Policy, n: nat)
    ensures Span(p, n) == n as real * p.initial
  {
    if n == 0 {
    } else {
      SpanIsProduct(p, n - 1);
      var m := (n - 1) as real;
      assert n as real == m + 1.0;
      assert (m + 1.0) * p.initial == m * p.initial + p.initial;
    }
  }

  /** How many initial intervals fit into the timeout, rounded up. */
  function Bound(p: Policy): int
    requires Accepted(p)
  {
    Ceiling(p.timeout / p.initial)
  }

  lemma QuotientExceeds(n: real, initial: real, timeout: real)
    requires initial > 0.0 && n * initial < timeout
    ensures n < timeout / initial
  {
    var quotient := timeout / initial;
    assert quotient * initial == timeout;
    assert n >= quotient ==> n * initial >= quotient * initial;
  }

  /** While time is left after `n` of them, there are fewer than the bound. */
  lemma SleepsAreFew(p: Policy, n: nat, elapsed: real)
    requires Accepted(p) && Span(p, n) <= elapsed < p.timeout
    ensures n + 1 <= Bound(p)
  {
    SpanIsProduct(p, n);
    QuotientExceeds(n as real, p.initial, p.timeout);
    var quotient := p.timeout / p.initial;
    assert quotient <= Ceiling(quotient) as real;
  }

  /** What the sleeps look like. Only the last one may be cut short by the deadline. */
  ghost predicate Slept(p: Policy, sleeps: seq<real>) {
    && (forall k :: 0 <= k < |sleeps| ==> 0.0 < sleeps[k] <= Interval(p, k) <= p.maximum)
    && (forall k :: 0 <= k < |sleeps| - 1 ==> sleeps[k] == Interval(p, k))
    && Sum(sleeps) <= p.timeout
  }

  /** Before a reading: the time asked for has passed, and either the deadline too or at least
      one initial interval for each sleep. */
  ghost predicate Waiting(p: Policy, sleeps: seq<real>, clock: real) {
    && Slept(p, sleeps) && Sum(sleeps) <= clock
    && (clock >= p.timeout
        || (Span(p, |sleeps|) <= clock && (|sleeps| > 0 ==> sleeps[|sleeps| - 1] == Interval(p, |sleeps| - 1))))
  }

  lemma SleepsAreWhole(p: Policy, sleeps: seq<real>, clock: real)
    requires Waiting(p, sleeps, clock)
    ensures clock >= p.timeout || forall k :: 0 <= k < |sleeps| ==> sleeps[k] == Interval(p, k)
  {
  }

  lemma SleptGrows(p: Policy, sleeps: seq<real>, nap: real)
    requires Slept(p, sleeps) && 0.0 < nap <= Interval(p, |sleeps|) <= p.maximum && Sum(sleeps) + nap <= p.timeout
    requires |sleeps| > 0 ==> sleeps[|sleeps| - 1] == Interval(p, |sleeps| - 1)
    ensures Slept(p, sleeps + [nap])
  {
    assert (sleeps + [nap])[..|sleeps|] == sleeps;
    forall k | 0 <= k < |sleeps| ensures (sleeps + [nap])[k] == Interval(p, k) {
      assert (sleeps + [nap])[k] == sleeps[k];
    }
  }

  lemma SleepingKeepsWaiting(p: Policy, sleeps: seq<real>, before: real, elapsed: real)
    requires Accepted(p) && Waiting(p, sleeps, before) && before <= elapsed < p.timeout
    ensures var nap := Min(Interval(p, |sleeps|), p.timeout - elapsed);
            Waiting(p, sleeps + [nap], elapsed + nap)
  {
    var n, nap := |sleeps|, Min(Interval(p, |sleeps|), p.timeout - elapsed);
    IntervalIsCappedGrowth(p, n);
    assert (sleeps + [nap])[..n] == sleeps;
    SleptGrows(p, sleeps, nap);
  }

  /** `snapshots` are the successive readings. `delays` is the time that passes between the
      start, the readings and the sleeps in addition to what was asked of the sleeper. */
  method WaitForQuota(r: Requirement, p: Policy, snapshots: nat -> Snapshot, delays: nat -> real)
    returns (outcome: Outcome, sleeps: seq<real>)
    requires forall k: nat :: delays(k) >= 0.0
    ensures outcome.status.BadPolicy? <==> !(0.0 < p.initial && p.initial <= p.maximum && 0.0 < p.timeout)
    ensures Accepted(p) ==>
              var polls := |outcome.observations|;
              // Every reading but the last falls short; the last decides.
              && 1 <= polls <= Bound(p) + 1
              && (forall k :: 0 <= k < polls ==> outcome.observations[k] == snapshots(k))
              && (forall k :: 0 <= k < polls - 1 ==> !Meets(outcome.observations[k], r))
              && (outcome.status.Ready? <==> Meets(outcome.observations[polls - 1], r))
              && (outcome.status.TimedOut? ==> outcome.waited >= p.timeout)
              // One sleep between two readings.
              && |sleeps| == polls - 1 && Slept(p, sleeps) && Sum(sleeps) <= outcome.waited
              && (outcome.waited >= p.timeout || forall k :: 0 <= k < |sleeps| ==> sleeps[k] == Interval(p, k))
              // The time waited is that of the sleeps and of everything between them.
              && outcome.waited == Passed(delays, polls) + Sum(sleeps) && SleptExactly(p, delays, sleeps)
    ensures Accepted(p) ==>
              var last := snapshots(|outcome.observations| - 1);
              if last.cpuLimit - last.cpuUsage >= r.vcpus && last.diskLimit - last.diskUsage >= r.disk
              then outcome.status.Ready? else outcome.status.TimedOut? && outcome.waited >= p.timeout
  {
    hide Sum, Slept, SleptExactly, Elapsed, Bound;
    sleeps := [];
    if !Accepted(p) {
      return Outcome(BadPolicy, [], 0.0), sleeps;
    }
    var clock, interval, observations := 0.0, p.initial, [];
    NothingSlept(p, delays);
    SleepsAreFew(p, 0, 0.0);
    while true
      invariant |sleeps| == |observations| && interval == Interval(p, |sleeps|)
      invariant forall k :: 0 <= k < |observations| ==> observations[k] == snapshots(k) && !Meets(observations[k], r)
      invariant clock == Passed(delays, |sleeps|) + Sum(sleeps) && SleptExactly(p, delays, sleeps)
      invariant Waiting(p, sleeps, clock) && clock >= 0.0 && |sleeps| <= Bound(p)
      decreases Bound(p) - |sleeps|
    {
      var current := snapshots(|observations|);
      observations := observations + [current];
      var elapsed := clock + delays(|sleeps|);
      if Meets(current, r) {
        SleepsAreWhole(p, sleeps, clock);
        return Outcome(Ready, observations, elapsed), sleeps;
      }
      if elapsed >= p.timeout {
        return Outcome(TimedOut, observations, elapsed), sleeps;
      }
      var nap := Min(interval, p.timeout - elapsed);
      IntervalIsCappedGrowth(p, |sleeps|);
      SleepsAreFew(p, |sleeps|, elapsed);
      SleepingKeepsWaiting(p, sleeps, clock, elapsed);
      LastElapsed(delays, sleeps);
      SleptExactlyGrows(p, delays, sleeps, elapsed);
      SumAppends(sleeps, nap);
      sleeps, clock := sleeps + [nap], elapsed + nap;
      interval := Min(p.maximum, interval * 1.5);
    }
  }
}
