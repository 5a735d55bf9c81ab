// The circuit breaker: a state that calls in flight may change in any order.
module CircuitBreakers {
  import opened Options
  import opened Timeline

  datatype Phase = Closed | Open | HalfOpen

  datatype Breaker = Breaker(phase: Phase, failures: nat, lastFailure: Option<real>)

  datatype Config = Config(threshold: int, timeout: real)

  const FRESH := Breaker(Closed, 0, None)

  /** How a forwarded call ends; `Uncounted` is a cancellation or an exception outside `expected_exception`. */
  datatype Outcome = Success | Failure | Uncounted

  predicate ShouldAttemptReset(c: Config, b: Breaker, now: real)
  {
    b.lastFailure.Some? && now - b.lastFailure.value > c.timeout
  }

  predicate Admits(c: Config, b: Breaker, now: real)
  {
    b.phase.Open? ==> ShouldAttemptReset(c, b, now)
  }

  function Enter(c: Config, b: Breaker, now: real): Breaker
  {
    if b.phase.Open? && Admits(c, b, now) then b.(phase := HalfOpen) else b
  }

  function Done(c: Config, b: Breaker, o: Outcome, now: real): Breaker
  {
    match o
    case Success => b.(phase := Closed, failures := 0)
    case Failure =>
      Breaker(if b.failures + 1 >= c.threshold then Open else b.phase, b.failures + 1, Some(now))
    case Uncounted => b
  }

  class CircuitBreaker {
    const failureThreshold: int
    const recoveryTimeout: real
    var state: Phase
    var failureCount: nat
    var lastFailureTime: Option<real>

    function Value(): Breaker
      reads this
    {
      Breaker(state, failureCount, lastFailureTime)
    }

    function Settings(): Config
    {
      Config(failureThreshold, recoveryTimeout)
    }

    constructor (threshold: int, timeout: real)
      ensures Value() == FRESH && Settings() == Config(threshold, timeout)
    {
      failureThreshold, recoveryTimeout := threshold, timeout;
      state, failureCount, lastFailureTime := Closed, 0, None;
    }

    /** The part of `call` before the function is awaited; false is the rejection. */
    method TryEnter(now: real) returns (admitted: bool)
      modifies this
      ensures admitted == Admits(Settings(), old(Value()), now)
      ensures Value() == Enter(Settings(), old(Value()), now)
    {
      if state == Open {
        if lastFailureTime.Some? && now - lastFailureTime.value > recoveryTimeout {
          state := HalfOpen;
        } else {
          return false;
        }
      }
      return true;
    }

    method OnSuccess()
      modifies this
      ensures forall now :: Value() == Done(Settings(), old(Value()), Success, now)
    {
      failureCount := 0;
      state := Closed;
    }

    method OnFailure(now: real)
      modifies this
      ensures Value() == Done(Settings(), old(Value()), Failure, now)
    {
      failureCount := failureCount + 1;
      lastFailureTime := Some(now);
      if failureCount >= failureThreshold {
        state := Open;
      }
    }

    method Reset()
      modifies this
      ensures Value() == FRESH
    {
      failureCount := 0;
      state := Closed;
      lastFailureTime := None;
    }

    /** What any calls do to the breaker, one event after the other. */
    method Serve(events: seq<Event>)
      modifies this
      ensures Value() == Apply(Settings(), old(Value()), events)
    {
      for i := 0 to |events|
        invariant Value() == Apply(Settings(), old(Value()), events[..i])
      {
        assert events[..i + 1][..i] == events[..i];
        match events[i] {
          case Begin(at) => var admitted := TryEnter(at);
          case End(Success, at) => OnSuccess();
          case End(Failure, at) => OnFailure(at);
          case End(Uncounted, at) =>
          case ManualReset => Reset();
        }
        assert Value() == Step(Settings(), Apply(Settings(), old(Value()), events[..i]), events[i]);
      }
      assert events[..|events|] == events;
    }
  }

  // ----- Any interleaving of calls -----

  /** Calls begin and end in any order; a call that is rejected has no end. */
  datatype Event = Begin(at: real) | End(outcome: Outcome, at: real) | ManualReset

  function Step(c: Config, b: Breaker, e: Event): Breaker
  {
    match e
    case Begin(now) => Enter(c, b, now)
    case End(o, now) => Done(c, b, o, now)
    case ManualReset => FRESH
  }

  /** The breaker after events that found it as `b`. */
  function Apply(c: Config, b: Breaker, log: seq<Event>): Breaker
  {
    if log == [] then b else Step(c, Apply(c, b, log[..|log| - 1]), log[|log| - 1])
  }

  function After(c: Config, log: seq<Event>): Breaker
  {
    Apply(c, FRESH, log)
  }

  predicate Clears(e: Event)
  {
    e.ManualReset? || (e.End? && e.outcome.Success?)
  }

  predicate IsFailure(e: Event)
  {
    e.End? && e.outcome.Failure?
  }

  function CountFailures(log: seq<Event>): nat
  {
    if log == [] then 0
    else CountFailures(log[..|log| - 1]) + (if IsFailure(log[|log| - 1]) then 1 else 0)
  }

  lemma ApplyOneMore(c: Config, b: Breaker, log: seq<Event>, e: Event)
    ensures Apply(c, b, log + [e]) == Step(c, Apply(c, b, log), e)
    ensures CountFailures(log + [e]) == CountFailures(log) + (if IsFailure(e) then 1 else 0)
  {
    assert (log + [e])[..|log|] == log;
  }

  lemma {:induction false} ApplyAppend(c: Config, b: Breaker, l1: seq<Event>, l2: seq<Event>)
    ensures Apply(c, b, l1 + l2) == Apply(c, Apply(c, b, l1), l2)
  {
    if l2 == [] {
      assert l1 + l2 == l1;
    } else {
      assert (l1 + l2)[..|l1 + l2| - 1] == l1 + l2[..|l2| - 1];
      ApplyAppend(c, b, l1, l2[..|l2| - 1]);
    }
  }

  /** CLOSED is exactly "fewer failures than the threshold", and otherwise a failure time is known. */
  lemma {:induction false} ClosedBelowThreshold(c: Config, log: seq<Event>)
    requires c.threshold >= 1
    ensures After(c, log).phase.Closed? <==> After(c, log).failures < c.threshold
    ensures !After(c, log).phase.Closed? ==> After(c, log).lastFailure.Some?
    ensures After(c, log).failures > 0 ==> After(c, log).lastFailure.Some?
  {
    if log != [] {
      ClosedBelowThreshold(c, log[..|log| - 1]);
    }
  }

  /** With a threshold of zero or less even a fresh breaker is CLOSED at the threshold. */
  lemma ZeroThresholdIsClosedAtThreshold(c: Config)
    ensures (forall log :: After(c, log).phase.Closed? <==> After(c, log).failures < c.threshold) <==> c.threshold >= 1
  {
    if c.threshold >= 1 {
      forall log
        ensures After(c, log).phase.Closed? <==> After(c, log).failures < c.threshold
      {
        ClosedBelowThreshold(c, log);
      }
    } else {
      assert After(c, []) == FRESH;
    }
  }

  lemma ZeroThresholdFails()
    ensures After(Config(0, 60.0), []).phase.Closed? && After(Config(0, 60.0), []).failures == 0
  {
  }

  /** The failure count is the number of failures since the last success or manual reset. */
  lemma {:induction false} FailuresSinceCleared(c: Config, before: seq<Event>, since: seq<Event>)
    requires before == [] || Clears(before[|before| - 1])
    requires forall e :: e in since ==> !Clears(e)
    ensures After(c, before + since).failures == CountFailures(since)
  {
    if since == [] {
      assert before + since == before;
    } else {
      var rest, e := since[..|since| - 1], since[|since| - 1];
      assert before + since == before + rest + [e] && e in since;
      FailuresSinceCleared(c, before, rest);
      ApplyOneMore(c, FRESH, rest, e);
      ApplyOneMore(c, FRESH, before + rest, e);
    }
  }

  /** A call that begins more than the timeout after the failure. */
  predicate IsProbe(c: Config, failedAt: real, e: Event)
  {
    e.Begin? && e.at - failedAt > c.timeout
  }

  predicate Probed(c: Config, failedAt: real, since: seq<Event>)
  {
    exists e :: e in since && IsProbe(c, failedAt, e)
  }

  lemma ProbedOneMore(c: Config, failedAt: real, since: seq<Event>, e: Event)
    ensures Probed(c, failedAt, since + [e]) <==> Probed(c, failedAt, since) || IsProbe(c, failedAt, e)
  {
    if IsProbe(c, failedAt, e) { assert e in since + [e]; }
    if x :| x in since && IsProbe(c, failedAt, x) { assert x in since + [e]; }
  }

  predicate Quiet(since: seq<Event>)
  {
    forall i :: 0 <= i < |since| ==> !Clears(since[i]) && !IsFailure(since[i])
  }

  lemma {:induction false} QuietSinceOpen(c: Config, b: Breaker, failedAt: real, since: seq<Event>)
    requires b.phase.Open? && b.lastFailure == Some(failedAt) && Quiet(since)
    ensures var n := Apply(c, b, since);
            && n.lastFailure == b.lastFailure && n.failures == b.failures && !n.phase.Closed?
            && (n.phase.HalfOpen? <==> Probed(c, failedAt, since))
  {
    if since != [] {
      var rest, last := since[..|since| - 1], since[|since| - 1];
      assert since == rest + [last];
      QuietSinceOpen(c, b, failedAt, rest);
      ProbedOneMore(c, failedAt, rest, last);
    }
  }

  /** What happens after a failure that reaches the threshold: OPEN until a call begins more than
      the timeout later, HALF_OPEN from then on, whatever cancelled calls end meanwhile. */
  lemma OpenUntilProbe(c: Config, before: seq<Event>, failedAt: real, since: seq<Event>)
    requires After(c, before).failures + 1 >= c.threshold && Quiet(since)
    ensures var b := After(c, before + [End(Failure, failedAt)] + since);
            && b.lastFailure == Some(failedAt) && b.failures == After(c, before).failures + 1
            && !b.phase.Closed? && (b.phase.HalfOpen? <==> Probed(c, failedAt, since))
  {
    ApplyOneMore(c, FRESH, before, End(Failure, failedAt));
    ApplyAppend(c, FRESH, before + [End(Failure, failedAt)], since);
    QuietSinceOpen(c, After(c, before + [End(Failure, failedAt)]), failedAt, since);
  }

  /** One failure while HALF_OPEN reopens the breaker. */
  lemma ProbeFailureReopens(c: Config, log: seq<Event>, now: real)
    requires c.threshold >= 1 && After(c, log).phase.HalfOpen?
    ensures After(c, log + [End(Failure, now)]).phase.Open?
    ensures forall t :: t - now <= c.timeout ==> !Admits(c, After(c, log + [End(Failure, now)]), t)
  {
    ClosedBelowThreshold(c, log);
    ApplyOneMore(c, FRESH, log, End(Failure, now));
  }

  // ----- When an OPEN breaker lets a call through again -----

  /** What holds of every breaker that began FRESH: see ClosedBelowThreshold. */
  predicate Sound(c: Config, b: Breaker)
  {
    && (b.phase.Closed? <==> b.failures < c.threshold)
    && (b.failures > 0 ==> b.lastFailure.Some?)
  }

  lemma {:induction false} SoundApply(c: Config, b: Breaker, log: seq<Event>)
    requires c.threshold >= 1 && Sound(c, b)
    ensures Sound(c, Apply(c, b, log))
  {
    if log != [] { SoundApply(c, b, log[..|log| - 1]); }
  }

  /** Events in order of time, not before `from` and not after `to`. */
  predicate Timed(since: seq<Event>, from: real, to: real)
  {
    if since == [] then from <= to
    else
      var e := since[|since| - 1];
      if e.ManualReset? then Timed(since[..|since| - 1], from, to)
      else e.at <= to && Timed(since[..|since| - 1], from, e.at)
  }

  lemma {:induction false} TimedAppend(l1: seq<Event>, l2: seq<Event>, from: real, mid: real, to: real)
    requires Timed(l1, from, mid) && Timed(l2, mid, to)
    ensures Timed(l1 + l2, from, to)
    decreases |l2|
  {
    if l2 == [] {
      assert l1 + l2 == l1;
      TimedLater(l1, from, mid, to);
    } else {
      var rest, e := l2[..|l2| - 1], l2[|l2| - 1];
      assert (l1 + l2)[..|l1 + l2| - 1] == l1 + rest;
      TimedAppend(l1, rest, from, mid, if e.ManualReset? then to else e.at);
    }
  }

  lemma {:induction false} TimedLater(log: seq<Event>, from: real, to: real, later: real)
    requires Timed(log, from, to) && to <= later
    ensures Timed(log, from, later) && from <= to
  {
    if log != [] {
      var e := log[|log| - 1];
      TimedLater(log[..|log| - 1], from, if e.ManualReset? then to else e.at, later);
    }
  }

  /** The time of the last failure, the first of them at `failedAt`. */
  function LastFailure(since: seq<Event>, failedAt: real): real
  {
    if since == [] then failedAt
    else if IsFailure(since[|since| - 1]) then since[|since| - 1].at
    else LastFailure(since[..|since| - 1], failedAt)
  }

  /** A success or reset with fewer than `k` failures after it. */
  predicate FewSinceCleared(since: seq<Event>, k: int)
  {
    exists i :: 0 <= i < |since| && Clears(since[i]) && CountFailures(since[i + 1..]) < k
  }

  lemma FewSinceClearedOneMore(since: seq<Event>, e: Event, k: int)
    ensures FewSinceCleared(since + [e], k)
            <==> (Clears(e) && k > 0) || FewSinceCleared(since, if IsFailure(e) then k - 1 else k)
  {
    var all := since + [e];
    forall i | 0 <= i < |since|
      ensures all[i] == since[i]
      ensures CountFailures(all[i + 1..]) == CountFailures(since[i + 1..]) + (if IsFailure(e) then 1 else 0)
    {
      assert all[i + 1..] == since[i + 1..] + [e];
      ApplyOneMore(Config(0, 0.0), FRESH, since[i + 1..], e);
    }
    assert all[|since|] == e && all[|since| + 1..] == [];
  }

  lemma {:induction false} FewFailuresIff(c: Config, b: Breaker, since: seq<Event>, k: int)
    requires k <= b.failures
    ensures Apply(c, b, since).failures < k <==> FewSinceCleared(since, k)
  {
    if since != [] {
      var rest, e := since[..|since| - 1], since[|since| - 1];
      assert since == rest + [e];
      FewFailuresIff(c, b, rest, if IsFailure(e) then k - 1 else k);
      FewSinceClearedOneMore(rest, e, k);
    }
  }

  /** What has to happen before a breaker that opened at `failedAt` lets a call through at `t`: a
      success or reset with fewer failures after it than the threshold, or the timeout since the
      last failure. */
  predicate LetsThrough(c: Config, since: seq<Event>, failedAt: real, t: real)
  {
    FewSinceCleared(since, c.threshold) || t - LastFailure(since, failedAt) > c.timeout
  }

  lemma {:induction false} SinceOpened(c: Config, b: Breaker, failedAt: real, since: seq<Event>, t: real)
    requires c.threshold >= 1 && Sound(c, b) && b.phase.Open? && b.lastFailure == Some(failedAt)
    requires Timed(since, failedAt, t)
    ensures var n := Apply(c, b, since);
            && (n.failures > 0 ==> n.lastFailure == Some(LastFailure(since, failedAt)))
            && (n.phase.HalfOpen? ==> t - LastFailure(since, failedAt) > c.timeout)
            && failedAt <= LastFailure(since, failedAt) <= t
  {
    SoundApply(c, b, since);
    if since != [] {
      var rest, e := since[..|since| - 1], since[|since| - 1];
      SinceOpened(c, b, failedAt, rest, if e.ManualReset? then t else e.at);
      SoundApply(c, b, rest);
    }
  }

  /** However other calls begin and end after the breaker opened, a call is let through at `t` exactly
      in these two cases. */
  lemma AdmittedIff(c: Config, b: Breaker, failedAt: real, since: seq<Event>, t: real)
    requires c.threshold >= 1 && Sound(c, b) && b.phase.Open? && b.lastFailure == Some(failedAt)
    requires Timed(since, failedAt, t)
    ensures Admits(c, Apply(c, b, since), t) <==> LetsThrough(c, since, failedAt, t)
  {
    SoundApply(c, b, since);
    SinceOpened(c, b, failedAt, since, t);
    FewFailuresIff(c, b, since, c.threshold);
  }

  // ----- Throttling -----

  /** One call of a caller that waits for each call to end; `stop` is used when it is forwarded. */
  datatype Span = Span(start: real, stop: real)

  predicate Sequential(calls: seq<Span>, clock: real)
  {
    calls == [] || (clock <= calls[0].start <= calls[0].stop && Sequential(calls[1..], calls[0].stop))
  }

  /** The start times of the forwarded calls when every forwarded call fails. */
  function Forwarded(c: Config, b: Breaker, calls: seq<Span>): seq<real>
    decreases calls
  {
    if calls == [] then []
    else if Admits(c, b, calls[0].start) then
      [calls[0].start] + Forwarded(c, Done(c, Enter(c, b, calls[0].start), Failure, calls[0].stop), calls[1..])
    else Forwarded(c, b, calls[1..])
  }

  /** Forwarded calls are ordered, and from the `k`-th on each comes more than the timeout after the one before. */
  ghost predicate Throttled(starts: seq<real>, k: int, timeout: real)
  {
    && Sorted(starts)
    && forall i :: 0 < i < |starts| && i >= k ==> starts[i] > starts[i - 1] + timeout
  }

  lemma {:induction false} ForwardedThrottled(c: Config, b: Breaker, calls: seq<Span>, clock: real)
    requires c.timeout >= 0.0 && Sequential(calls, clock)
    requires b.phase.Closed? <==> b.failures < c.threshold
    requires !b.phase.Closed? ==> b.phase.Open? && b.lastFailure.Some?
    ensures var f := Forwarded(c, b, calls);
            && Throttled(f, c.threshold - b.failures, c.timeout)
            && (f != [] ==> f[0] >= clock && (b.phase.Open? ==> f[0] > b.lastFailure.value + c.timeout))
    decreases calls
  {
    if calls != [] {
      var call := calls[0];
      if Admits(c, b, call.start) {
        var next := Done(c, Enter(c, b, call.start), Failure, call.stop);
        ForwardedThrottled(c, next, calls[1..], call.stop);
        var rest := Forwarded(c, next, calls[1..]);
        var f := Forwarded(c, b, calls);
        assert f[1..] == rest;
        forall i, j | 0 <= i <= j < |f|
          ensures f[i] <= f[j]
        {
          if i > 0 { assert rest[i - 1] <= rest[j - 1]; } else if j > 0 { assert rest[0] <= rest[j - 1]; }
        }
        forall i | 0 < i < |f| && i >= c.threshold - b.failures
          ensures f[i] > f[i - 1] + c.timeout
        {
          if i > 1 { assert rest[i - 1] > rest[i - 2] + c.timeout; }
        }
      } else {
        ForwardedThrottled(c, b, calls[1..], call.stop);
      }
    }
  }

  lemma {:induction false} ThrottledClimb(f: seq<real>, k: nat, timeout: real, i: nat, j: nat)
    requires Throttled(f, k, timeout) && timeout >= 0.0 && k >= 1 && i <= j < |f|
    ensures j + 1 - i > k ==> f[j] >= f[i] + (j + 1 - i - k) as real * timeout
    ensures i >= k - 1 ==> f[j] >= f[i] + (j - i) as real * timeout
    ensures i < k - 1 && j >= k - 1 ==> f[j] >= f[i] + (j - (k - 1)) as real * timeout
    decreases j
  {
    if i < j {
      ThrottledClimb(f, k, timeout, i, j - 1);
      if j >= k {
        assert f[j] > f[j - 1] + timeout;
        Distribute(j - i, timeout);
        Distribute(j - (k - 1), timeout);
      }
    }
    if j + 1 - i > k {
      var gained := if i >= k - 1 then j - i else j - (k - 1);
      Scale(j + 1 - i - k, gained, timeout);
    }
  }

  lemma Distribute(n: int, x: real)
    ensures n as real * x == (n - 1) as real * x + x
  {
  }

  lemma Scale(a: int, b: int, x: real)
    requires a <= b && x >= 0.0
    ensures a as real * x <= b as real * x
  {
  }

  /** From a fresh breaker, when every forwarded call of a sequential run fails, the calls forwarded
      within any time T number at most threshold + T / timeout. */
  lemma FailingCallsAreThrottled(c: Config, calls: seq<Span>, clock: real, x: real, T: real)
    requires c.threshold >= 1 && c.timeout > 0.0 && T >= 0.0 && Sequential(calls, clock)
    ensures CountIf(Forwarded(c, FRESH, calls), Between(x, x + T)) as real <= c.threshold as real + T / c.timeout
  {
    ForwardedThrottled(c, FRESH, calls, clock);
    ThrottledCount(Forwarded(c, FRESH, calls), c.threshold, c.timeout, x, T);
  }

  lemma ThrottledCount(f: seq<real>, k: nat, timeout: real, x: real, T: real)
    requires Throttled(f, k, timeout) && timeout > 0.0 && k >= 1 && T >= 0.0
    ensures CountIf(f, Between(x, x + T)) as real <= k as real + T / timeout
  {
    var i, j := CountSpan(f, Between(x, x + T));
    if j - i > k {
      var n := j - i;
      ThrottledClimb(f, k, timeout, i, j - 1);
      assert j - 1 + 1 - i - k == n - k;
      assert f[j - 1] >= f[i] + (n - k) as real * timeout;
      Fits(f[i], f[j - 1], x, T, n, k, timeout);
    } else {
      Fits(x, x, x, T, k, k, timeout);
    }
  }

  /** n instants from `a` to `b`, all but k of them `timeout` apart, within a time T. */
  lemma Fits(a: real, b: real, x: real, T: real, n: int, k: int, timeout: real)
    requires x <= a && b <= x + T && b >= a + (n - k) as real * timeout && timeout > 0.0
    ensures n as real <= k as real + T / timeout
  {
    assert (n - k) as real == n as real - k as real;
    Divide((n - k) as real, timeout, T);
  }

  lemma Divide(n: real, d: real, T: real)
    requires d > 0.0 && n * d <= T
    ensures n <= T / d
  {
  }

  // ----- Throttling with calls in flight -----

  /** When calls were forwarded. */
  function Starts(c: Config, log: seq<Event>): seq<real>
  {
    if log == [] then []
    else
      var rest, e := log[..|log| - 1], log[|log| - 1];
      Starts(c, rest) + (if e.Begin? && Admits(c, After(c, rest), e.at) then [e.at] else [])
  }

  /** Forwarded calls that have not ended, when every end is a failure. */
  function InFlight(c: Config, log: seq<Event>): int
  {
    |Starts(c, log)| - CountFailures(log)
  }

  /** Every forwarded call that ends fails, and at most `m` are in flight at once. */
  predicate AllFail(c: Config, log: seq<Event>, m: nat)
  {
    log == [] ||
    var rest, e := log[..|log| - 1], log[|log| - 1];
    && AllFail(c, rest, m)
    && match e
       case Begin(at) => Admits(c, After(c, rest), at) ==> InFlight(c, rest) < m
       case End(o, _) => o.Failure? && InFlight(c, rest) > 0
       case ManualReset => false
  }

  /** A start at place `k` or later comes more than the timeout after any that is `m` or more places before. */
  ghost predicate Spread(starts: seq<real>, m: nat, k: int, timeout: real)
  {
    forall i, j :: 0 <= i && i + m <= j < |starts| && j >= k ==> starts[j] > starts[i] + timeout
  }

  /** What holds while every call fails: all starts so far come before the last failure of an OPEN breaker,
      and all but those in flight before that of a HALF_OPEN one. */
  ghost predicate FlightOk(c: Config, log: seq<Event>, m: nat, clock: real)
  {
    var b, f := After(c, log), Starts(c, log);
    && Sound(c, b) && b.failures == CountFailures(log) && 0 <= InFlight(c, log) <= m
    && Sorted(f) && (forall i :: 0 <= i < |f| ==> f[i] <= clock)
    && Spread(f, m, c.threshold - 1 + m, c.timeout)
    && (b.phase.Open? ==> b.lastFailure.Some? && forall i :: 0 <= i < |f| ==> f[i] <= b.lastFailure.value)
    && (b.phase.HalfOpen? ==>
          && b.lastFailure.Some? && clock - b.lastFailure.value > c.timeout
          && forall i :: 0 <= i < b.failures ==> f[i] <= b.lastFailure.value)
  }

  lemma {:induction false} AllFailKeeps(c: Config, log: seq<Event>, m: nat, from: real, to: real)
    requires c.threshold >= 1 && c.timeout >= 0.0 && m >= 1 && Timed(log, from, to) && AllFail(c, log, m)
    ensures FlightOk(c, log, m, to)
  {
    if log != [] {
      var rest, e := log[..|log| - 1], log[|log| - 1];
      AllFailKeeps(c, rest, m, from, e.at);
      if e.End? { FailureKeeps(c, log, m, to); } else { BeginKeeps(c, log, m, to); }
    }
  }

  lemma FailureKeeps(c: Config, log: seq<Event>, m: nat, to: real)
    requires c.threshold >= 1 && log != [] && AllFail(c, log, m)
    requires var e := log[|log| - 1]; e.End? && e.at <= to && FlightOk(c, log[..|log| - 1], m, e.at)
    ensures FlightOk(c, log, m, to)
  {
  }

  lemma BeginKeeps(c: Config, log: seq<Event>, m: nat, to: real)
    requires c.threshold >= 1 && m >= 1 && log != [] && AllFail(c, log, m)
    requires var e := log[|log| - 1]; e.Begin? && e.at <= to && FlightOk(c, log[..|log| - 1], m, e.at)
    ensures FlightOk(c, log, m, to)
  {
    var rest, e := log[..|log| - 1], log[|log| - 1];
    if Admits(c, After(c, rest), e.at) {
      StartIsSpread(c, rest, m, e.at);
      StartKeeps(c, log, m, to);
    } else {
      assert Starts(c, log) == Starts(c, rest);
    }
  }

  lemma StartKeeps(c: Config, log: seq<Event>, m: nat, to: real)
    requires c.threshold >= 1 && log != [] && AllFail(c, log, m)
    requires var rest, e := log[..|log| - 1], log[|log| - 1];
             && e.Begin? && e.at <= to && FlightOk(c, rest, m, e.at) && Admits(c, After(c, rest), e.at)
             && Spread(Starts(c, rest) + [e.at], m, c.threshold - 1 + m, c.timeout)
    ensures FlightOk(c, log, m, to)
  {
    var rest, e := log[..|log| - 1], log[|log| - 1];
    assert After(c, log) == Enter(c, After(c, rest), e.at) && Starts(c, log) == Starts(c, rest) + [e.at];
  }

  lemma StartIsSpread(c: Config, log: seq<Event>, m: nat, at: real)
    requires c.threshold >= 1 && m >= 1 && FlightOk(c, log, m, at) && InFlight(c, log) < m
    requires Admits(c, After(c, log), at)
    ensures Spread(Starts(c, log) + [at], m, c.threshold - 1 + m, c.timeout)
  {
    var b, f := After(c, log), Starts(c, log);
    forall i | 0 <= i && i + m <= |f| && |f| >= c.threshold - 1 + m
      ensures at > f[i] + c.timeout
    {
      assert i < b.failures;
    }
  }

  lemma {:induction false} SpreadClimb(f: seq<real>, m: nat, k: int, timeout: real, i: nat, j: nat)
    requires Sorted(f) && Spread(f, m, k, timeout) && timeout >= 0.0 && 1 <= m <= k && i <= j < |f|
    ensures (j + 1 - i - k) as real * timeout <= m as real * (f[j] - f[i])
    decreases j
  {
    if j + 1 - i <= k {
      NotPositive(j + 1 - i - k, timeout);
      Scaled(m, f[i], f[j]);
    } else {
      SpreadClimb(f, m, k, timeout, i, j - m);
      assert f[j] > f[j - m] + timeout;
      OneHop(j - m + 1 - i - k, m, timeout, f[i], f[j - m], f[j]);
    }
  }

  lemma NotPositive(n: int, x: real)
    requires n <= 0 && x >= 0.0
    ensures n as real * x <= 0.0
  {
  }

  lemma Scaled(m: nat, a: real, b: real)
    requires a <= b
    ensures m as real * (b - a) >= 0.0
  {
  }

  lemma OneHop(n: int, m: nat, timeout: real, a: real, b: real, c: real)
    requires n as real * timeout <= m as real * (b - a) && c > b + timeout
    ensures (n + m) as real * timeout <= m as real * (c - a)
  {
    Scaled(m, b + timeout, c);
    assert (n + m) as real * timeout == n as real * timeout + m as real * timeout;
    assert m as real * (c - a) == m as real * (b - a) + m as real * timeout + m as real * (c - (b + timeout));
  }

  /** From a fresh breaker, when every call that ends fails and at most `m` are in flight at once, the calls
      forwarded within any time T number at most threshold - 1 + m + m * T / timeout. */
  lemma FailingCallsInFlight(c: Config, log: seq<Event>, m: nat, from: real, to: real, x: real, T: real)
    requires c.threshold >= 1 && c.timeout > 0.0 && m >= 1 && T >= 0.0
    requires Timed(log, from, to) && AllFail(c, log, m)
    ensures CountIf(Starts(c, log), Between(x, x + T)) as real
            <= (c.threshold - 1 + m) as real + m as real * T / c.timeout
  {
    AllFailKeeps(c, log, m, from, to);
    SpreadCount(Starts(c, log), m, c.threshold - 1 + m, c.timeout, x, T);
  }

  lemma SpreadCount(f: seq<real>, m: nat, k: int, timeout: real, x: real, T: real)
    requires Sorted(f) && Spread(f, m, k, timeout) && timeout > 0.0 && 1 <= m <= k && T >= 0.0
    ensures CountIf(f, Between(x, x + T)) as real <= k as real + m as real * T / timeout
  {
    var i, j := CountSpan(f, Between(x, x + T));
    if j - i > k {
      var n := j - i;
      SpreadClimb(f, m, k, timeout, i, j - 1);
      assert j - 1 + 1 - i - k == n - k;
      SpreadFits(f[i], f[j - 1], x, T, n, k, m, timeout);
    } else {
      assert (k - k) as real * timeout == 0.0 && m as real * (x - x) == 0.0;
      SpreadFits(x, x, x, T, k, k, m, timeout);
    }
  }

  lemma SpreadFits(a: real, b: real, x: real, T: real, n: int, k: int, m: nat, timeout: real)
    requires x <= a && b <= x + T && timeout > 0.0 && (n - k) as real * timeout <= m as real * (b - a)
    ensures n as real <= k as real + m as real * T / timeout
  {
    Scaled(m, b - a, T);
    assert m as real * T == m as real * (b - a) + m as real * (T - (b - a));
    assert (n - k) as real == n as real - k as real;
    Divide((n - k) as real, timeout, m as real * T);
  }

  /** Without such a bound on the calls in flight there is none on the forwarded ones: while HALF_OPEN the
      breaker lets any number of calls through at once. */
  lemma {:induction false} HalfOpenAdmitsAll(c: Config, log: seq<Event>, at: real, n: nat)
    requires After(c, log).phase.HalfOpen?
    ensures After(c, log + Begins(at, n)) == After(c, log)
    ensures |Starts(c, log + Begins(at, n))| == |Starts(c, log)| + n
  {
    if n == 0 {
      assert log + Begins(at, 0) == log;
    } else {
      var all := log + Begins(at, n);
      assert all[..|all| - 1] == log + Begins(at, n - 1) && all[|all| - 1] == Begin(at);
      HalfOpenAdmitsAll(c, log, at, n - 1);
    }
  }

  function Begins(at: real, n: nat): (log: seq<Event>)
    ensures |log| == n
  {
    if n == 0 then [] else Begins(at, n - 1) + [Begin(at)]
  }
}
