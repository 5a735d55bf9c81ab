// One LLM request: retries with exponential backoff, each attempt through the breaker.
module LlmClient {
  import opened Options
  import opened CircuitBreakers

  // ----- Backoff -----

  datatype Backoff = Backoff(maxRetries: int, baseDelay: real, maxDelay: real, exponentialBase: real)

  function Power(b: real, n: nat): real
  {
    if n == 0 then 1.0 else b * Power(b, n - 1)
  }

  function Delay(r: Backoff, attempt: nat): real
  {
    Capped(r.baseDelay * Power(r.exponentialBase, attempt), r.maxDelay)
  }

  function Capped(d: real, cap: real): real
  {
    if d < cap then d else cap
  }

  /** How often to retry, and how long to sleep after each attempt. */
  datatype Schedule = Schedule(maxRetries: int, delay: nat -> real)

  function Plan(r: Backoff): Schedule
  {
    Schedule(r.maxRetries, (i: nat) => Delay(r, i))
  }

  /** The delays after the attempts k, ..., n - 1. */
  function TotalDelay(p: Schedule, k: nat, n: nat): real
    decreases n
  {
    if n <= k then 0.0 else TotalDelay(p, k, n - 1) + p.delay(n - 1)
  }

  ghost predicate NonNegative(p: Schedule)
  {
    forall i: nat :: p.delay(i) >= 0.0
  }

  lemma {:induction false} TotalDelaySplit(p: Schedule, k: nat, m: nat, n: nat)
    requires NonNegative(p) && k <= m <= n
    ensures TotalDelay(p, k, n) == TotalDelay(p, k, m) + TotalDelay(p, m, n)
    ensures TotalDelay(p, m, n) >= 0.0
  {
    if m < n {
      TotalDelaySplit(p, k, m, n - 1);
    }
  }

  predicate Growing(r: Backoff)
  {
    r.baseDelay >= 0.0 && r.maxDelay >= 0.0 && r.exponentialBase >= 1.0
  }

  lemma {:induction false} PowerPositive(b: real, n: nat)
    requires b >= 1.0
    ensures Power(b, n) >= 1.0 && Power(b, n + 1) >= Power(b, n)
  {
    if n > 0 {
      PowerPositive(b, n - 1);
      Grows(b, Power(b, n - 1));
    }
    Grows(b, Power(b, n));
  }

  lemma Grows(b: real, x: real)
    requires b >= 1.0 && x >= 0.0
    ensures b * x >= x
  {
    assert (b - 1.0) * x >= 0.0;
  }

  lemma ScaleUp(a: real, x: real, y: real)
    requires a >= 0.0 && x <= y
    ensures a * x <= a * y
  {
    assert a * (y - x) >= 0.0;
  }

  /** Delays never fall and never exceed `max_delay`. */
  lemma DelaysGrowToTheCap(r: Backoff, attempt: nat)
    requires Growing(r)
    ensures 0.0 <= Delay(r, attempt) <= Delay(r, attempt + 1) <= r.maxDelay
  {
    PowerPositive(r.exponentialBase, attempt);
    CappedGrows(r.baseDelay, Power(r.exponentialBase, attempt), Power(r.exponentialBase, attempt + 1), r.maxDelay);
  }

  lemma CappedGrows(base: real, p: real, q: real, cap: real)
    requires base >= 0.0 && cap >= 0.0 && 0.0 <= p <= q
    ensures 0.0 <= Capped(base * p, cap) <= Capped(base * q, cap) <= cap
  {
    ScaleUp(base, p, q);
    ScaleUp(base, 0.0, p);
  }

  lemma PlanIsNonNegative(r: Backoff)
    requires Growing(r)
    ensures NonNegative(Plan(r))
  {
    forall i: nat
      ensures Plan(r).delay(i) >= 0.0
    {
      DelaysGrowToTheCap(r, i);
    }
  }

  /** The schedule without the cap. */
  function Uncapped(r: Backoff): Schedule
  {
    Schedule(r.maxRetries, (i: nat) => r.baseDelay * Power(r.exponentialBase, i))
  }

  lemma {:induction false} TotalsCompare(p: Schedule, q: Schedule, k: nat, n: nat)
    requires forall i: nat :: p.delay(i) <= q.delay(i)
    ensures TotalDelay(p, k, n) <= TotalDelay(q, k, n)
  {
    if k < n { TotalsCompare(p, q, k, n - 1); }
  }

  lemma {:induction false} TotalOfEqual(p: Schedule, cap: real, k: nat, n: nat)
    requires k <= n && forall i: nat :: p.delay(i) <= cap
    ensures TotalDelay(p, k, n) <= (n - k) as real * cap
  {
    if k < n {
      TotalOfEqual(p, cap, k, n - 1);
      assert (n - k) as real * cap == (n - 1 - k) as real * cap + cap;
    }
  }

  /** The delays total at most the capped sum and at most the geometric sum. */
  lemma TotalDelayBounds(r: Backoff, k: nat, n: nat)
    requires Growing(r) && k <= n
    ensures TotalDelay(Plan(r), k, n) <= (n - k) as real * r.maxDelay
    ensures TotalDelay(Plan(r), k, n) <= TotalDelay(Uncapped(r), k, n)
  {
    forall i: nat
      ensures Plan(r).delay(i) <= r.maxDelay
    {
      DelaysGrowToTheCap(r, i);
    }
    TotalOfEqual(Plan(r), r.maxDelay, k, n);
    TotalsCompare(Plan(r), Uncapped(r), k, n);
  }

  /** Delays that each grow by the factor e total (last - first) / (e - 1). */
  lemma {:induction false} GeometricSum(q: Schedule, e: real, k: nat, n: nat)
    requires k <= n && forall i: nat :: Telescopes(q, e, i)
    ensures TotalDelay(q, k, n) * (e - 1.0) == q.delay(n) - q.delay(k)
  {
    if k < n {
      GeometricSum(q, e, k, n - 1);
      assert Telescopes(q, e, n - 1);
      SumTimes(TotalDelay(q, k, n - 1), q.delay(n - 1), TotalDelay(q, k, n), e - 1.0);
    }
  }

  predicate Telescopes(q: Schedule, e: real, i: nat)
  {
    q.delay(i) * (e - 1.0) == q.delay(i + 1) - q.delay(i)
  }

  lemma SumTimes(t: real, d: real, sum: real, x: real)
    requires sum == t + d
    ensures sum * x == t * x + d * x
  {
  }

  /** The delays without the cap grow that way. */
  lemma UncappedTelescopes(r: Backoff, i: nat)
    ensures Telescopes(Uncapped(r), r.exponentialBase, i)
  {
    NextPower(r.baseDelay, r.exponentialBase, Power(r.exponentialBase, i), Power(r.exponentialBase, i + 1));
  }

  lemma NextPower(base: real, b: real, p: real, q: real)
    requires q == b * p
    ensures (base * p) * (b - 1.0) == base * q - base * p
  {
  }

  // ----- One request -----

  /** What an attempt that reaches the server meets: an answer that parses, one that does not, an
      exception, or a cancellation; and how long it takes. */
  datatype Reply =
    | Answered(took: real)
    | Garbled(took: real)
    | Failed(took: real)
    | Cancelled(took: real)

  /** The surroundings of one attempt: the reply it would get, what other calls do to the shared
      breaker while it is in flight and in the sleep after it, and whether that sleep is cancelled. */
  datatype Round = Round(reply: Reply, during: seq<Event>, sleeping: seq<Event>, cut: bool)

  type World = nat -> Round

  datatype Attempt = Attempt(start: real, forwarded: bool, stop: real, after: Breaker)

  datatype Verdict = Answer | Raised | CancelledOut | NeverRan

  function EndOf(r: Reply): Outcome
  {
    match r
    case Answered(_) => Success
    case Garbled(_) => Success
    case Failed(_) => Failure
    case Cancelled(_) => Uncounted
  }

  /** One attempt through the breaker; a rejection takes no time and does not touch it. */
  function Try(c: Config, b: Breaker, round: Round, now: real): Attempt
  {
    if !Admits(c, b, now) then Attempt(now, false, now, b)
    else
      var stop := now + round.reply.took;
      Attempt(now, true, stop, Done(c, Apply(c, Enter(c, b, now), round.during), EndOf(round.reply), stop))
  }

  /** The attempt is answered or cancelled. */
  predicate Ends(a: Attempt, reply: Reply)
  {
    a.forwarded && (reply.Answered? || reply.Cancelled?)
  }

  /** The attempts from number `i` on, the first of them at `now`. */
  function Attempts(c: Config, r: Schedule, b: Breaker, w: World, i: nat, now: real): seq<Attempt>
    decreases r.maxRetries + 1 - i
  {
    if i > r.maxRetries then []
    else
      var a := Try(c, b, w(i), now);
      if Ends(a, w(i).reply) || w(i).cut then [a]
      else [a] + Attempts(c, r, Apply(c, a.after, w(i).sleeping), w, i + 1, a.stop + r.delay(i))
  }

  /** How a request with these attempts ends. */
  function VerdictOf(maxRetries: int, w: World, tries: seq<Attempt>): Verdict
  {
    if tries == [] then NeverRan
    else
      var last := |tries| - 1;
      if tries[last].forwarded && w(last).reply.Answered? then Answer
      else if tries[last].forwarded && w(last).reply.Cancelled? then CancelledOut
      else if last < maxRetries then CancelledOut
      else Raised
  }

  /** The breaker when the request ends: as its last attempt or the sleep after that left it. */
  function LeftBy(c: Config, b: Breaker, maxRetries: int, w: World, tries: seq<Attempt>): Breaker
  {
    if tries == [] then b
    else
      var last := |tries| - 1;
      if Ends(tries[last], w(last).reply) || last == maxRetries then tries[last].after
      else Apply(c, tries[last].after, w(last).sleeping)
  }

  class LLMProxyClient {
    const breaker: CircuitBreaker
    const retry: Backoff

    constructor (b: CircuitBreaker, r: Backoff)
      ensures breaker == b && retry == r
    {
      breaker, retry := b, r;
    }

    /** The body that is retried: one call through the breaker, with the effect of ReplyEffect. */
    method MakeRequest(round: Round, now: real) returns (a: Attempt)
      modifies breaker
      ensures a == Try(breaker.Settings(), old(breaker.Value()), round, now)
      ensures breaker.Value() == a.after
    {
      ghost var c, b := breaker.Settings(), breaker.Value();
      var admitted := breaker.TryEnter(now);
      if !admitted {
        return Attempt(now, false, now, breaker.Value());
      }
      breaker.Serve(round.during);
      var stop := now + round.reply.took;
      match round.reply {
        case Answered(_) => breaker.OnSuccess();
        case Garbled(_) => breaker.OnSuccess();
        case Failed(_) => breaker.OnFailure(stop);
        case Cancelled(_) =>
      }
      assert breaker.Value() == Done(c, Apply(c, Enter(c, b, now), round.during), EndOf(round.reply), stop);
      return Attempt(now, true, stop, breaker.Value());
    }

    /** A request, from its first attempt at `now`. An answer leaves the breaker CLOSED without failures. */
    method ChatCompletion(w: World, now: real) returns (verdict: Verdict, tries: seq<Attempt>)
      modifies breaker
      ensures tries == Attempts(breaker.Settings(), Plan(retry), old(breaker.Value()), w, 0, now)
      ensures verdict == VerdictOf(retry.maxRetries, w, tries)
      ensures breaker.Value() == LeftBy(breaker.Settings(), old(breaker.Value()), retry.maxRetries, w, tries)
      ensures verdict == Answer ==> breaker.state == Closed && breaker.failureCount == 0
    {
      ghost var b := breaker.Value();
      verdict, tries := Retry(w, now);
      AnswerCloses(breaker.Settings(), Plan(retry), b, w, now);
    }

    /** The wrapper of the retry handler; sleeps last exactly the computed delay. */
    method Retry(w: World, now: real) returns (verdict: Verdict, tries: seq<Attempt>)
      modifies breaker
      ensures tries == Attempts(breaker.Settings(), Plan(retry), old(breaker.Value()), w, 0, now)
      ensures verdict == VerdictOf(retry.maxRetries, w, tries)
      ensures breaker.Value() == LeftBy(breaker.Settings(), old(breaker.Value()), retry.maxRetries, w, tries)
    {
      ghost var c, b0, plan := breaker.Settings(), breaker.Value(), Plan(retry);
      ghost var all := Attempts(c, plan, b0, w, 0, now);
      var time, attempt := now, 0;
      tries := [];
      assert tries + all == all;
      while attempt <= retry.maxRetries
        invariant attempt == |tries| && (attempt > 0 ==> attempt <= retry.maxRetries)
        invariant AreNext(c, plan, breaker.Value(), w, time, tries, all)
        invariant tries == [] ==> breaker.Value() == b0
        decreases retry.maxRetries + 1 - attempt
      {
        ghost var before, b := tries, breaker.Value();
        var a := MakeRequest(w(attempt), time);
        AttemptsUnfold(c, plan, b, w, time, before, all);
        ExitOf(c, b0, retry.maxRetries, w, before, a);
        tries := tries + [a];
        if Ends(a, w(attempt).reply) {
          return if w(attempt).reply.Answered? then Answer else CancelledOut, tries;
        }
        if attempt == retry.maxRetries {
          return Raised, tries;
        }
        breaker.Serve(w(attempt).sleeping);
        if w(attempt).cut {
          return CancelledOut, tries;
        }
        time := a.stop + Delay(retry, attempt);
        attempt := attempt + 1;
      }
      verdict := NeverRan;
    }
  }

  /** What each reply to a forwarded attempt does to the breaker: an answer closes it, whether it parses or
      not, a cancellation leaves what other calls made of it, and a failure counts as one more. */
  lemma ReplyEffect(c: Config, b: Breaker, round: Round, now: real)
    ensures Try(c, b, round, now).forwarded <==> Admits(c, b, now)
    ensures !Admits(c, b, now) ==> Try(c, b, round, now) == Attempt(now, false, now, b)
    ensures Admits(c, b, now) ==>
      Try(c, b, round, now).start == now && Try(c, b, round, now).stop == now + round.reply.took
    ensures Admits(c, b, now) ==>
      var n, other := Try(c, b, round, now).after, Apply(c, Enter(c, b, now), round.during);
      match round.reply
      case Answered(_) => n.phase.Closed? && n.failures == 0 && n.lastFailure == other.lastFailure
      case Garbled(_) => n.phase.Closed? && n.failures == 0 && n.lastFailure == other.lastFailure
      case Cancelled(_) => n == other
      case Failed(took) =>
        && n.failures == other.failures + 1 && n.lastFailure == Some(now + took)
        && n.phase == if n.failures >= c.threshold then Open else other.phase
  {
  }

  /** After the attempts made so far come those that a breaker `b` gives from `time` on. */
  ghost predicate AreNext(
    c: Config, r: Schedule, b: Breaker, w: World, time: real, made: seq<Attempt>, all: seq<Attempt>)
  {
    made + Attempts(c, r, b, w, |made|, time) == all
  }

  lemma AttemptsUnfold(
    c: Config, r: Schedule, b: Breaker, w: World, now: real, before: seq<Attempt>, all: seq<Attempt>)
    requires |before| <= r.maxRetries && AreNext(c, r, b, w, now, before, all)
    ensures var a, round := Try(c, b, w(|before|), now), w(|before|);
            if Ends(a, round.reply) || round.cut || |before| == r.maxRetries then before + [a] == all
            else AreNext(c, r, Apply(c, a.after, round.sleeping), w, a.stop + r.delay(|before|), before + [a], all)
  {
    var i := |before|;
    var a := Try(c, b, w(i), now);
    if !(Ends(a, w(i).reply) || w(i).cut) {
      var rest := Attempts(c, r, Apply(c, a.after, w(i).sleeping), w, i + 1, a.stop + r.delay(i));
      assert before + ([a] + rest) == before + [a] + rest;
      if i == r.maxRetries { assert rest == [] && before + [a] + [] == before + [a]; }
    }
  }

  lemma ExitOf(c: Config, b: Breaker, maxRetries: int, w: World, before: seq<Attempt>, a: Attempt)
    ensures var tries, round := before + [a], w(|before|);
            && LeftBy(c, b, maxRetries, w, tries)
               == (if Ends(a, round.reply) || |before| == maxRetries then a.after
                   else Apply(c, a.after, round.sleeping))
            && VerdictOf(maxRetries, w, tries)
               == (if Ends(a, round.reply) then if round.reply.Answered? then Answer else CancelledOut
                   else if |before| < maxRetries then CancelledOut else Raised)
  {
  }

  /** After this attempt the request goes on, if a retry is left. */
  predicate GoesOn(w: World, i: nat, a: Attempt)
  {
    !Ends(a, w(i).reply) && !w(i).cut
  }

  /** A request makes at most max_retries + 1 attempts, stops at the first that is answered or cancelled
      or whose sleep is and at no other, and starts each attempt one delay after the end of the one before. */
  lemma {:induction false} AttemptsShape(c: Config, r: Schedule, b: Breaker, w: World, i: nat, now: real, j: nat)
    requires i <= r.maxRetries
    ensures var all := Attempts(c, r, b, w, i, now);
            && 1 <= |all| <= r.maxRetries + 1 - i && all[0].start == now
            && (j + 1 < |all| ==> GoesOn(w, i + j, all[j]) && all[j + 1].start == all[j].stop + r.delay(i + j))
            && (j + 1 == |all| ==> i + j == r.maxRetries || !GoesOn(w, i + j, all[j]))
    decreases r.maxRetries + 1 - i
  {
    var a := Try(c, b, w(i), now);
    if GoesOn(w, i, a) && i < r.maxRetries {
      var b', next := Apply(c, a.after, w(i).sleeping), a.stop + r.delay(i);
      AttemptsShape(c, r, b', w, i + 1, next, if j > 0 then j - 1 else 0);
      var all, rest := Attempts(c, r, b, w, i, now), Attempts(c, r, b', w, i + 1, next);
      assert all == [a] + rest && i + 1 + (j - 1) == i + j;
    } else {
      assert Attempts(c, r, b, w, i, now) == [a];
    }
  }

  /** An answer is an attempt that is answered, a cancellation one that is cancelled or whose sleep is; an
      error is raised when all retries are used up without either. */
  lemma VerdictMeans(c: Config, r: Schedule, b: Breaker, w: World, now: real)
    ensures var all := Attempts(c, r, b, w, 0, now);
            && (VerdictOf(r.maxRetries, w, all).NeverRan? <==> r.maxRetries < 0)
            && (VerdictOf(r.maxRetries, w, all).Answer?
                <==> exists j :: 0 <= j < |all| && all[j].forwarded && w(j).reply.Answered?)
            && (VerdictOf(r.maxRetries, w, all).CancelledOut?
                <==> exists j :: 0 <= j < |all| && CancelledAt(r, w, all[j], j))
            && (VerdictOf(r.maxRetries, w, all).Raised?
                <==> r.maxRetries >= 0 && |all| == r.maxRetries + 1 && !Ends(all[|all| - 1], w(|all| - 1).reply))
  {
    var all := Attempts(c, r, b, w, 0, now);
    if r.maxRetries >= 0 {
      forall j | 0 <= j < |all|
        ensures j + 1 < |all| ==> GoesOn(w, j, all[j])
        ensures j + 1 == |all| ==> j == r.maxRetries || !GoesOn(w, j, all[j])
      {
        AttemptsShape(c, r, b, w, 0, now, j);
        assert 0 + j == j;
      }
      AttemptsShape(c, r, b, w, 0, now, 0);
      var last := |all| - 1;
      assert last + 1 == |all|;
      assert all[last].forwarded && w(last).reply.Answered? ==> VerdictOf(r.maxRetries, w, all).Answer?;
      assert CancelledAt(r, w, all[last], last) ==> VerdictOf(r.maxRetries, w, all).CancelledOut?;
    }
  }

  /** The attempt is cancelled, or the sleep after it is. */
  predicate CancelledAt(r: Schedule, w: World, a: Attempt, j: nat)
  {
    if Ends(a, w(j).reply) then w(j).reply.Cancelled? else w(j).cut && j < r.maxRetries
  }

  /** Every attempt of a request is made through the breaker as it then stands. */
  lemma {:induction false} EachIsTried(c: Config, r: Schedule, b: Breaker, w: World, i: nat, now: real, j: nat)
    returns (found: Breaker, at: real)
    requires j < |Attempts(c, r, b, w, i, now)|
    ensures Attempts(c, r, b, w, i, now)[j] == Try(c, found, w(i + j), at)
    decreases j
  {
    var a := Try(c, b, w(i), now);
    if j == 0 {
      found, at := b, now;
    } else {
      found, at := EachIsTried(c, r, Apply(c, a.after, w(i).sleeping), w, i + 1, a.stop + r.delay(i), j - 1);
      assert i + 1 + (j - 1) == i + j;
    }
  }

  /** A request that is answered leaves the breaker CLOSED with no failures, whatever came before. */
  lemma AnswerCloses(c: Config, r: Schedule, b: Breaker, w: World, now: real)
    ensures var all := Attempts(c, r, b, w, 0, now);
            var left := LeftBy(c, b, r.maxRetries, w, all);
            VerdictOf(r.maxRetries, w, all) == Answer ==> left.phase.Closed? && left.failures == 0
  {
    var all := Attempts(c, r, b, w, 0, now);
    if VerdictOf(r.maxRetries, w, all) == Answer {
      var found, at := EachIsTried(c, r, b, w, 0, now, |all| - 1);
      ReplyEffect(c, found, w(|all| - 1), at);
    }
  }

  // ----- Attempts against an open breaker -----

  /** The events of other calls lie in the time of the attempt or the sleep they are listed with. */
  ghost predicate Timely(c: Config, r: Schedule, b: Breaker, w: World, i: nat, now: real)
    decreases r.maxRetries + 1 - i
  {
    i > r.maxRetries ||
    var a := Try(c, b, w(i), now);
    && (a.forwarded ==> Timed(w(i).during, a.start, a.stop))
    && (Ends(a, w(i).reply) || i == r.maxRetries
        || (Timed(w(i).sleeping, a.stop, a.stop + r.delay(i))
            && (w(i).cut || Timely(c, r, Apply(c, a.after, w(i).sleeping), w, i + 1, a.stop + r.delay(i)))))
  }

  /** What other calls do in the sleeps after the attempts i, ..., j - 1. */
  function Between(w: World, i: nat, j: nat): seq<Event>
    decreases j
  {
    if j <= i then [] else Between(w, i, j - 1) + w(j - 1).sleeping
  }

  lemma Associate(a: seq<Event>, b: seq<Event>, c: seq<Event>)
    ensures a + b + c == a + (b + c)
  {
  }

  lemma {:induction false} BetweenSplit(w: World, i: nat, j: nat)
    requires i < j
    ensures Between(w, i, j) == w(i).sleeping + Between(w, i + 1, j)
    decreases j
  {
    if j == i + 1 {
      assert Between(w, i, i) == [] && [] + w(i).sleeping == w(i).sleeping == w(i).sleeping + [];
    } else {
      BetweenSplit(w, i, j - 1);
      Associate(w(i).sleeping, Between(w, i + 1, j - 1), w(j - 1).sleeping);
    }
  }

  /** If the attempts from number `i` at `now` on are all rejected, number `j` is made and let through;
      `since` is what happened between `failedAt`, when the breaker opened, and `now`. */
  predicate PassesAt(c: Config, r: Schedule, w: World, since: seq<Event>, failedAt: real, i: nat, now: real, j: nat)
  {
    && (forall m :: i <= m < j ==> !w(m).cut)
    && LetsThrough(c, since + Between(w, i, j), failedAt, now + TotalDelay(r, i, j))
  }

  lemma PassesLater(c: Config, r: Schedule, w: World, since: seq<Event>, failedAt: real, i: nat, now: real, j: nat)
    requires NonNegative(r) && i < j
    ensures PassesAt(c, r, w, since, failedAt, i, now, j)
            <==> !w(i).cut && PassesAt(c, r, w, since + w(i).sleeping, failedAt, i + 1, now + r.delay(i), j)
  {
    BetweenSplit(w, i, j);
    assert since + (w(i).sleeping + Between(w, i + 1, j)) == since + w(i).sleeping + Between(w, i + 1, j);
    TotalDelaySplit(r, i, i + 1, j);
    assert TotalDelay(r, i, i + 1) == r.delay(i);
  }

  lemma PassesNow(c: Config, r: Schedule, w: World, since: seq<Event>, failedAt: real, i: nat, now: real)
    ensures PassesAt(c, r, w, since, failedAt, i, now, i) <==> LetsThrough(c, since, failedAt, now)
  {
    assert since + Between(w, i, i) == since;
  }

  ghost predicate SomeForwarded(all: seq<Attempt>)
  {
    exists j :: 0 <= j < |all| && all[j].forwarded
  }

  lemma SomeForwardedCons(a: Attempt, rest: seq<Attempt>)
    ensures SomeForwarded([a] + rest) <==> a.forwarded || SomeForwarded(rest)
  {
    var all := [a] + rest;
    assert all[0] == a;
    if j :| 0 <= j < |rest| && rest[j].forwarded { assert all[j + 1] == rest[j]; }
    if j :| 0 <= j < |all| && all[j].forwarded && j > 0 { assert all[j] == rest[j - 1]; }
  }

  ghost predicate SomePasses(
    c: Config, r: Schedule, w: World, since: seq<Event>, failedAt: real, i: nat, now: real)
  {
    exists j :: i <= j <= r.maxRetries && PassesAt(c, r, w, since, failedAt, i, now, j)
  }

  lemma SomePassesUnfold(c: Config, r: Schedule, w: World, since: seq<Event>, failedAt: real, i: nat, now: real)
    requires NonNegative(r) && i <= r.maxRetries
    ensures SomePasses(c, r, w, since, failedAt, i, now)
            <==> || LetsThrough(c, since, failedAt, now)
                 || (!w(i).cut && SomePasses(c, r, w, since + w(i).sleeping, failedAt, i + 1, now + r.delay(i)))
  {
    PassesNow(c, r, w, since, failedAt, i, now);
    var later, next := since + w(i).sleeping, now + r.delay(i);
    if j :| i <= j <= r.maxRetries && PassesAt(c, r, w, since, failedAt, i, now, j) {
      if j > i { PassesLater(c, r, w, since, failedAt, i, now, j); }
    }
    if !w(i).cut && SomePasses(c, r, w, later, failedAt, i + 1, next) {
      var j :| i + 1 <= j <= r.maxRetries && PassesAt(c, r, w, later, failedAt, i + 1, next, j);
      PassesLater(c, r, w, since, failedAt, i, now, j);
    }
  }

  /** The breaker opened at `failedAt` as `b` and has since seen `since`: some attempt from number `i`
      on is forwarded exactly if one of them passes as PassesAt says. */
  lemma {:induction false} OpenAttempts(
    c: Config, r: Schedule, b: Breaker, failedAt: real, since: seq<Event>, w: World, i: nat, now: real)
    requires c.threshold >= 1 && NonNegative(r)
    requires Sound(c, b) && b.phase.Open? && b.lastFailure == Some(failedAt) && Timed(since, failedAt, now)
    requires Timely(c, r, Apply(c, b, since), w, i, now)
    ensures SomeForwarded(Attempts(c, r, Apply(c, b, since), w, i, now))
            <==> SomePasses(c, r, w, since, failedAt, i, now)
    decreases r.maxRetries + 1 - i
  {
    if i <= r.maxRetries {
      AdmittedIff(c, b, failedAt, since, now);
      SomePassesUnfold(c, r, w, since, failedAt, i, now);
      var b' := Apply(c, b, since);
      var a := Try(c, b', w(i), now);
      if a.forwarded || w(i).cut {
        assert Attempts(c, r, b', w, i, now)[0] == a;
      } else {
        var later, next := since + w(i).sleeping, now + r.delay(i);
        ApplyAppend(c, b, since, w(i).sleeping);
        SomeForwardedCons(a, Attempts(c, r, Apply(c, b, later), w, i + 1, next));
        if i < r.maxRetries {
          TimedAppend(since, w(i).sleeping, failedAt, now, next);
          OpenAttempts(c, r, b, failedAt, later, w, i + 1, next);
        }
      }
    }
  }

  /** The same for the attempts after number `k`, which opened the breaker at `stop`. */
  ghost predicate SomePassesAfter(c: Config, r: Schedule, w: World, k: nat, stop: real)
  {
    exists j :: k < j <= r.maxRetries && PassesAt(c, r, w, [], stop, k, stop, j)
  }

  lemma PassesAfterUnfold(c: Config, r: Schedule, w: World, k: nat, stop: real)
    requires NonNegative(r) && k <= r.maxRetries
    ensures SomePassesAfter(c, r, w, k, stop)
            <==> !w(k).cut && SomePasses(c, r, w, w(k).sleeping, stop, k + 1, stop + r.delay(k))
  {
    assert [] + w(k).sleeping == w(k).sleeping;
    if j :| k < j <= r.maxRetries && PassesAt(c, r, w, [], stop, k, stop, j) {
      PassesLater(c, r, w, [], stop, k, stop, j);
    }
    if !w(k).cut && SomePasses(c, r, w, w(k).sleeping, stop, k + 1, stop + r.delay(k)) {
      var j :| k + 1 <= j <= r.maxRetries && PassesAt(c, r, w, w(k).sleeping, stop, k + 1, stop + r.delay(k), j);
      PassesLater(c, r, w, [], stop, k, stop, j);
    }
  }

  /** Attempt `k` failed at the server and left the breaker OPEN. Whatever other calls do, a later attempt
      of the same request reaches the server exactly when, before one of them, a success or reset had
      fewer failures after it than the threshold or the last failure was more than the timeout ago. */
  lemma ContactAfterOpeningIff(c: Config, r: Schedule, b: Breaker, w: World, k: nat, now: real)
    requires c.threshold >= 1 && NonNegative(r) && Sound(c, b) && k <= r.maxRetries
    requires Admits(c, b, now) && w(k).reply.Failed? && Timely(c, r, b, w, k, now)
    requires Try(c, b, w(k), now).after.phase.Open?
    ensures SomeForwarded(Attempts(c, r, b, w, k, now)[1..]) <==> SomePassesAfter(c, r, w, k, now + w(k).reply.took)
  {
    var a := Try(c, b, w(k), now);
    var later := Apply(c, a.after, w(k).sleeping);
    var rest := Attempts(c, r, later, w, k + 1, a.stop + r.delay(k));
    PassesAfterUnfold(c, r, w, k, a.stop);
    assert Attempts(c, r, b, w, k, now)[1..] == if w(k).cut then [] else rest;
    if !w(k).cut && k < r.maxRetries {
      FailedIsOpen(c, b, w(k), now);
      OpenAttempts(c, r, a.after, a.stop, w(k).sleeping, w, k + 1, a.stop + r.delay(k));
    }
  }

  lemma FailedIsOpen(c: Config, b: Breaker, round: Round, now: real)
    requires c.threshold >= 1 && Sound(c, b) && Admits(c, b, now) && round.reply.Failed?
    ensures var a := Try(c, b, round, now);
            && a.after.lastFailure == Some(a.stop) && Sound(c, a.after) && !a.after.phase.HalfOpen?
  {
    SoundApply(c, Enter(c, b, now), round.during);
  }

  // ----- Requests whose sleeps are short -----

  /** All sleeps of a request together are no longer than the recovery timeout. */
  ghost predicate Brief(c: Config, r: Schedule)
  {
    NonNegative(r) && TotalDelay(r, 0, if r.maxRetries < 0 then 0 else r.maxRetries) <= c.timeout
  }

  lemma BriefTail(c: Config, r: Schedule, k: nat, j: nat)
    requires Brief(c, r) && k <= j <= r.maxRetries
    ensures 0.0 <= TotalDelay(r, k, j) <= c.timeout
  {
    TotalDelaySplit(r, 0, k, j);
    TotalDelaySplit(r, 0, j, r.maxRetries);
    TotalDelaySplit(r, 0, 0, k);
    TotalDelaySplit(r, 0, 0, j);
  }

  /** No sleep after the attempts i, ..., j - 1 is cancelled, and `since` together with these sleeps has a
      success or reset of another call with fewer failures after it than the threshold. */
  predicate ClearedBefore(c: Config, w: World, since: seq<Event>, i: nat, j: nat)
  {
    (forall m :: i <= m < j ==> !w(m).cut) && FewSinceCleared(since + Between(w, i, j), c.threshold)
  }

  ghost predicate SomeCleared(c: Config, r: Schedule, w: World, since: seq<Event>, i: nat)
  {
    exists j :: i <= j <= r.maxRetries && ClearedBefore(c, w, since, i, j)
  }

  ghost predicate SomeClearedAfter(c: Config, r: Schedule, w: World, k: nat)
  {
    exists j :: k < j <= r.maxRetries && ClearedBefore(c, w, [], k, j)
  }

  lemma ClearedLater(c: Config, w: World, since: seq<Event>, i: nat, j: nat)
    requires i < j
    ensures ClearedBefore(c, w, since, i, j) <==> !w(i).cut && ClearedBefore(c, w, since + w(i).sleeping, i + 1, j)
  {
    BetweenSplit(w, i, j);
    assert since + (w(i).sleeping + Between(w, i + 1, j)) == since + w(i).sleeping + Between(w, i + 1, j);
  }

  lemma SomeClearedUnfold(c: Config, r: Schedule, w: World, since: seq<Event>, i: nat)
    requires i <= r.maxRetries
    ensures SomeCleared(c, r, w, since, i)
            <==> || FewSinceCleared(since, c.threshold)
                 || (!w(i).cut && SomeCleared(c, r, w, since + w(i).sleeping, i + 1))
  {
    var later := since + w(i).sleeping;
    assert since + Between(w, i, i) == since;
    if FewSinceCleared(since, c.threshold) { assert ClearedBefore(c, w, since, i, i); }
    if j :| i <= j <= r.maxRetries && ClearedBefore(c, w, since, i, j) {
      if j > i { ClearedLater(c, w, since, i, j); }
    }
    if !w(i).cut && SomeCleared(c, r, w, later, i + 1) {
      var j :| i + 1 <= j <= r.maxRetries && ClearedBefore(c, w, later, i + 1, j);
      ClearedLater(c, w, since, i, j);
    }
  }

  /** OpenAttempts for attempts that all come within the recovery timeout unless one is let through. */
  lemma {:induction false} BriefOpenAttempts(
    c: Config, r: Schedule, b: Breaker, failedAt: real, since: seq<Event>, w: World, i: nat, now: real)
    requires c.threshold >= 1 && NonNegative(r)
    requires Sound(c, b) && b.phase.Open? && b.lastFailure == Some(failedAt) && Timed(since, failedAt, now)
    requires Timely(c, r, Apply(c, b, since), w, i, now)
    requires i <= r.maxRetries ==> now + TotalDelay(r, i, r.maxRetries) - failedAt <= c.timeout
    ensures SomeForwarded(Attempts(c, r, Apply(c, b, since), w, i, now)) <==> SomeCleared(c, r, w, since, i)
    decreases r.maxRetries + 1 - i
  {
    if i <= r.maxRetries {
      BriefAdmittedIff(c, r, b, failedAt, since, i, now);
      SomeClearedUnfold(c, r, w, since, i);
      var b' := Apply(c, b, since);
      var a := Try(c, b', w(i), now);
      if a.forwarded || w(i).cut {
        assert Attempts(c, r, b', w, i, now)[0] == a;
      } else {
        var later, next := since + w(i).sleeping, now + r.delay(i);
        ApplyAppend(c, b, since, w(i).sleeping);
        SomeForwardedCons(a, Attempts(c, r, Apply(c, b, later), w, i + 1, next));
        if i < r.maxRetries {
          TimedAppend(since, w(i).sleeping, failedAt, now, next);
          DelayFirst(r, i);
          BriefOpenAttempts(c, r, b, failedAt, later, w, i + 1, next);
        }
      }
    }
  }

  lemma BriefAdmittedIff(c: Config, r: Schedule, b: Breaker, failedAt: real, since: seq<Event>, i: nat, now: real)
    requires c.threshold >= 1 && NonNegative(r) && i <= r.maxRetries
    requires Sound(c, b) && b.phase.Open? && b.lastFailure == Some(failedAt) && Timed(since, failedAt, now)
    requires now + TotalDelay(r, i, r.maxRetries) - failedAt <= c.timeout
    ensures Admits(c, Apply(c, b, since), now) <==> FewSinceCleared(since, c.threshold)
  {
    AdmittedIff(c, b, failedAt, since, now);
    SinceOpened(c, b, failedAt, since, now);
    TotalDelaySplit(r, i, i, r.maxRetries);
  }

  lemma DelayFirst(r: Schedule, i: nat)
    requires NonNegative(r) && i < r.maxRetries
    ensures TotalDelay(r, i, r.maxRetries) == r.delay(i) + TotalDelay(r, i + 1, r.maxRetries)
  {
    TotalDelaySplit(r, i, i + 1, r.maxRetries);
    assert TotalDelay(r, i, i + 1) == r.delay(i);
  }

  /** A request whose sleeps together are no longer than the recovery timeout: once an attempt of it fails
      and leaves the breaker OPEN, a later one reaches the server exactly when in a sleep in between a
      success or reset of another call has fewer failures after it than the threshold. */
  lemma {:induction false} LaterContactIff(
    c: Config, r: Schedule, b: Breaker, w: World, i: nat, now: real, k: nat)
    requires c.threshold >= 1 && Brief(c, r) && Sound(c, b) && Timely(c, r, b, w, i, now)
    requires var all := Attempts(c, r, b, w, i, now);
             k < |all| && all[k].forwarded && w(i + k).reply.Failed? && all[k].after.phase.Open?
    ensures SomeForwarded(Attempts(c, r, b, w, i, now)[k + 1..])
            <==> SomeClearedAfter(c, r, w, i + k)
    decreases k
  {
    var a := Try(c, b, w(i), now);
    var later, next := Apply(c, a.after, w(i).sleeping), a.stop + r.delay(i);
    var all, rest := Attempts(c, r, b, w, i, now), Attempts(c, r, later, w, i + 1, next);
    if k > 0 {
      assert all == [a] + rest && all[k + 1..] == rest[k..] && all[k] == rest[k - 1];
      SoundTry(c, b, w(i), now);
      SoundApply(c, a.after, w(i).sleeping);
      LaterContactIff(c, r, later, w, i + 1, next, k - 1);
      assert i + 1 + (k - 1) == i + k;
    } else {
      FailedIsOpen(c, b, w(i), now);
      ClearedAfter(c, r, w, i);
      assert all[1..] == if w(i).cut then [] else rest;
      if !w(i).cut && i < r.maxRetries {
        BriefTail(c, r, i, r.maxRetries);
        DelayFirst(r, i);
        BriefOpenAttempts(c, r, a.after, a.stop, w(i).sleeping, w, i + 1, next);
      }
    }
  }

  lemma ClearedAfter(c: Config, r: Schedule, w: World, i: nat)
    requires i <= r.maxRetries
    ensures SomeClearedAfter(c, r, w, i) <==> !w(i).cut && SomeCleared(c, r, w, w(i).sleeping, i + 1)
  {
    assert [] + w(i).sleeping == w(i).sleeping;
    if j :| i < j <= r.maxRetries && ClearedBefore(c, w, [], i, j) {
      ClearedLater(c, w, [], i, j);
    }
    if !w(i).cut && SomeCleared(c, r, w, w(i).sleeping, i + 1) {
      var j :| i + 1 <= j <= r.maxRetries && ClearedBefore(c, w, w(i).sleeping, i + 1, j);
      ClearedLater(c, w, [], i, j);
    }
  }

  lemma SoundTry(c: Config, b: Breaker, round: Round, now: real)
    requires c.threshold >= 1 && Sound(c, b)
    ensures Sound(c, Try(c, b, round, now).after)
  {
    if Admits(c, b, now) { SoundApply(c, Enter(c, b, now), round.during); }
  }

  // ----- The deployed settings -----

  const LLM_BREAKER := Config(5, 60.0)
  const LLM_RETRY := Backoff(3, 2.0, 10.0, 2.0)

  lemma LlmDelays()
    ensures Growing(LLM_RETRY)
    ensures Delay(LLM_RETRY, 0) == 2.0 && Delay(LLM_RETRY, 1) == 4.0 && Delay(LLM_RETRY, 2) == 8.0
    ensures TotalDelay(Plan(LLM_RETRY), 0, 3) == 14.0
  {
    var p := Plan(LLM_RETRY);
    assert Power(2.0, 1) == 2.0 * Power(2.0, 0);
    assert Power(2.0, 2) == 2.0 * Power(2.0, 1);
    assert TotalDelay(p, 0, 1) == TotalDelay(p, 0, 0) + p.delay(0);
    assert TotalDelay(p, 0, 2) == TotalDelay(p, 0, 1) + p.delay(1);
  }

  /** The deployed settings are such: 2 + 4 + 8 seconds of sleep against a timeout of 60. */
  lemma LlmIsBrief()
    ensures Brief(LLM_BREAKER, Plan(LLM_RETRY))
    ensures LLM_RETRY.maxRetries == 3 && LLM_BREAKER.threshold == 5 && LLM_BREAKER.timeout == 60.0
    ensures Delay(LLM_RETRY, 0) == 2.0 && Delay(LLM_RETRY, 1) == 4.0 && Delay(LLM_RETRY, 2) == 8.0
  {
    LlmDelays();
    PlanIsNonNegative(LLM_RETRY);
  }

  /** One caller alone: when no other call succeeds and nobody resets the breaker, an attempt that fails
      and leaves it OPEN is the last of its request to reach the server. */
  lemma NoContactAfterOpening(c: Config, r: Schedule, b: Breaker, w: World, now: real, k: nat)
    requires c.threshold >= 1 && Brief(c, r) && Sound(c, b) && Timely(c, r, b, w, 0, now) && NoClears(w)
    requires var all := Attempts(c, r, b, w, 0, now);
             k < |all| && all[k].forwarded && w(k).reply.Failed? && all[k].after.phase.Open?
    ensures !SomeForwarded(Attempts(c, r, b, w, 0, now)[k + 1..])
  {
    LaterContactIff(c, r, b, w, 0, now, k);
    assert 0 + k == k;
    NoneCleared(c, r, w, k);
  }

  /** No call but the request's own succeeds, and nobody resets the breaker. */
  ghost predicate NoClears(w: World)
  {
    forall i: nat :: NothingClears(w(i).during) && NothingClears(w(i).sleeping)
  }

  predicate NothingClears(log: seq<Event>)
  {
    forall i :: 0 <= i < |log| ==> !Clears(log[i])
  }

  lemma {:induction false} BetweenNoClears(w: World, i: nat, j: nat)
    requires NoClears(w)
    ensures NothingClears(Between(w, i, j))
    decreases j
  {
    if j > i { BetweenNoClears(w, i, j - 1); }
  }

  /** `n` calls that begin and fail at -1. */
  function FailedCalls(n: nat): seq<Event>
  {
    if n == 0 then [] else FailedCalls(n - 1) + [Begin(-1.0)] + [End(Failure, -1.0)]
  }

  lemma {:induction false} AfterFailedCalls(c: Config, n: nat)
    requires n < c.threshold
    ensures After(c, FailedCalls(n)) == if n == 0 then FRESH else Breaker(Closed, n, Some(-1.0))
  {
    if n > 0 {
      AfterFailedCalls(c, n - 1);
      ApplyOneMore(c, FRESH, FailedCalls(n - 1), Begin(-1.0));
      ApplyOneMore(c, FRESH, FailedCalls(n - 1) + [Begin(-1.0)], End(Failure, -1.0));
    }
  }

  /** Rounds without other calls are in time. */
  lemma {:induction false} AloneIsTimely(c: Config, r: Schedule, b: Breaker, w: World, i: nat, now: real)
    requires NonNegative(r)
    requires forall j: nat :: j >= i ==> w(j).during == [] && w(j).sleeping == [] && w(j).reply.took >= 0.0
    ensures Timely(c, r, b, w, i, now)
    decreases r.maxRetries + 1 - i
  {
    if i <= r.maxRetries {
      var a := Try(c, b, w(i), now);
      AloneIsTimely(c, r, Apply(c, a.after, w(i).sleeping), w, i + 1, a.stop + r.delay(i));
    }
  }

  /** With the deployed settings: four calls have failed, the first attempt of a request opens the breaker
      at 0, a call that was still in flight succeeds at 1, and the retry at 2 reaches the server. */
  lemma AnotherSuccessLetsThrough() returns (log: seq<Event>, w: World)
    ensures var b := After(LLM_BREAKER, log);
            && Sound(LLM_BREAKER, b) && Timely(LLM_BREAKER, Plan(LLM_RETRY), b, w, 0, 0.0)
            && var all := Attempts(LLM_BREAKER, Plan(LLM_RETRY), b, w, 0, 0.0);
               |all| > 1 && all[0].forwarded && all[0].after.phase.Open? && all[1].forwarded
  {
    log := FailedCalls(4);
    var success := End(Success, 1.0);
    w := (i: nat) => Round(Failed(0.0), [], if i == 0 then [success] else [], false);
    AfterFailedCalls(LLM_BREAKER, 4);
    var b := After(LLM_BREAKER, log);
    var a := Try(LLM_BREAKER, b, w(0), 0.0);
    SuccessCloses(LLM_BREAKER, a.after, success);
    SecondAttempt(LLM_BREAKER, Plan(LLM_RETRY), b, w, 0.0);
    FirstRoundTimely(LLM_BREAKER, Plan(LLM_RETRY), b, w, success);
  }

  lemma FirstRoundTimely(c: Config, r: Schedule, b: Breaker, w: World, e: Event)
    requires r == Plan(LLM_RETRY) && w(0) == Round(Failed(0.0), [], [e], false) && e == End(Success, 1.0)
    requires forall j: nat :: j >= 1 ==> w(j).during == [] && w(j).sleeping == [] && w(j).reply.took >= 0.0
    requires Admits(c, b, 0.0)
    ensures Timely(c, r, b, w, 0, 0.0)
  {
    LlmDelays();
    PlanIsNonNegative(LLM_RETRY);
    var a := Try(c, b, w(0), 0.0);
    assert [e][..0] == [];
    assert Timed([e][..0], 0.0, 1.0) && Timed([e], 0.0, 2.0);
    AloneIsTimely(c, r, Apply(c, a.after, w(0).sleeping), w, 1, a.stop + r.delay(0));
  }

  lemma SecondAttempt(c: Config, r: Schedule, b: Breaker, w: World, now: real)
    requires r.maxRetries >= 1
    ensures var all, a := Attempts(c, r, b, w, 0, now), Try(c, b, w(0), now);
            && all != [] && all[0] == a
            && (GoesOn(w, 0, a) ==>
                  |all| > 1 && all[1] == Try(c, Apply(c, a.after, w(0).sleeping), w(1), a.stop + r.delay(0)))
  {
  }

  lemma SuccessCloses(c: Config, b: Breaker, e: Event)
    requires Clears(e)
    ensures Apply(c, b, [e]).phase.Closed?
  {
    assert [e][..0] == [];
  }

  // ----- How often a dead server is contacted -----

  function Contacts(tries: seq<Attempt>): nat
  {
    if tries == [] then 0 else (if tries[0].forwarded then 1 else 0) + Contacts(tries[1..])
  }

  lemma {:induction false} NoContacts(tries: seq<Attempt>)
    requires !SomeForwarded(tries)
    ensures Contacts(tries) == 0
  {
    if tries != [] {
      assert !tries[0].forwarded;
      SomeForwardedCons(tries[0], tries[1..]);
      assert tries == [tries[0]] + tries[1..];
      NoContacts(tries[1..]);
    }
  }

  /** While nothing clears it and its failures are recent, a breaker that is not HALF_OPEN stays so. */
  lemma {:induction false} NotHalfOpen(c: Config, b: Breaker, shut: real, log: seq<Event>, from: real, to: real)
    requires c.threshold >= 1 && Sound(c, b) && NothingClears(log) && Timed(log, from, to)
    requires !b.phase.HalfOpen? && (b.phase.Open? ==> shut <= b.lastFailure.value <= from)
    requires shut <= from && to - shut <= c.timeout
    ensures var n := Apply(c, b, log);
            && Sound(c, n) && !n.phase.HalfOpen? && (n.phase.Open? ==> shut <= n.lastFailure.value <= to)
  {
    SoundApply(c, b, log);
    if log != [] {
      var rest, e := log[..|log| - 1], log[|log| - 1];
      var mid := if e.ManualReset? then to else e.at;
      TimedLater(rest, from, mid, to);
      NotHalfOpen(c, b, shut, rest, from, mid);
    }
  }

  lemma {:induction false} FailuresAdd(c: Config, b: Breaker, log: seq<Event>)
    requires NothingClears(log)
    ensures Apply(c, b, log).failures == b.failures + CountFailures(log)
  {
    if log != [] { FailuresAdd(c, b, log[..|log| - 1]); }
  }

  /** A failing attempt through a CLOSED breaker, and the sleep after it. */
  lemma FailingRound(c: Config, r: Schedule, b: Breaker, w: World, i: nat, now: real)
    requires c.threshold >= 1 && Brief(c, r) && Sound(c, b) && b.phase.Closed? && i < r.maxRetries
    requires w(i).reply.Failed? && NoClears(w) && Timely(c, r, b, w, i, now)
    ensures var a, next := Try(c, b, w(i), now), now + w(i).reply.took + r.delay(i);
            var n := Apply(c, a.after, w(i).sleeping);
            && a.forwarded && Sound(c, n) && !n.phase.HalfOpen?
            && (n.phase.Open? ==> next - r.delay(i) <= n.lastFailure.value <= next)
            && n.failures == b.failures + CountFailures(w(i).during) + 1 + CountFailures(w(i).sleeping)
  {
    var a := Try(c, b, w(i), now);
    FailedIsOpen(c, b, w(i), now);
    FailuresAdd(c, b, w(i).during);
    FailuresAdd(c, a.after, w(i).sleeping);
    BriefTail(c, r, i, i + 1);
    assert TotalDelay(r, i, i + 1) == r.delay(i);
    assert Timed(w(i).sleeping, a.stop, a.stop + r.delay(i));
    NotHalfOpen(c, a.after, a.stop, w(i).sleeping, a.stop, a.stop + r.delay(i));
  }

  lemma NoneCleared(c: Config, r: Schedule, w: World, i: nat)
    requires NoClears(w)
    ensures !SomeCleared(c, r, w, [], i)
  {
    forall j | i <= j <= r.maxRetries
      ensures !ClearedBefore(c, w, [], i, j)
    {
      BetweenNoClears(w, i, j);
      assert [] + Between(w, i, j) == Between(w, i, j);
    }
  }

  /** No other call fails and no sleep is cancelled. */
  ghost predicate Undisturbed(w: World)
  {
    forall i: nat :: CountFailures(w(i).during) == 0 && CountFailures(w(i).sleeping) == 0 && !w(i).cut
  }

  function Least(left: int, room: int): int
  {
    if left <= 0 then 0 else if left < room then left else room
  }

  /** At most `bound`, and exactly that if nothing disturbs the request. */
  ghost predicate AtMost(n: int, bound: int, w: World)
  {
    n <= bound && (Undisturbed(w) ==> n == bound)
  }

  lemma LeastStep(left: int, room: int, failed: int)
    requires left >= 1 && room >= 1 && failed >= 1
    ensures failed < room ==> 1 + Least(left, room - failed) <= Least(left + 1, room)
    ensures failed == 1 && room > 1 ==> 1 + Least(left, room - 1) == Least(left + 1, room)
    ensures 1 <= Least(left + 1, room) && (room == 1 ==> Least(left + 1, room) == 1)
  {
  }

  lemma FailureStep(w: World, i: nat, failed: int)
    requires failed == CountFailures(w(i).during) + 1 + CountFailures(w(i).sleeping)
    ensures failed >= 1 && (Undisturbed(w) ==> failed == 1)
  {
  }

  /** While no call succeeds and nobody resets it, a CLOSED breaker with `failures` failures lets a request
      whose attempts all fail contact the server at most until the threshold or the retries are used
      up, whichever comes first, and exactly that often if no other call fails and no sleep is cancelled. */
  lemma {:induction false} DeadServerContacts(c: Config, r: Schedule, b: Breaker, w: World, i: nat, now: real)
    requires c.threshold >= 1 && Brief(c, r) && Sound(c, b) && b.phase.Closed?
    requires (forall j: nat :: w(j).reply.Failed?) && NoClears(w) && Timely(c, r, b, w, i, now)
    ensures AtMost(Contacts(Attempts(c, r, b, w, i, now)), Least(r.maxRetries + 1 - i, c.threshold - b.failures), w)
    decreases r.maxRetries + 1 - i
  {
    if i <= r.maxRetries {
      var a := Try(c, b, w(i), now);
      var n, next := Apply(c, a.after, w(i).sleeping), a.stop + r.delay(i);
      ContactsUnfold(c, r, b, w, i, now);
      if !w(i).cut && i < r.maxRetries {
        AfterFailingRound(c, r, b, w, i, now);
        if n.phase.Closed? { DeadServerContacts(c, r, n, w, i + 1, next); }
        FailureStep(w, i, n.failures - b.failures);
        LeastStep(r.maxRetries - i, c.threshold - b.failures, n.failures - b.failures);
      }
    }
  }

  /** A failing attempt through a CLOSED breaker is one contact, and those after its sleep come on top. */
  lemma ContactsUnfold(c: Config, r: Schedule, b: Breaker, w: World, i: nat, now: real)
    requires i <= r.maxRetries && b.phase.Closed? && w(i).reply.Failed?
    ensures var a := Try(c, b, w(i), now);
            Contacts(Attempts(c, r, b, w, i, now))
            == if w(i).cut || i == r.maxRetries then 1
               else 1 + Contacts(Attempts(c, r, Apply(c, a.after, w(i).sleeping), w, i + 1, a.stop + r.delay(i)))
  {
    var a := Try(c, b, w(i), now);
    var rest := Attempts(c, r, Apply(c, a.after, w(i).sleeping), w, i + 1, a.stop + r.delay(i));
    assert Attempts(c, r, b, w, i, now)[1..] == if w(i).cut then [] else rest;
  }

  /** A breaker that is OPEN after a failing round gives the rest of the request no contact. */
  lemma AfterFailingRound(c: Config, r: Schedule, b: Breaker, w: World, i: nat, now: real)
    requires c.threshold >= 1 && Brief(c, r) && Sound(c, b) && b.phase.Closed? && i < r.maxRetries
    requires w(i).reply.Failed? && !w(i).cut && NoClears(w) && Timely(c, r, b, w, i, now)
    ensures var a := Try(c, b, w(i), now);
            var n, next := Apply(c, a.after, w(i).sleeping), a.stop + r.delay(i);
            && Sound(c, n) && Timely(c, r, n, w, i + 1, next)
            && n.failures == b.failures + CountFailures(w(i).during) + 1 + CountFailures(w(i).sleeping)
            && (!n.phase.Closed? ==> Contacts(Attempts(c, r, n, w, i + 1, next)) == 0)
  {
    var a := Try(c, b, w(i), now);
    var n := Apply(c, a.after, w(i).sleeping);
    FailingRound(c, r, b, w, i, now);
    if n.phase.Open? { OpenIsShut(c, r, n, w, i + 1, a.stop + r.delay(i), a.stop); }
  }

  /** A breaker that opened since `shut` lets no attempt through while nothing clears it. */
  lemma OpenIsShut(c: Config, r: Schedule, b: Breaker, w: World, i: nat, now: real, shut: real)
    requires c.threshold >= 1 && Brief(c, r) && Sound(c, b) && b.phase.Open? && 0 < i <= r.maxRetries
    requires shut <= b.lastFailure.value <= now == shut + r.delay(i - 1)
    requires NoClears(w) && Timely(c, r, b, w, i, now)
    ensures Contacts(Attempts(c, r, b, w, i, now)) == 0
  {
    BriefTail(c, r, i - 1, r.maxRetries);
    DelayFirst(r, i - 1);
    NoneCleared(c, r, w, i);
    BriefOpenAttempts(c, r, b, b.lastFailure.value, [], w, i, now);
    NoContacts(Attempts(c, r, b, w, i, now));
  }
}
