// The fixed-window rate limiter of the auth service, over a store with INCR and EXPIRE.
module FixedWindow {
  import opened Options
  import opened Timeline

  type Key = string

  /** How many requests a key may make within how many seconds. */
  datatype Quota = Quota(limit: int, window: real)

  /** Checks by address and by username share one store under keys of their own. */
  type Quotas = Key -> Quota

  predicate Proper(q: Quota)
  {
    q.limit >= 1 && q.window > 0.0
  }

  /** A counter and the instant it vanishes, if one has been set. */
  datatype Counter = Counter(count: nat, expiry: Option<real>)

  type Store = map<Key, Counter>

  predicate Live(store: Store, k: Key, now: real)
  {
    k in store && (store[k].expiry.Some? ==> now < store[k].expiry.value)
  }

  /** INCR: a missing or expired counter starts again at 1, without an expiry. */
  function Incr(store: Store, k: Key, now: real): Store
  {
    if Live(store, k, now) then store[k := store[k].(count := store[k].count + 1)]
    else store[k := Counter(1, None)]
  }

  /** EXPIRE: sets the expiry of a counter that is still there. */
  function Expire(store: Store, k: Key, window: real, now: real): Store
  {
    if Live(store, k, now) then store[k := store[k].(expiry := Some(now + window))] else store
  }

  class RateLimiter {
    var redis: Store

    constructor ()
      ensures redis == map[]
    {
      redis := map[];
    }

    /** One check; `incrAt` and `expireAt` are the instants at which the two commands reach the store. */
    method CheckRateLimit(k: Key, limit: int, window: real, incrAt: real, expireAt: real)
      returns (isAllowed: bool, remaining: int)
      modifies this
      ensures var counted := Incr(old(redis), k, incrAt);
              && redis == (if counted[k].count == 1 then Expire(counted, k, window, expireAt) else counted)
              && (isAllowed <==> counted[k].count <= limit)
              && remaining == (if isAllowed then limit - counted[k].count else 0)
    {
      redis := Incr(redis, k, incrAt);
      var current := redis[k].count;
      if current == 1 {
        redis := Expire(redis, k, window, expireAt);
      }
      isAllowed := current <= limit;
      remaining := if limit - current > 0 then limit - current else 0;
    }
  }

  // ----- Interleaved checks -----

  /** Other checks may run between the INCR and the EXPIRE of one check. */
  datatype Event = Count(key: Key, at: real) | SetExpiry(key: Key, at: real)

  /** `owed` are the keys whose EXPIRE is still to come, `accepted` the accepted requests so far. */
  datatype State = State(store: Store, owed: set<Key>, accepted: map<Key, seq<real>>, clock: real)

  function Start(clock: real): State
  {
    State(map[], {}, map[], clock)
  }

  function AcceptedOf(s: State, k: Key): seq<real>
  {
    if k in s.accepted then s.accepted[k] else []
  }

  predicate Enabled(s: State, e: Event)
  {
    s.clock <= e.at && (e.SetExpiry? ==> e.key in s.owed)
  }

  function Next(s: State, quotas: Quotas, e: Event): State
  {
    match e
    case Count(k, now) =>
      var store := Incr(s.store, k, now);
      s.(store := store,
         owed := if store[k].count == 1 then s.owed + {k} else s.owed,
         accepted :=
           if store[k].count <= quotas(k).limit then s.accepted[k := AcceptedOf(s, k) + [now]] else s.accepted,
         clock := now)
    case SetExpiry(k, now) =>
      s.(store := Expire(s.store, k, quotas(k).window, now), owed := s.owed - {k}, clock := now)
  }

  predicate IsRun(s: State, quotas: Quotas, run: seq<Event>)
    decreases run
  {
    run == [] || (Enabled(s, run[0]) && IsRun(Next(s, quotas, run[0]), quotas, run[1..]))
  }

  function Final(s: State, quotas: Quotas, run: seq<Event>): State
    decreases run
  {
    if run == [] then s else Final(Next(s, quotas, run[0]), quotas, run[1..])
  }

  // ----- What every step keeps -----

  /** How many accepted requests belong to the counter's present life. */
  function InLife(c: Counter, limit: nat): nat
  {
    if c.count <= limit then c.count else limit
  }

  /** The last `cur` accepted requests are of the present life, the first of them opened it, and the
      life before opened at least a window earlier. */
  ghost predicate LifeOk(times: seq<real>, cur: nat, limit: nat, window: real)
  {
    && 1 <= cur <= |times| && cur <= limit
    && var o := |times| - cur;
       o > 0 ==> times[if o >= limit then o - limit else 0] + window <= times[o]
  }

  /** An accepted history together with the counter of its present life. */
  ghost predicate CounterOk(times: seq<real>, c: Counter, limit: nat, window: real)
  {
    && c.count >= 1
    && LifeOk(times, InLife(c, limit), limit, window)
    && (c.expiry.Some? ==> times[|times| - InLife(c, limit)] + window <= c.expiry.value)
  }

  ghost predicate HistoryOk(times: seq<real>, limit: nat, window: real, clock: real)
    requires limit >= 1
  {
    && Sorted(times)
    && (forall i :: 0 <= i < |times| ==> times[i] <= clock)
    && Spaced(times, 2 * limit - 1, window)
  }

  ghost predicate KeyOk(s: State, k: Key, q: Quota)
    requires Proper(q)
  {
    var times := AcceptedOf(s, k);
    && HistoryOk(times, q.limit, q.window, s.clock)
    && (k !in s.store ==> times == [])
    && (k in s.store ==> CounterOk(times, s.store[k], q.limit, q.window))
  }

  /** A request accepted within a life keeps 2*limit - 1 requests a window apart. */
  lemma AcceptInLife(times: seq<real>, c: Counter, limit: nat, window: real, clock: real, now: real)
    requires limit >= 1 && window > 0.0 && clock <= now
    requires HistoryOk(times, limit, window, clock) && CounterOk(times, c, limit, window) && c.count < limit
    ensures HistoryOk(times + [now], limit, window, now)
    ensures CounterOk(times + [now], c.(count := c.count + 1), limit, window)
  {
    var n, o := |times|, |times| - c.count;
    forall i | 0 <= i && i + (2 * limit - 1) <= n
      ensures times[i] + window <= now
    {
      assert i <= o - limit;
      assert times[i] <= times[o - limit] && times[o] <= now;
    }
    assert (times + [now])[o] == times[o];
  }

  /** A request that opens the next life comes a window after the opening of the last one. */
  lemma AcceptOpening(times: seq<real>, c: Option<Counter>, limit: nat, window: real, clock: real, now: real)
    requires limit >= 1 && window > 0.0 && clock <= now
    requires HistoryOk(times, limit, window, clock)
    requires c.None? ==> times == []
    requires c.Some? ==> CounterOk(times, c.value, limit, window) && c.value.expiry.Some? && c.value.expiry.value <= now
    ensures HistoryOk(times + [now], limit, window, now)
    ensures CounterOk(times + [now], Counter(1, None), limit, window)
  {
    var n := |times|;
    if c.Some? {
      var o := n - InLife(c.value, limit);
      forall i | 0 <= i && i <= (if n >= limit then n - limit else 0)
        ensures times[i] + window <= now
      {
        assert i <= o ==> times[i] <= times[o];
      }
    }
  }

  lemma CountKeeps(s: State, quotas: Quotas, k: Key, at: real)
    requires Proper(quotas(k)) && s.clock <= at && KeyOk(s, k, quotas(k))
    ensures KeyOk(Next(s, quotas, Count(k, at)), k, quotas(k))
  {
    var times, q := AcceptedOf(s, k), quotas(k);
    if !Live(s.store, k, at) {
      AcceptOpening(times, Get(s.store, k), q.limit, q.window, s.clock, at);
    } else if s.store[k].count < q.limit {
      AcceptInLife(times, s.store[k], q.limit, q.window, s.clock, at);
    }
  }

  lemma ExpiryKeeps(s: State, quotas: Quotas, k: Key, at: real)
    requires Proper(quotas(k)) && s.clock <= at && KeyOk(s, k, quotas(k))
    ensures KeyOk(Next(s, quotas, SetExpiry(k, at)), k, quotas(k))
  {
  }

  lemma StepKeeps(s: State, quotas: Quotas, e: Event, k: Key)
    requires Proper(quotas(k)) && KeyOk(s, k, quotas(k)) && Enabled(s, e)
    ensures KeyOk(Next(s, quotas, e), k, quotas(k))
  {
    if e.key == k {
      match e
      case Count(_, at) => CountKeeps(s, quotas, k, at);
      case SetExpiry(_, at) => ExpiryKeeps(s, quotas, k, at);
    } else {
      assert AcceptedOf(Next(s, quotas, e), k) == AcceptedOf(s, k);
    }
  }

  lemma {:induction false} RunKeeps(s: State, quotas: Quotas, run: seq<Event>, k: Key)
    requires Proper(quotas(k)) && KeyOk(s, k, quotas(k)) && IsRun(s, quotas, run)
    ensures KeyOk(Final(s, quotas, run), k, quotas(k))
    decreases run
  {
    if run != [] {
      StepKeeps(s, quotas, run[0], k);
      RunKeeps(Next(s, quotas, run[0]), quotas, run[1..], k);
    }
  }

  /** However checks of any keys interleave, each key under its own quota, any half-open interval as
      long as the key's window holds at most 2*limit - 1 of its accepted requests. */
  lemma FixedWindowBound(quotas: Quotas, run: seq<Event>, clock: real, k: Key, a: real)
    requires Proper(quotas(k)) && IsRun(Start(clock), quotas, run)
    ensures CountIf(AcceptedOf(Final(Start(clock), quotas, run), k), From(a, quotas(k).window))
            <= 2 * quotas(k).limit - 1
  {
    var q := quotas(k);
    RunKeeps(Start(clock), quotas, run, k);
    SpacedCount(AcceptedOf(Final(Start(clock), quotas, run), k), 2 * q.limit - 1, q.window, From(a, q.window));
  }

  // ----- A window is fixed -----

  /** The EXPIREs still to come are those of the counters without an expiry. */
  ghost predicate OwedOk(s: State)
  {
    && (forall k :: k in s.owed <==> k in s.store && s.store[k].expiry.None?)
    && (forall k :: k in s.store ==> s.store[k].count >= 1)
  }

  lemma {:induction false} OwedKept(s: State, quotas: Quotas, run: seq<Event>)
    requires OwedOk(s) && IsRun(s, quotas, run)
    ensures OwedOk(Final(s, quotas, run))
    decreases run
  {
    if run != [] { OwedKept(Next(s, quotas, run[0]), quotas, run[1..]); }
  }

  /** The requests of a key in a run. */
  function Requests(run: seq<Event>, k: Key): nat
  {
    if run == [] then 0 else (if run[0] == Count(k, run[0].at) then 1 else 0) + Requests(run[1..], k)
  }

  /** A request for the key would be accepted. */
  predicate Accepts(s: State, quotas: Quotas, k: Key, now: real)
  {
    Incr(s.store, k, now)[k].count <= quotas(k).limit
  }

  lemma {:induction false} WindowStays(s: State, quotas: Quotas, run: seq<Event>, k: Key, x: real)
    requires OwedOk(s) && IsRun(s, quotas, run)
    requires k in s.store && s.store[k].expiry == Some(x) && Final(s, quotas, run).clock < x
    ensures var f := Final(s, quotas, run);
            k in f.store && f.store[k] == Counter(s.store[k].count + Requests(run, k), Some(x))
    decreases run
  {
    if run != [] {
      var n := Next(s, quotas, run[0]);
      ClockForward(n, quotas, run[1..]);
      assert n.store[k] == Counter(s.store[k].count + (if run[0] == Count(k, run[0].at) then 1 else 0), Some(x));
      WindowStays(n, quotas, run[1..], k, x);
    }
  }

  lemma {:induction false} ClockForward(s: State, quotas: Quotas, run: seq<Event>)
    requires IsRun(s, quotas, run)
    ensures s.clock <= Final(s, quotas, run).clock
    decreases run
  {
    if run != [] { ClockForward(Next(s, quotas, run[0]), quotas, run[1..]); }
  }

  /** Once set, the expiry of a window does not move, however many requests come before it; they are
      all counted, the next is accepted exactly while fewer than `limit` came, and the first request
      from the expiry on is accepted and counted as the first again. */
  lemma WindowIsFixed(quotas: Quotas, clock: real, before: seq<Event>, run: seq<Event>, k: Key, x: real)
    requires IsRun(Start(clock), quotas, before) && IsRun(Final(Start(clock), quotas, before), quotas, run)
    requires var s := Final(Start(clock), quotas, before);
             k in s.store && s.store[k].expiry == Some(x) && Final(s, quotas, run).clock < x
    ensures var s := Final(Start(clock), quotas, before);
            var f, sent := Final(s, quotas, run), s.store[k].count + Requests(run, k);
            && k in f.store && f.store[k] == Counter(sent, Some(x))
            && (forall now :: now < x ==> (Accepts(f, quotas, k, now) <==> sent < quotas(k).limit))
            && (forall now :: now >= x ==> Incr(f.store, k, now)[k] == Counter(1, None))
  {
    OwedKept(Start(clock), quotas, before);
    WindowStays(Final(Start(clock), quotas, before), quotas, run, k, x);
  }

  // ----- A window that is never set -----

  /** No EXPIRE for the key comes. */
  predicate Unset(run: seq<Event>, k: Key)
  {
    forall i :: 0 <= i < |run| ==> !(run[i].SetExpiry? && run[i].key == k)
  }

  lemma {:induction false} UnsetCountsAll(s: State, quotas: Quotas, run: seq<Event>, k: Key)
    requires IsRun(s, quotas, run) && Unset(run, k) && k in s.store && s.store[k].expiry.None?
    ensures var f := Final(s, quotas, run);
            k in f.store && f.store[k] == Counter(s.store[k].count + Requests(run, k), None)
    decreases run
  {
    if run != [] { UnsetCountsAll(Next(s, quotas, run[0]), quotas, run[1..], k); }
  }

  /** A key that has used up its limit is refused at all later times of all runs without an EXPIRE for it
      exactly when the EXPIRE of the request that opened its window has not come. */
  lemma BlockedForGoodIff(quotas: Quotas, clock: real, before: seq<Event>, k: Key)
    requires IsRun(Start(clock), quotas, before) && quotas(k).limit >= 1
    requires var s := Final(Start(clock), quotas, before); k in s.store && s.store[k].count >= quotas(k).limit
    ensures var s := Final(Start(clock), quotas, before);
            (forall run, now :: IsRun(s, quotas, run) && Unset(run, k) && Final(s, quotas, run).clock <= now
                                ==> !Accepts(Final(s, quotas, run), quotas, k, now))
            <==> k in s.owed
  {
    OwedKept(Start(clock), quotas, before);
    var s := Final(Start(clock), quotas, before);
    if k in s.owed {
      forall run, now | IsRun(s, quotas, run) && Unset(run, k) && Final(s, quotas, run).clock <= now
        ensures !Accepts(Final(s, quotas, run), quotas, k, now)
      {
        UnsetCountsAll(s, quotas, run, k);
      }
    } else {
      var x := s.store[k].expiry.value;
      var now := if x < s.clock then s.clock else x;
      assert IsRun(s, quotas, []) && Unset([], k) && Final(s, quotas, []) == s;
      assert Accepts(Final(s, quotas, []), quotas, k, now);
    }
  }

  // ----- The bound is reached -----

  function Burst(k: Key, at: real, n: nat): seq<Event>
  {
    if n == 0 then [] else [Count(k, at)] + Burst(k, at, n - 1)
  }

  function Times(at: real, n: nat): seq<real>
  {
    if n == 0 then [] else [at] + Times(at, n - 1)
  }

  lemma TimesUnfold(a: seq<real>, at: real, n: nat)
    requires n > 0
    ensures a + [at] + Times(at, n - 1) == a + Times(at, n)
  {
  }

  /** A request within a life that has room for it is accepted. */
  lemma OneAccepted(s: State, quotas: Quotas, k: Key, at: real)
    requires s.clock <= at && Live(s.store, k, at) && 1 <= s.store[k].count < quotas(k).limit
    ensures Next(s, quotas, Count(k, at))
            == s.(store := s.store[k := s.store[k].(count := s.store[k].count + 1)],
                  accepted := s.accepted[k := AcceptedOf(s, k) + [at]], clock := at)
  {
  }

  /** A burst within a life that has room for it is accepted whole. */
  lemma {:induction false} BurstAccepted(s: State, quotas: Quotas, k: Key, at: real, n: nat)
    requires s.clock <= at && Live(s.store, k, at) && 1 <= s.store[k].count && s.store[k].count + n <= quotas(k).limit
    ensures var f := Final(s, quotas, Burst(k, at, n));
            && IsRun(s, quotas, Burst(k, at, n))
            && AcceptedOf(f, k) == AcceptedOf(s, k) + Times(at, n)
            && f.clock <= at && k in f.store && f.store[k].expiry == s.store[k].expiry
    decreases n
  {
    if n > 0 {
      var next := Next(s, quotas, Count(k, at));
      OneAccepted(s, quotas, k, at);
      BurstAccepted(next, quotas, k, at, n - 1);
      assert Burst(k, at, n)[1..] == Burst(k, at, n - 1);
      TimesUnfold(AcceptedOf(s, k), at, n);
    }
  }

  lemma AcceptedBurst(s: State, quotas: Quotas, k: Key, at: real, n: nat) returns (run: seq<Event>)
    requires s.clock <= at && Live(s.store, k, at) && 1 <= s.store[k].count && s.store[k].count + n <= quotas(k).limit
    ensures var f := Final(s, quotas, run);
            && IsRun(s, quotas, run) && f.clock <= at && k in f.store && f.store[k].expiry == s.store[k].expiry
            && AcceptedOf(f, k) == AcceptedOf(s, k) + Times(at, n)
  {
    run := Burst(k, at, n);
    BurstAccepted(s, quotas, k, at, n);
  }

  lemma {:induction false} RunAppend(s: State, quotas: Quotas, a: seq<Event>, b: seq<Event>)
    requires IsRun(s, quotas, a) && IsRun(Final(s, quotas, a), quotas, b)
    ensures IsRun(s, quotas, a + b)
    ensures Final(s, quotas, a + b) == Final(Final(s, quotas, a), quotas, b)
    decreases a
  {
    if a == [] {
      assert a + b == b;
    } else {
      assert (a + b)[1..] == a[1..] + b;
      RunAppend(Next(s, quotas, a[0]), quotas, a[1..], b);
    }
  }

  lemma {:induction false} TimesAre(at: real, n: nat)
    ensures |Times(at, n)| == n && forall i :: 0 <= i < n ==> Times(at, n)[i] == at
  {
    if n > 0 { TimesAre(at, n - 1); }
  }

  /** One request opens a life at 0 and limit - 1 follow within it. */
  lemma FirstLife(quotas: Quotas, k: Key, q: Quota, later: real) returns (run: seq<Event>)
    requires q == quotas(k) && Proper(q) && 0.0 <= later < q.window
    ensures IsRun(Start(0.0), quotas, run) && Opened(Final(Start(0.0), quotas, run), k, q, later)
    ensures AcceptedOf(Final(Start(0.0), quotas, run), k) == [0.0] + Times(later, q.limit - 1)
  {
    var open := Opening(quotas, k, q);
    var s := Final(Start(0.0), quotas, open);
    var first := AcceptedBurst(s, quotas, k, later, q.limit - 1);
    RunAppend(Start(0.0), quotas, open, first);
    run := open + first;
  }

  /** The key's counter was opened at 0 with its window set, and `clock` is not passed. */
  predicate Opened(s: State, k: Key, q: Quota, clock: real)
  {
    s.clock <= clock && k in s.store && s.store[k].expiry == Some(q.window)
  }

  /** A life that opens when the last one has just expired takes `limit` requests more. */
  lemma SecondLife(s: State, quotas: Quotas, k: Key, q: Quota) returns (run: seq<Event>)
    requires q == quotas(k) && Proper(q) && s.clock <= q.window
    requires k in s.store && s.store[k].expiry == Some(q.window)
    ensures IsRun(s, quotas, run)
    ensures AcceptedOf(Final(s, quotas, run), k) == AcceptedOf(s, k) + [q.window] + Times(q.window, q.limit - 1)
  {
    var n := Next(s, quotas, Count(k, q.window));
    var burst := AcceptedBurst(n, quotas, k, q.window, q.limit - 1);
    run := [Count(k, q.window)] + burst;
    assert run[1..] == burst;
  }

  lemma TwoLives(quotas: Quotas, k: Key, q: Quota) returns (run: seq<Event>)
    requires q == quotas(k) && Proper(q)
    ensures IsRun(Start(0.0), quotas, run)
    ensures AcceptedOf(Final(Start(0.0), quotas, run), k)
            == [0.0] + Times(q.window / 2.0, q.limit - 1) + [q.window] + Times(q.window, q.limit - 1)
  {
    var first := FirstLife(quotas, k, q, q.window / 2.0);
    var second := SecondLife(Final(Start(0.0), quotas, first), quotas, k, q);
    RunAppend(Start(0.0), quotas, first, second);
    run := first + second;
  }

  lemma Opening(quotas: Quotas, k: Key, q: Quota) returns (open: seq<Event>)
    requires q == quotas(k) && Proper(q)
    ensures IsRun(Start(0.0), quotas, open)
    ensures var s := Final(Start(0.0), quotas, open);
            Opened(s, k, q, 0.0) && AcceptedOf(s, k) == [0.0] && s.store[k].count == 1
  {
    var s0 := Start(0.0);
    open := [Count(k, 0.0), SetExpiry(k, 0.0)];
    var s1 := State(map[k := Counter(1, None)], {k}, map[k := [0.0]], 0.0);
    var s2 := State(map[k := Counter(1, Some(q.window))], {}, map[k := [0.0]], 0.0);
    var none: seq<real> := [];
    assert none + [0.0] == [0.0] && Incr(map[], k, 0.0) == map[k := Counter(1, None)];
    assert Next(s0, quotas, Count(k, 0.0)) == s1;
    assert Next(s1, quotas, SetExpiry(k, 0.0)) == s2;
    assert open[1..] == [SetExpiry(k, 0.0)] && [SetExpiry(k, 0.0)][1..] == [];
    assert Final(s2, quotas, []) == s2 && Final(s1, quotas, open[1..]) == s2;
    assert IsRun(s2, quotas, []) && IsRun(s1, quotas, open[1..]);
  }

  /** For every quota some run has 2*limit - 1 accepted requests within a window. */
  lemma BoundIsReached(quotas: Quotas, k: Key, q: Quota) returns (run: seq<Event>)
    requires q == quotas(k) && Proper(q)
    ensures IsRun(Start(0.0), quotas, run)
    ensures CountIf(AcceptedOf(Final(Start(0.0), quotas, run), k), From(q.window / 2.0, q.window)) == 2 * q.limit - 1
  {
    run := TwoLives(quotas, k, q);
    CountTwoLives(q.window, q.limit - 1);
  }

  lemma CountTwoLives(window: real, n: nat)
    requires window > 0.0
    ensures CountIf([0.0] + Times(window / 2.0, n) + [window] + Times(window, n), From(window / 2.0, window))
            == 2 * n + 1
  {
    var a, b, p := Times(window / 2.0, n), Times(window, n), From(window / 2.0, window);
    TimesAre(window / 2.0, n);
    TimesAre(window, n);
    CountAppend([0.0] + a + [window], b, p);
    CountAppend([0.0] + a, [window], p);
    CountAppend([0.0], a, p);
    CountNone([0.0], p);
    CountAll(a, p);
    CountAll([window], p);
    CountAll(b, p);
  }
}
