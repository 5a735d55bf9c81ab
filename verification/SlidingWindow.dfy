// The sliding-log rate limiter of the agent runtime.
module SlidingWindow {
  import opened Timeline

  type Client = string
  type Log = map<Client, seq<real>>

  const WINDOW := 60.0

  function Of(log: Log, c: Client): seq<real>
  {
    if c in log then log[c] else []
  }

  /** The instants less than a minute before `now`. */
  function Recent(times: seq<real>, now: real): seq<real>
  {
    if times == [] then []
    else if now - times[0] < WINDOW then [times[0]] + Recent(times[1..], now)
    else Recent(times[1..], now)
  }

  /** Prune, check, append: what one arrival does to the log, and whether it is let through. */
  function Admit(log: Log, limit: int, c: Client, now: real): (Log, bool)
  {
    var pruned := Recent(Of(log, c), now);
    if |pruned| >= limit then (log[c := pruned], false) else (log[c := pruned + [now]], true)
  }

  function Cleaned(log: Log, now: real): Log
  {
    map c | c in log && Recent(log[c], now) != [] :: Recent(log[c], now)
  }

  /** A clean-up that has not yet come to the clients in `todo`. */
  function CleanedBut(log: Log, now: real, todo: set<Client>): Log
  {
    map c | c in log && (c in todo || Recent(log[c], now) != []) :: if c in todo then log[c] else Recent(log[c], now)
  }

  class RateLimitMiddleware {
    var requests: Log
    const requestsPerMinute: int

    constructor (limit: int)
      ensures requests == map[] && requestsPerMinute == limit
    {
      requests, requestsPerMinute := map[], limit;
    }

    method Dispatch(client: Client, now: real) returns (allowed: bool)
      modifies this
      ensures (requests, allowed) == Admit(old(requests), requestsPerMinute, client, now)
    {
      requests := requests[client := Recent(Of(requests, client), now)];
      if |requests[client]| >= requestsPerMinute {
        return false;
      }
      ghost var pruned := requests[client];
      requests := requests[client := requests[client] + [now]];
      assert requests == old(requests)[client := pruned + [now]];
      return true;
    }

    /** The value of X-RateLimit-Remaining, read after the request was served. */
    method Remaining(client: Client) returns (r: int)
      modifies this
      ensures requests == old(requests)[client := Of(old(requests), client)]
      ensures r == requestsPerMinute - |Of(old(requests), client)|
    {
      requests := requests[client := Of(requests, client)];
      r := requestsPerMinute - |requests[client]|;
    }

    method Cleanup(now: real) returns (cleaned: nat)
      modifies this
      ensures requests == Cleaned(old(requests), now)
      ensures forall c :: c in requests <==> c in old(requests) && !NoneRecent(old(requests)[c], now)
      ensures cleaned == |set c | c in old(requests) && NoneRecent(old(requests)[c], now)|
    {
      var todo := requests.Keys;
      cleaned := 0;
      while todo != {}
        invariant todo <= old(requests).Keys
        invariant requests == CleanedBut(old(requests), now, todo)
        invariant cleaned + |requests| == |old(requests)|
        decreases todo
      {
        var c :| c in todo;
        CleanedOneMore(old(requests), now, todo, c);
        requests := requests[c := Recent(requests[c], now)];
        if requests[c] == [] {
          requests := requests - {c};
          cleaned := cleaned + 1;
        }
        todo := todo - {c};
      }
      CleanedKeepsRecent(old(requests), now);
    }
  }

  lemma CleanedOneMore(log: Log, now: real, todo: set<Client>, c: Client)
    requires c in todo && c in log
    ensures var m, times := CleanedBut(log, now, todo), Recent(log[c], now);
            && c in m && m[c] == log[c]
            && |m[c := times]| == |m| && |m[c := times] - {c}| == |m| - 1
            && CleanedBut(log, now, todo - {c}) == if times == [] then m[c := times] - {c} else m[c := times]
  {
    var m, times := CleanedBut(log, now, todo), Recent(log[c], now);
    var m' := m[c := times];
    assert m'.Keys == m.Keys;
    assert (m' - {c}).Keys == m.Keys - {c};
    var done := CleanedBut(log, now, todo - {c});
    if times == [] {
      assert done.Keys == m.Keys - {c};
    } else {
      assert done.Keys == m.Keys;
    }
  }

  /** All instants are a minute old or older. */
  predicate NoneRecent(times: seq<real>, now: real)
  {
    forall i :: 0 <= i < |times| ==> now - times[i] >= 60.0
  }

  /** Pruning keeps exactly the instants of the last minute, each as often as it was. */
  lemma {:induction false} RecentIsLastMinute(times: seq<real>, now: real, t: real)
    ensures multiset(Recent(times, now))[t] == if now - t < 60.0 then multiset(times)[t] else 0
    ensures Recent(times, now) == [] <==> NoneRecent(times, now)
  {
    if times != [] {
      RecentIsLastMinute(times[1..], now, t);
      assert times == [times[0]] + times[1..];
      assert NoneRecent(times, now) <==> now - times[0] >= 60.0 && NoneRecent(times[1..], now) by {
        if NoneRecent(times, now) {
          forall i | 0 <= i < |times[1..]| ensures now - times[1..][i] >= 60.0 { assert times[1..][i] == times[i + 1]; }
        }
      }
    }
  }

  /** A history in order of time loses its beginning only. */
  lemma {:induction false} RecentIsEnd(times: seq<real>, now: real) returns (k: nat)
    requires Sorted(times)
    ensures k <= |times| && Recent(times, now) == times[k..]
    ensures forall i :: 0 <= i < |times| ==> (now - times[i] < 60.0 <==> k <= i)
  {
    if times == [] {
      k := 0;
    } else {
      k := RecentIsEnd(times[1..], now);
      if now - times[0] < WINDOW {
        forall i | 0 <= i < |times| ensures now - times[i] < 60.0 { assert times[0] <= times[i]; }
        assert forall i :: 0 <= i < |times[1..]| ==> times[1..][i] == times[i + 1];
        assert k == 0 || |times| == 1;
        k := 0;
        assert Recent(times, now) == [times[0]] + Recent(times[1..], now) == times[0..];
      } else {
        k := k + 1;
        forall i | 0 <= i < |times| ensures now - times[i] < 60.0 <==> k <= i {
          if i > 0 { assert times[i] == times[1..][i - 1]; }
        }
      }
    }
  }

  /** A clean-up removes exactly the clients without an instant in the last minute. */
  lemma CleanedKeepsRecent(log: Log, now: real)
    ensures forall c :: c in Cleaned(log, now) <==> c in log && !NoneRecent(log[c], now)
    ensures |log| - |Cleaned(log, now)| == |set c | c in log && NoneRecent(log[c], now)|
  {
    forall c | c in log ensures Recent(log[c], now) == [] <==> NoneRecent(log[c], now) {
      RecentIsLastMinute(log[c], now, now);
    }
    var gone := set c | c in log && NoneRecent(log[c], now);
    assert Cleaned(log, now).Keys == log.Keys - gone;
    assert |log.Keys - gone| == |log.Keys| - |gone|;
  }

  // ----- Runs -----

  datatype Event = Arrive(client: Client, at: real) | Cleanup(at: real) | Respond(client: Client, at: real)

  /** Event times never go back, from `clock` on. */
  predicate Forward(events: seq<Event>, clock: real)
  {
    events == [] || (clock <= events[0].at && Forward(events[1..], events[0].at))
  }

  function Serve(log: Log, limit: int, e: Event): (Log, bool)
  {
    match e
    case Arrive(c, now) => Admit(log, limit, c, now)
    case Cleanup(now) => (Cleaned(log, now), false)
    case Respond(c, _) => (log[c := Of(log, c)], false)
  }

  /** Which events are accepted arrivals. */
  function Decisions(log: Log, limit: int, events: seq<Event>): seq<bool>
    decreases events
  {
    if events == [] then []
    else
      var (next, accepted) := Serve(log, limit, events[0]);
      [accepted] + Decisions(next, limit, events[1..])
  }

  /** The same for a limiter that keeps every accepted request for ever. */
  function FullDecisions(history: Log, limit: int, events: seq<Event>): seq<bool>
    decreases events
  {
    if events == [] then []
    else
      var (next, accepted) := FullServe(history, limit, events[0]);
      [accepted] + FullDecisions(next, limit, events[1..])
  }

  /** Accept while fewer than `limit` accepted requests lie in (at - 60, at]. */
  function FullServe(history: Log, limit: int, e: Event): (Log, bool)
  {
    if e.Arrive? && CountIf(Of(history, e.client), UpTo(e.at, WINDOW)) < limit
    then (history[e.client := Of(history, e.client) + [e.at]], true)
    else (history, false)
  }

  /** The accepted arrivals of one client. */
  function Accepted(events: seq<Event>, decisions: seq<bool>, c: Client): seq<real>
    requires |decisions| == |events|
  {
    if events == [] then []
    else (if decisions[0] && events[0].Arrive? && events[0].client == c then [events[0].at] else [])
         + Accepted(events[1..], decisions[1..], c)
  }

  lemma {:induction false} RecentAgain(times: seq<real>, now: real, later: real)
    requires now <= later
    ensures Recent(Recent(times, now), later) == Recent(times, later)
  {
    if times != [] {
      RecentAgain(times[1..], now, later);
      if now - times[0] < WINDOW {
        assert Recent(times, now)[1..] == Recent(times[1..], now);
      }
    }
  }

  lemma {:induction false} RecentAppend(a: seq<real>, b: seq<real>, now: real)
    ensures Recent(a + b, now) == Recent(a, now) + Recent(b, now)
  {
    if a == [] {
      assert a + b == b;
    } else {
      assert (a + b)[1..] == a[1..] + b;
      RecentAppend(a[1..], b, now);
    }
  }

  /** A clean-up or a prune keeps exactly the requests of the last minute. */
  lemma {:induction false} RecentCount(times: seq<real>, now: real)
    requires forall i :: 0 <= i < |times| ==> times[i] <= now
    ensures |Recent(times, now)| == CountIf(times, UpTo(now, WINDOW))
  {
    if times != [] { RecentCount(times[1..], now); }
  }

  /** The pruned log and the full history show the same minute from `clock` on. */
  ghost predicate Agree(log: Log, history: Log, clock: real)
  {
    && (forall c, now :: clock <= now ==> Recent(Of(log, c), now) == Recent(Of(history, c), now))
    && (forall c, i :: 0 <= i < |Of(history, c)| ==> Of(history, c)[i] <= clock)
  }

  lemma AgreeStep(log: Log, history: Log, limit: int, e: Event, clock: real)
    requires Agree(log, history, clock) && clock <= e.at
    ensures Serve(log, limit, e).1 == FullServe(history, limit, e).1
    ensures Agree(Serve(log, limit, e).0, FullServe(history, limit, e).0, e.at)
  {
    var log', history' := Serve(log, limit, e).0, FullServe(history, limit, e).0;
    if e.Arrive? {
      assert Recent(Of(log, e.client), e.at) == Recent(Of(history, e.client), e.at);
      RecentCount(Of(history, e.client), e.at);
    }
    forall c, i | 0 <= i < |Of(history', c)|
      ensures Of(history', c)[i] <= e.at
    {
      assert i < |Of(history, c)| ==> Of(history, c)[i] <= clock;
    }
    forall c, now | e.at <= now
      ensures Recent(Of(log', c), now) == Recent(Of(history', c), now)
    {
      RecentAgain(Of(log, c), e.at, now);
      if e.Arrive? && c == e.client {
        RecentAppend(Recent(Of(log, c), e.at), [e.at], now);
        RecentAppend(Of(history, c), [e.at], now);
      }
    }
  }

  /** Pruning is invisible: for any interleaving of clients, clean-ups and responses, the
      decisions are those of a limiter that never forgets an accepted request. */
  lemma {:induction false} PruningIsInvisible(log: Log, history: Log, limit: int, events: seq<Event>, clock: real)
    requires Agree(log, history, clock) && Forward(events, clock)
    ensures Decisions(log, limit, events) == FullDecisions(history, limit, events)
    decreases events
  {
    if events != [] {
      AgreeStep(log, history, limit, events[0], clock);
      var log', history' := Serve(log, limit, events[0]).0, FullServe(history, limit, events[0]).0;
      PruningIsInvisible(log', history', limit, events[1..], events[0].at);
    }
  }

  lemma {:induction false} DecisionsLength(log: Log, limit: int, events: seq<Event>)
    ensures |Decisions(log, limit, events)| == |events|
    decreases events
  {
    if events != [] {
      DecisionsLength(Serve(log, limit, events[0]).0, limit, events[1..]);
    }
  }

  // ----- The bound -----

  /** A sorted history up to `clock` in which `m` places are a minute or more. */
  ghost predicate MinuteApart(times: seq<real>, m: nat, clock: real)
  {
    && Sorted(times)
    && (forall i :: 0 <= i < |times| ==> times[i] <= clock)
    && Spaced(times, m, WINDOW)
  }

  lemma MinuteApartAppend(times: seq<real>, m: nat, clock: real, now: real)
    requires MinuteApart(times, m, clock) && clock <= now && CountIf(times, UpTo(now, WINDOW)) < m
    ensures MinuteApart(times + [now], m, now)
  {
    var n, all := |times|, times + [now];
    forall i, j | 0 <= i && i + m <= j < |all|
      ensures all[i] + WINDOW <= all[j]
    {
      if j == n { OldEnough(times, m, clock, now, i); }
    }
    forall i, j | 0 <= i <= j < |all|
      ensures all[i] <= all[j]
    {
      if j == n && i < n { assert times[i] <= clock; }
    }
  }

  /** With fewer than `m` instants in the last minute, one that is `m` or more places back is older. */
  lemma OldEnough(times: seq<real>, m: nat, clock: real, now: real, i: nat)
    requires MinuteApart(times, m, clock) && clock <= now && CountIf(times, UpTo(now, WINDOW)) < m
    requires i + m <= |times| && m > 0
    ensures times[i] + WINDOW <= now
  {
    if times[i] > now - WINDOW {
      var p, recent := UpTo(now, WINDOW), times[i..];
      forall j | 0 <= j < |recent|
        ensures p(recent[j])
      {
        assert recent[j] == times[i + j] && times[i] <= times[i + j] <= clock;
      }
      assert times == times[..i] + recent;
      CountAppend(times[..i], recent, p);
      CountAll(recent, p);
    }
  }

  function FullHistory(history: Log, limit: int, events: seq<Event>): Log
    decreases events
  {
    if events == [] then history else FullHistory(FullServe(history, limit, events[0]).0, limit, events[1..])
  }

  lemma {:induction false} HistoryIsAccepted(history: Log, limit: int, events: seq<Event>, c: Client)
    requires |FullDecisions(history, limit, events)| == |events|
    ensures Of(FullHistory(history, limit, events), c)
            == Of(history, c) + Accepted(events, FullDecisions(history, limit, events), c)
    decreases events
  {
    if events != [] {
      var next := FullServe(history, limit, events[0]).0;
      assert FullDecisions(history, limit, events)[1..] == FullDecisions(next, limit, events[1..]);
      HistoryIsAccepted(next, limit, events[1..], c);
      FullServeAdds(history, limit, events[0], c);
      Regroup(Of(history, c), Newly(history, limit, events[0], c),
              Accepted(events[1..], FullDecisions(next, limit, events[1..]), c));
    }
  }

  function Newly(history: Log, limit: int, e: Event, c: Client): seq<real>
  {
    if FullServe(history, limit, e).1 && e.Arrive? && e.client == c then [e.at] else []
  }

  lemma FullServeAdds(history: Log, limit: int, e: Event, c: Client)
    ensures Of(FullServe(history, limit, e).0, c) == Of(history, c) + Newly(history, limit, e, c)
  {
  }

  lemma Regroup(a: seq<real>, b: seq<real>, c: seq<real>)
    ensures (a + b) + c == a + (b + c)
  {
  }

  lemma {:induction false} HistoryMinuteApart(history: Log, limit: int, events: seq<Event>, clock: real, c: Client)
    returns (last: real)
    requires Forward(events, clock) && limit > 0 && MinuteApart(Of(history, c), limit, clock)
    ensures MinuteApart(Of(FullHistory(history, limit, events), c), limit, last)
    decreases events
  {
    if events == [] {
      last := clock;
    } else {
      var e := events[0];
      var next := FullServe(history, limit, e).0;
      if next != history && e.client == c {
        MinuteApartAppend(Of(history, c), limit, clock, e.at);
      }
      last := HistoryMinuteApart(next, limit, events[1..], e.at, c);
    }
  }

  lemma {:induction false} NothingAccepted(log: Log, limit: int, events: seq<Event>, c: Client)
    requires limit <= 0
    ensures |Decisions(log, limit, events)| == |events|
    ensures Accepted(events, Decisions(log, limit, events), c) == []
    decreases events
  {
    if events != [] {
      var log' := Serve(log, limit, events[0]).0;
      NothingAccepted(log', limit, events[1..], c);
      assert Decisions(log, limit, events)[1..] == Decisions(log', limit, events[1..]);
    }
  }

  /** At every instant t, not only at those the code looks at, at most `limit` accepted requests
      of a client lie in (t - 60, t]. */
  lemma AtMostLimitPerMinute(limit: int, events: seq<Event>, start: real, c: Client, t: real)
    requires Forward(events, start)
    ensures |Decisions(map[], limit, events)| == |events|
    ensures CountIf(Accepted(events, Decisions(map[], limit, events), c), UpTo(t, 60.0))
            <= if limit > 0 then limit else 0
  {
    if limit <= 0 {
      NothingAccepted(map[], limit, events, c);
    } else {
      DecisionsLength(map[], limit, events);
      PruningIsInvisible(map[], map[], limit, events, start);
      HistoryIsAccepted(map[], limit, events, c);
      var last := HistoryMinuteApart(map[], limit, events, start, c);
      var times := Accepted(events, Decisions(map[], limit, events), c);
      assert [] + times == times;
      SpacedCount(times, limit, WINDOW, UpTo(t, WINDOW));
    }
  }

  /** The remaining-requests header never leaves 0..limit. */
  lemma {:induction false} NeverMoreThanLimit(log: Log, limit: int, events: seq<Event>)
    requires limit >= 0 && forall c :: |Of(log, c)| <= limit
    ensures forall c :: |Of(FinalLog(log, limit, events), c)| <= limit
    decreases events
  {
    if events != [] {
      var e := events[0];
      var next := Serve(log, limit, e).0;
      forall c
        ensures |Of(next, c)| <= limit
      {
        RecentShorter(Of(log, c), e.at);
      }
      NeverMoreThanLimit(next, limit, events[1..]);
    }
  }

  function FinalLog(log: Log, limit: int, events: seq<Event>): Log
    decreases events
  {
    if events == [] then log else FinalLog(Serve(log, limit, events[0]).0, limit, events[1..])
  }

  lemma {:induction false} RecentShorter(times: seq<real>, now: real)
    ensures |Recent(times, now)| <= |times|
  {
    if times != [] { RecentShorter(times[1..], now); }
  }
}
