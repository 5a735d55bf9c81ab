// The event bus: subscriptions kept in lists by type, by category and for all
// events, each sorted by priority.
module EventBuses {
  import opened Options

  type Handler = string
  type EventType = string
  type Category = string

  /** What a subscription listens to; a type given together with a category wins. */
  datatype Topic = OfType(t: EventType) | OfCategory(c: Category) | Everything

  function TopicOf(t: Option<EventType>, c: Option<Category>): Topic
  {
    if t.Some? then OfType(t.value) else if c.Some? then OfCategory(c.value) else Everything
  }

  /** A subscription; `id` is the number of the change that made it, which stands for the identity of
      the object. */
  datatype Sub = Sub(id: nat, handler: Handler, priority: int, topic: Topic)

  datatype Event = Event(kind: EventType, category: Category, data: string)

  // ----- list.sort(key=priority, reverse=True) -----

  function Insert(s: seq<Sub>, x: Sub): seq<Sub>
  {
    if s == [] || s[|s| - 1].priority >= x.priority then s + [x]
    else Insert(s[..|s| - 1], x) + [s[|s| - 1]]
  }

  /** The stable sort by descending priority. */
  function SortByPriority(s: seq<Sub>): seq<Sub>
  {
    if s == [] then [] else Insert(SortByPriority(s[..|s| - 1]), s[|s| - 1])
  }

  function WithPriority(s: seq<Sub>, p: int): seq<Sub>
  {
    if s == [] then []
    else WithPriority(s[..|s| - 1], p) + (if s[|s| - 1].priority == p then [s[|s| - 1]] else [])
  }

  predicate Descending(s: seq<Sub>)
  {
    forall i, j :: 0 <= i < j < |s| ==> s[i].priority >= s[j].priority
  }

  lemma {:induction false} WithPriorityAppend(a: seq<Sub>, b: seq<Sub>, p: int)
    ensures WithPriority(a + b, p) == WithPriority(a, p) + WithPriority(b, p)
  {
    if b == [] {
      assert a + b == a;
    } else {
      assert (a + b)[..|a + b| - 1] == a + b[..|b| - 1];
      WithPriorityAppend(a, b[..|b| - 1], p);
    }
  }

  lemma {:induction false} InsertContents(s: seq<Sub>, x: Sub)
    ensures forall y :: y in Insert(s, x) <==> y in s || y == x
  {
    if s != [] && s[|s| - 1].priority < x.priority {
      assert s == s[..|s| - 1] + [s[|s| - 1]];
      InsertContents(s[..|s| - 1], x);
    }
  }

  lemma {:induction false} InsertDescending(s: seq<Sub>, x: Sub)
    requires Descending(s)
    ensures Descending(Insert(s, x))
  {
    if s != [] && s[|s| - 1].priority < x.priority {
      var rest, last := s[..|s| - 1], s[|s| - 1];
      assert s == rest + [last];
      InsertDescending(rest, x);
      InsertContents(rest, x);
      var r := Insert(rest, x);
      forall i | 0 <= i < |r|
        ensures r[i].priority >= last.priority
      {
        assert r[i] in r;
      }
    }
  }

  lemma {:induction false} InsertPermutes(s: seq<Sub>, x: Sub)
    ensures multiset(Insert(s, x)) == multiset(s) + multiset{x}
  {
    if s != [] && s[|s| - 1].priority < x.priority {
      assert s == s[..|s| - 1] + [s[|s| - 1]];
      InsertPermutes(s[..|s| - 1], x);
    }
  }

  lemma {:induction false} InsertKeepsTies(s: seq<Sub>, x: Sub, p: int)
    ensures WithPriority(Insert(s, x), p) == WithPriority(s, p) + WithPriority([x], p)
  {
    if s == [] || s[|s| - 1].priority >= x.priority {
      WithPriorityAppend(s, [x], p);
    } else {
      var rest, last := s[..|s| - 1], s[|s| - 1];
      assert s == rest + [last];
      InsertKeepsTies(rest, x, p);
      TiesBefore(rest, last, x, Insert(rest, x), p);
    }
  }

  lemma TiesBefore(rest: seq<Sub>, last: Sub, x: Sub, r: seq<Sub>, p: int)
    requires last.priority != x.priority && WithPriority(r, p) == WithPriority(rest, p) + WithPriority([x], p)
    ensures WithPriority(r + [last], p) == WithPriority(rest + [last], p) + WithPriority([x], p)
  {
    WithPriorityAppend(r, [last], p);
    WithPriorityAppend(rest, [last], p);
    WithPriorityOne(x, p);
    WithPriorityOne(last, p);
    OneIsEmpty(WithPriority(rest, p), WithPriority([x], p), WithPriority([last], p));
  }

  lemma OneIsEmpty(a: seq<Sub>, b: seq<Sub>, c: seq<Sub>)
    requires b == [] || c == []
    ensures (a + b) + c == (a + c) + b
  {
    if b == [] { assert a + b == a && (a + c) + b == a + c; } else { assert a + c == a && (a + b) + c == a + b; }
  }

  lemma WithPriorityOne(x: Sub, p: int)
    ensures WithPriority([x], p) == if x.priority == p then [x] else []
  {
    assert [x][..0] == [];
  }

  /** The sort orders by descending priority, loses and adds nothing, and keeps the order of
      equal priorities. */
  lemma {:induction false} SortIsStable(s: seq<Sub>, p: int)
    ensures Descending(SortByPriority(s))
    ensures multiset(SortByPriority(s)) == multiset(s)
    ensures WithPriority(SortByPriority(s), p) == WithPriority(s, p)
  {
    if s != [] {
      var rest, last := s[..|s| - 1], s[|s| - 1];
      assert s == rest + [last];
      SortIsStable(rest, p);
      InsertDescending(SortByPriority(rest), last);
      InsertPermutes(SortByPriority(rest), last);
      InsertKeepsTies(SortByPriority(rest), last, p);
      WithPriorityAppend(rest, [last], p);
    }
  }

  // ----- The bus -----

  datatype Index = Index(byType: map<EventType, seq<Sub>>, byCategory: map<Category, seq<Sub>>, wildcard: seq<Sub>)

  const EMPTY := Index(map[], map[], [])

  function Under<K>(m: map<K, seq<Sub>>, k: K): seq<Sub>
  {
    if k in m then m[k] else []
  }

  function ListOf(x: Index, topic: Topic): seq<Sub>
  {
    match topic
    case OfType(t) => Under(x.byType, t)
    case OfCategory(c) => Under(x.byCategory, c)
    case Everything => x.wildcard
  }

  function SetList(x: Index, topic: Topic, subs: seq<Sub>): Index
  {
    match topic
    case OfType(t) => x.(byType := x.byType[t := subs])
    case OfCategory(c) => x.(byCategory := x.byCategory[c := subs])
    case Everything => x.(wildcard := subs)
  }

  /** The list comprehension of `unsubscribe`. */
  function Dropping(s: seq<Sub>, h: Handler): seq<Sub>
  {
    if s == [] then []
    else Dropping(s[..|s| - 1], h) + (if s[|s| - 1].handler != h then [s[|s| - 1]] else [])
  }

  function Added(x: Index, sub: Sub): Index
  {
    SetList(x, sub.topic, SortByPriority(ListOf(x, sub.topic) + [sub]))
  }

  function Removed(x: Index, topic: Topic, h: Handler): Index
  {
    SetList(x, topic, Dropping(ListOf(x, topic), h))
  }

  function HandlersFor(x: Index, e: Event): seq<Sub>
  {
    SortByPriority(Listeners(x, e))
  }

  /** A middleware changes an event or, with None, cancels it. */
  type Middleware = Event -> Option<Event>

  function Filtered(ms: seq<Middleware>, e: Event): Option<Event>
  {
    if ms == [] then Some(e)
    else
      var r := ms[0](e);
      if r.None? then None else Filtered(ms[1..], r.value)
  }

  /** What each handler returns for an event; None is an exception. */
  type Behaviour = (Handler, Event) -> Option<string>

  function Results(subs: seq<Sub>, run: Behaviour, e: Event): seq<Option<string>>
  {
    seq(|subs|, i requires 0 <= i < |subs| => run(subs[i].handler, e))
  }

  class EventBus {
    var subscribers: map<EventType, seq<Sub>>
    var categorySubscribers: map<Category, seq<Sub>>
    var wildcardSubscribers: seq<Sub>
    var middleware: seq<Middleware>
    var changes: nat                  // how many changes there were, to number the next one
    ghost var history: seq<Change>    // these changes
    var totalPublished: nat
    var successfulHandlers: nat
    var failedHandlers: nat

    function Value(): Index
      reads this
    {
      Index(subscribers, categorySubscribers, wildcardSubscribers)
    }

    /** The index is what the history of changes gives. */
    ghost predicate Valid()
      reads this
    {
      Value() == IndexAfter(history) && changes == |history|
    }

    constructor ()
      ensures Valid() && history == [] && middleware == []
      ensures totalPublished == successfulHandlers == failedHandlers == 0
    {
      subscribers, categorySubscribers, wildcardSubscribers := map[], map[], [];
      middleware, changes, history := [], 0, [];
      totalPublished, successfulHandlers, failedHandlers := 0, 0, 0;
    }

    method AddSubscriber(t: Option<EventType>, c: Option<Category>, h: Handler, priority: int)
      requires Valid()
      modifies this`subscribers, this`categorySubscribers, this`wildcardSubscribers, this`changes, this`history
      ensures Valid() && history == old(history) + [Subscribe(h, priority, TopicOf(t, c))]
      ensures Value() == Added(old(Value()), Sub(old(changes), h, priority, TopicOf(t, c)))
      ensures forall e: Event, y: Sub :: y in HandlersFor(Value(), e) <==>
        || y in HandlersFor(old(Value()), e)
        || (y == Sub(old(changes), h, priority, TopicOf(t, c))
            && if t.Some? then e.kind == t.value else if c.Some? then e.category == c.value else true)
    {
      forall e: Event { SubscriptionIsHeard(history, t, c, h, priority, e); }
      var sub := Sub(changes, h, priority, TopicOf(t, c));
      Insert(t, c, sub);
      IndexOneMore(history, Subscribe(h, priority, TopicOf(t, c)));
      Record(Subscribe(h, priority, TopicOf(t, c)));
    }

    method Insert(t: Option<EventType>, c: Option<Category>, sub: Sub)
      requires sub.topic == TopicOf(t, c)
      modifies this`subscribers, this`categorySubscribers, this`wildcardSubscribers
      ensures Value() == Added(old(Value()), sub)
    {
      if t.Some? {
        subscribers := subscribers[t.value := SortByPriority(Under(subscribers, t.value) + [sub])];
      } else if c.Some? {
        var listed := SortByPriority(Under(categorySubscribers, c.value) + [sub]);
        categorySubscribers := categorySubscribers[c.value := listed];
      } else {
        wildcardSubscribers := SortByPriority(wildcardSubscribers + [sub]);
      }
    }

    method Record(change: Change)
      modifies this`changes, this`history
      ensures changes == old(changes) + 1 && history == old(history) + [change]
    {
      changes := changes + 1;
      history := history + [change];
    }

    method Unsubscribe(h: Handler, t: Option<EventType>, c: Option<Category>)
      requires Valid()
      modifies this`subscribers, this`categorySubscribers, this`wildcardSubscribers, this`changes, this`history
      ensures Valid() && history == old(history) + [Change.Unsubscribe(TopicOf(t, c), h)]
      ensures Value() == Removed(old(Value()), TopicOf(t, c), h)
      ensures forall e: Event, y: Sub :: y in HandlersFor(Value(), e) <==>
        && y in HandlersFor(old(Value()), e)
        && !(y.handler == h && y.topic == if t.Some? then OfType(t.value)
                                          else if c.Some? then OfCategory(c.value) else Everything)
    {
      forall e: Event { OthersAreStillHeard(history, t, c, h, e); }
      Drop(t, c, h);
      IndexOneMore(history, Change.Unsubscribe(TopicOf(t, c), h));
      Record(Change.Unsubscribe(TopicOf(t, c), h));
    }

    method Drop(t: Option<EventType>, c: Option<Category>, h: Handler)
      modifies this`subscribers, this`categorySubscribers, this`wildcardSubscribers
      ensures Value() == Removed(old(Value()), TopicOf(t, c), h)
    {
      if t.Some? {
        subscribers := subscribers[t.value := Dropping(Under(subscribers, t.value), h)];
      } else if c.Some? {
        categorySubscribers := categorySubscribers[c.value := Dropping(Under(categorySubscribers, c.value), h)];
      } else {
        wildcardSubscribers := Dropping(wildcardSubscribers, h);
      }
    }

    method Clear()
      requires Valid()
      modifies this`subscribers, this`categorySubscribers, this`wildcardSubscribers, this`middleware
      modifies this`changes, this`history
      ensures Valid() && history == old(history) + [ClearAll] && middleware == []
      ensures forall e :: HandlersFor(Value(), e) == []
    {
      IndexOneMore(history, ClearAll);
      subscribers, categorySubscribers, wildcardSubscribers := map[], map[], [];
      middleware := [];
      assert Value() == EMPTY == Changed(old(Value()), ClearAll, changes);
      Record(ClearAll);
    }

    /** Exactly the surviving subscriptions of the history that match the event, in strict order. */
    method GetHandlersForEvent(e: Event) returns (handlers: seq<Sub>)
      requires Valid()
      ensures handlers == HandlersFor(Value(), e)
      ensures Ordered(handlers)
      ensures forall sub: Sub :: sub in handlers <==> IsSurvivor(history, sub) && Matches(sub.topic, e)
    {
      handlers := [];
      if e.kind in subscribers {
        handlers := handlers + subscribers[e.kind];
      }
      if e.category in categorySubscribers {
        handlers := handlers + categorySubscribers[e.category];
      }
      handlers := handlers + wildcardSubscribers;
      assert handlers == Under(subscribers, e.kind) + Under(categorySubscribers, e.category) + wildcardSubscribers;
      handlers := SortByPriority(handlers);
      HandlersInOrder(history, e);
      HandlersAreSurvivors(history, e);
    }

    /** Runs the handlers one after the other; a failing one yields None and does not stop the rest. */
    method ExecuteHandlersSync(e: Event, handlers: seq<Sub>, run: Behaviour) returns (results: seq<Option<string>>)
      modifies this`successfulHandlers, this`failedHandlers
      ensures results == Results(handlers, run, e)
      ensures |results| == |handlers| && forall i :: 0 <= i < |handlers| ==> results[i] == run(handlers[i].handler, e)
      ensures failedHandlers - old(failedHandlers) == Failures(results)
      ensures (successfulHandlers - old(successfulHandlers)) + (failedHandlers - old(failedHandlers)) == |handlers|
    {
      results := [];
      for i := 0 to |handlers|
        invariant results == Results(handlers[..i], run, e)
        invariant failedHandlers - old(failedHandlers) == Failures(results)
        invariant (successfulHandlers - old(successfulHandlers)) + (failedHandlers - old(failedHandlers)) == i
      {
        var result := run(handlers[i].handler, e);
        ResultsOneMore(handlers, i, run, e, results);
        results := results + [result];
        if result.Some? {
          successfulHandlers := successfulHandlers + 1;
        } else {
          failedHandlers := failedHandlers + 1;
        }
      }
      assert handlers[..|handlers|] == handlers;
    }

    method PublishAndWait(event: Event, run: Behaviour) returns (results: Option<seq<Option<string>>>)
      requires Valid()
      modifies this`totalPublished, this`successfulHandlers, this`failedHandlers
      ensures totalPublished == old(totalPublished) + 1
      ensures var e := Filtered(middleware, event);
              if e.None? || HandlersFor(Value(), e.value) == [] then
                && results == None
                && successfulHandlers == old(successfulHandlers) && failedHandlers == old(failedHandlers)
              else
                && results == Some(Results(HandlersFor(Value(), e.value), run, e.value))
                && failedHandlers == old(failedHandlers) + Failures(results.value)
                && successfulHandlers == old(successfulHandlers) + |results.value| - Failures(results.value)
    {
      totalPublished := totalPublished + 1;
      var e := event;
      for i := 0 to |middleware|
        invariant Filtered(middleware, event) == Filtered(middleware[i..], e)
      {
        var r := middleware[i](e);
        assert middleware[i..][1..] == middleware[i + 1..];
        if r.None? {
          return None;
        }
        e := r.value;
      }
      var handlers := GetHandlersForEvent(e);
      if handlers == [] {
        return None;
      }
      var list := ExecuteHandlersSync(e, handlers, run);
      return Some(list);
    }
  }

  lemma ResultsOneMore(subs: seq<Sub>, i: nat, run: Behaviour, e: Event, results: seq<Option<string>>)
    requires i < |subs| && results == Results(subs[..i], run, e)
    ensures var r := run(subs[i].handler, e);
            && Results(subs[..i + 1], run, e) == results + [r]
            && Failures(results + [r]) == Failures(results) + (if r.None? then 1 else 0)
  {
    var r := run(subs[i].handler, e);
    assert (results + [r])[..|results|] == results;
    assert subs[..i + 1][i] == subs[i];
  }

  function Failures(results: seq<Option<string>>): nat
  {
    if results == [] then 0
    else Failures(results[..|results| - 1]) + (if results[|results| - 1].None? then 1 else 0)
  }

  // ----- The flat log of subscriptions -----

  datatype Change =
    | Subscribe(handler: Handler, priority: int, topic: Topic)
    | Unsubscribe(topic: Topic, handler: Handler)
    | ClearAll

  /** The index after change number `n`. */
  function Changed(x: Index, change: Change, n: nat): Index
  {
    match change
    case Subscribe(h, p, topic) => Added(x, Sub(n, h, p, topic))
    case Unsubscribe(topic, h) => Removed(x, topic, h)
    case ClearAll => EMPTY
  }

  /** The index after a history of changes; a subscription's `id` is the number of its change. */
  function IndexAfter(log: seq<Change>): Index
  {
    if log == [] then EMPTY else Changed(IndexAfter(log[..|log| - 1]), log[|log| - 1], |log| - 1)
  }

  lemma IndexOneMore(log: seq<Change>, change: Change)
    ensures IndexAfter(log + [change]) == Changed(IndexAfter(log), change, |log|)
  {
    assert (log + [change])[..|log|] == log;
  }

  /** Whether the subscription made by change `i` is still there at the end of the log. */
  predicate Survives(log: seq<Change>, i: nat)
    requires i < |log|
  {
    && log[i].Subscribe?
    && forall j :: i < j < |log| ==>
         !log[j].ClearAll? && !(log[j].Unsubscribe? && log[j].topic == log[i].topic && log[j].handler == log[i].handler)
  }

  /** `sub` is the surviving subscription of change number `sub.id`. */
  predicate IsSurvivor(log: seq<Change>, sub: Sub)
  {
    && sub.id < |log| && Survives(log, sub.id)
    && sub == Sub(sub.id, log[sub.id].handler, log[sub.id].priority, log[sub.id].topic)
  }

  predicate Matches(topic: Topic, e: Event)
  {
    topic == OfType(e.kind) || topic == OfCategory(e.category) || topic == Everything
  }

  function Rank(topic: Topic): nat
  {
    match topic case OfType(_) => 0 case OfCategory(_) => 1 case Everything => 2
  }

  /** Higher priority first, then type before category before wildcard, then order of subscription. */
  predicate Precedes(a: Sub, b: Sub)
  {
    || a.priority > b.priority
    || (a.priority == b.priority && Rank(a.topic) < Rank(b.topic))
    || (a.priority == b.priority && Rank(a.topic) == Rank(b.topic) && a.id < b.id)
  }

  predicate Ordered(s: seq<Sub>)
  {
    forall i, j :: 0 <= i < j < |s| ==> Precedes(s[i], s[j])
  }

  /** Equal priorities already stand in the order of `Precedes`. */
  predicate TiesOrdered(s: seq<Sub>)
  {
    forall i, j :: 0 <= i < j < |s| && s[i].priority == s[j].priority ==> Precedes(s[i], s[j])
  }

  lemma {:induction false} InsertOrdered(s: seq<Sub>, x: Sub)
    requires Ordered(s)
    requires forall y :: y in s && y.priority == x.priority ==> Precedes(y, x)
    ensures Ordered(Insert(s, x))
  {
    if s != [] && s[|s| - 1].priority < x.priority {
      var rest, last := s[..|s| - 1], s[|s| - 1];
      assert s == rest + [last];
      InsertOrdered(rest, x);
      InsertContents(rest, x);
      var r := Insert(rest, x);
      forall i | 0 <= i < |r|
        ensures Precedes(r[i], last)
      {
        assert r[i] in r;
        if r[i] != x {
          var k :| 0 <= k < |rest| && rest[k] == r[i];
          assert s[k] == r[i] && s[|s| - 1] == last;
        }
      }
    } else {
      PutLast(s, x);
    }
  }

  lemma PutLast(s: seq<Sub>, x: Sub)
    requires Ordered(s) && (s == [] || s[|s| - 1].priority >= x.priority)
    requires forall y :: y in s && y.priority == x.priority ==> Precedes(y, x)
    ensures Ordered(s + [x])
  {
    forall i | 0 <= i < |s|
      ensures Precedes(s[i], x)
    {
      assert s[i] in s;
      if i < |s| - 1 { assert Precedes(s[i], s[|s| - 1]); }
    }
  }

  lemma {:induction false} SortOrders(s: seq<Sub>)
    requires TiesOrdered(s)
    ensures Ordered(SortByPriority(s))
    ensures forall y :: y in SortByPriority(s) <==> y in s
  {
    if s != [] {
      var rest, last := s[..|s| - 1], s[|s| - 1];
      assert s == rest + [last];
      SortOrders(rest);
      InsertOrdered(SortByPriority(rest), last);
      InsertContents(SortByPriority(rest), last);
    }
  }

  lemma {:induction false} DroppingContents(s: seq<Sub>, h: Handler)
    requires Ordered(s)
    ensures Ordered(Dropping(s, h))
    ensures forall y :: y in Dropping(s, h) <==> y in s && y.handler != h
  {
    if s != [] {
      assert s == s[..|s| - 1] + [s[|s| - 1]];
      DroppingContents(s[..|s| - 1], h);
    }
  }

  /** The list of a topic: its survivors, in order. */
  ghost predicate ListOk(log: seq<Change>, topic: Topic)
  {
    var s := ListOf(IndexAfter(log), topic);
    && Ordered(s)
    && forall sub: Sub :: sub in s <==> IsSurvivor(log, sub) && sub.topic == topic
  }

  lemma {:induction false} ListsOk(log: seq<Change>, topic: Topic)
    ensures ListOk(log, topic)
  {
    if log != [] {
      var before, c := log[..|log| - 1], log[|log| - 1];
      assert log == before + [c];
      ListsOk(before, topic);
      ListStep(before, c, topic);
      var s := ListOf(IndexAfter(log), topic);
      forall sub: Sub
        ensures sub in s <==> IsSurvivor(log, sub) && sub.topic == topic
      {
        SurvivorStep(before, c, sub);
      }
    }
  }

  /** A new subscription is put behind its equals. */
  lemma NewestLast(s: seq<Sub>, sub: Sub)
    requires Ordered(s) && forall y :: y in s ==> y.id < sub.id && y.topic == sub.topic
    ensures Ordered(SortByPriority(s + [sub]))
    ensures forall y :: y in SortByPriority(s + [sub]) <==> y in s || y == sub
  {
    var all := s + [sub];
    forall i, j | 0 <= i < j < |all| && all[i].priority == all[j].priority
      ensures Precedes(all[i], all[j])
    {
      assert all[i] in s;
      if j < |s| { assert Precedes(s[i], s[j]); }
    }
    SortOrders(all);
  }

  /** What one change does to the list of a topic. */
  lemma {:induction false} ListStep(before: seq<Change>, c: Change, topic: Topic)
    requires ListOk(before, topic)
    ensures var s, s' := ListOf(IndexAfter(before), topic), ListOf(IndexAfter(before + [c]), topic);
            && Ordered(s')
            && forall sub: Sub :: sub in s' <==>
                 || (c.Subscribe? && c.topic == topic && sub == Sub(|before|, c.handler, c.priority, c.topic))
                 || (sub in s && !c.ClearAll? && !(c.Unsubscribe? && c.topic == topic && c.handler == sub.handler))
  {
    assert (before + [c])[..|before|] == before;
    var x := IndexAfter(before);
    match c
    case Subscribe(h, p, t) =>
      OldSubs(before, topic);
      AddedList(x, Sub(|before|, h, p, t), topic);
    case Unsubscribe(t, h) => RemovedList(x, t, h, topic);
    case ClearAll =>
  }

  lemma OldSubs(before: seq<Change>, topic: Topic)
    requires ListOk(before, topic)
    ensures forall y :: y in ListOf(IndexAfter(before), topic) ==> y.id < |before| && y.topic == topic
  {
    forall y | y in ListOf(IndexAfter(before), topic)
      ensures y.id < |before| && y.topic == topic
    {
      assert IsSurvivor(before, y);
    }
  }

  lemma AddedList(x: Index, sub: Sub, topic: Topic)
    requires Ordered(ListOf(x, topic)) && forall y :: y in ListOf(x, topic) ==> y.id < sub.id && y.topic == topic
    ensures var s' := ListOf(Added(x, sub), topic);
            Ordered(s') && forall y :: y in s' <==> y in ListOf(x, topic) || (y == sub && sub.topic == topic)
  {
    ListOfSet(x, sub.topic, SortByPriority(ListOf(x, sub.topic) + [sub]), topic);
    if sub.topic == topic { NewestLast(ListOf(x, topic), sub); }
  }

  lemma RemovedList(x: Index, t: Topic, h: Handler, topic: Topic)
    requires Ordered(ListOf(x, topic))
    ensures var s' := ListOf(Removed(x, t, h), topic);
            Ordered(s') && forall y :: y in s' <==> y in ListOf(x, topic) && !(t == topic && y.handler == h)
  {
    ListOfSet(x, t, Dropping(ListOf(x, t), h), topic);
    if t == topic { DroppingContents(ListOf(x, topic), h); }
  }

  lemma ListOfSet(x: Index, t: Topic, subs: seq<Sub>, topic: Topic)
    ensures ListOf(SetList(x, t, subs), topic) == if t == topic then subs else ListOf(x, topic)
  {
  }

  lemma SurvivorStep(before: seq<Change>, c: Change, sub: Sub)
    ensures IsSurvivor(before + [c], sub) <==>
      || (c.Subscribe? && sub == Sub(|before|, c.handler, c.priority, c.topic))
      || (IsSurvivor(before, sub) && !c.ClearAll?
          && !(c.Unsubscribe? && c.topic == sub.topic && c.handler == sub.handler))
  {
    var log := before + [c];
    if sub.id < |before| {
      assert log[sub.id] == before[sub.id] && log[|before|] == c;
      assert forall j :: sub.id < j < |before| ==> log[j] == before[j];
    }
  }

  /** The three lists of an event, one after the other. */
  function Listeners(x: Index, e: Event): seq<Sub>
  {
    Under(x.byType, e.kind) + Under(x.byCategory, e.category) + x.wildcard
  }

  lemma {:induction false} ListenersOk(log: seq<Change>, e: Event)
    ensures var all := Listeners(IndexAfter(log), e);
            && TiesOrdered(all)
            && forall sub: Sub :: sub in all <==> IsSurvivor(log, sub) && Matches(sub.topic, e)
  {
    var x := IndexAfter(log);
    ListsOk(log, OfType(e.kind));
    ListsOk(log, OfCategory(e.category));
    ListsOk(log, Everything);
    assert ListOf(x, OfType(e.kind)) == Under(x.byType, e.kind);
    assert ListOf(x, OfCategory(e.category)) == Under(x.byCategory, e.category);
    assert ListOf(x, Everything) == x.wildcard;
  }

  /** After any subscriptions, unsubscriptions and clears, the handlers of an event stand in strict order
      of priority, kind and age. */
  lemma {:induction false} HandlersInOrder(log: seq<Change>, e: Event)
    ensures Ordered(HandlersFor(IndexAfter(log), e))
  {
    ListenersOk(log, e);
    SortOrders(Listeners(IndexAfter(log), e));
  }

  /** They are exactly the surviving subscriptions that match the event. */
  lemma {:induction false} HandlersAreSurvivors(log: seq<Change>, e: Event)
    ensures forall sub: Sub :: sub in HandlersFor(IndexAfter(log), e) <==> IsSurvivor(log, sub) && Matches(sub.topic, e)
  {
    ListenersOk(log, e);
    SortOrders(Listeners(IndexAfter(log), e));
  }

  /** A subscription is heard by exactly the events of its type, if one is given, else of its category, if
      one is given, else by all; the others hear what they heard. */
  lemma SubscriptionIsHeard(
    log: seq<Change>, t: Option<EventType>, c: Option<Category>, h: Handler, priority: int, e: Event)
    ensures var after := log + [Subscribe(h, priority, TopicOf(t, c))];
            forall y: Sub :: y in HandlersFor(IndexAfter(after), e) <==>
              || y in HandlersFor(IndexAfter(log), e)
              || (y == Sub(|log|, h, priority, TopicOf(t, c))
                  && if t.Some? then e.kind == t.value else if c.Some? then e.category == c.value else true)
  {
    var change := Subscribe(h, priority, TopicOf(t, c));
    HandlersAreSurvivors(log, e);
    HandlersAreSurvivors(log + [change], e);
    forall y: Sub { SurvivorStep(log, change, y); }
  }

  /** Unsubscribing takes away exactly the subscriptions of the handler with the same arguments. */
  lemma OthersAreStillHeard(log: seq<Change>, t: Option<EventType>, c: Option<Category>, h: Handler, e: Event)
    ensures var after := log + [Change.Unsubscribe(TopicOf(t, c), h)];
            forall y: Sub :: y in HandlersFor(IndexAfter(after), e) <==>
              && y in HandlersFor(IndexAfter(log), e)
              && !(y.handler == h && y.topic == if t.Some? then OfType(t.value)
                                                else if c.Some? then OfCategory(c.value) else Everything)
  {
    var change := Change.Unsubscribe(TopicOf(t, c), h);
    HandlersAreSurvivors(log, e);
    HandlersAreSurvivors(log + [change], e);
    forall y: Sub { SurvivorStep(log, change, y); }
  }

  // ----- Publishing -----

  /** The middlewares take the event from stage to stage: what comes out is what the last one made of what
      the others made of it, or nothing as soon as one of them cancels. */
  lemma {:induction false} FilteredStages(ms: seq<Middleware>, e: Event) returns (stages: seq<Event>)
    ensures stages != [] && stages[0] == e && |stages| <= |ms| + 1
    ensures forall i :: 0 <= i < |stages| - 1 ==> ms[i](stages[i]) == Some(stages[i + 1])
    ensures match Filtered(ms, e)
            case Some(out) => |stages| == |ms| + 1 && stages[|ms|] == out
            case None => |stages| <= |ms| && ms[|stages| - 1](stages[|stages| - 1]) == None
  {
    if ms == [] || ms[0](e).None? {
      stages := [e];
    } else {
      var rest := FilteredStages(ms[1..], ms[0](e).value);
      stages := [e] + rest;
      forall i | 0 <= i < |stages| - 1
        ensures ms[i](stages[i]) == Some(stages[i + 1])
      {
        if i > 0 { assert ms[1..][i - 1](rest[i - 1]) == Some(rest[i]); }
      }
    }
  }

  /** The failures counted are the results that are None. */
  lemma {:induction false} FailuresAreCounted(results: seq<Option<string>>)
    ensures Failures(results) == |set i | 0 <= i < |results| && results[i].None?|
  {
    var failed := set i | 0 <= i < |results| && results[i].None?;
    if results == [] {
      assert failed == {};
    } else {
      var rest := results[..|results| - 1];
      FailuresAreCounted(rest);
      var before := set i | 0 <= i < |rest| && rest[i].None?;
      assert failed == before + if results[|results| - 1].None? then {|results| - 1} else {};
    }
  }

  /** Order and contents leave one list only. */
  lemma {:induction false} OrderedIsUnique(a: seq<Sub>, b: seq<Sub>)
    requires Ordered(a) && Ordered(b) && forall y :: y in a <==> y in b
    ensures a == b
  {
    BothEmpty(a, b);
    if a != [] && b != [] {
      assert a[0] in b && b[0] in a;
      var i :| 0 <= i < |b| && b[i] == a[0];
      var j :| 0 <= j < |a| && a[j] == b[0];
      assert i == 0;
      TailContents(a);
      TailContents(b);
      OrderedIsUnique(a[1..], b[1..]);
      assert a == [a[0]] + a[1..] && b == [b[0]] + b[1..];
    }
  }

  lemma BothEmpty(a: seq<Sub>, b: seq<Sub>)
    requires forall y :: y in a <==> y in b
    ensures a == [] <==> b == []
  {
    if a != [] { assert a[0] in b; }
    if b != [] { assert b[0] in a; }
  }

  lemma TailContents(a: seq<Sub>)
    requires Ordered(a) && a != []
    ensures forall y :: y in a[1..] <==> y in a && y != a[0]
  {
    assert a == [a[0]] + a[1..];
  }
}
