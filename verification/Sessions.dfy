// The session entity and the service that loads, changes and saves it.
module Sessions {
  import opened Options
  import Text

  type SessionId = string

  datatype Message = Message(id: string, role: string, content: string)

  datatype SessionError = NotFound | AlreadyExists | Inactive | Full

  const MAX_TITLE := 500
  const DEFAULT_MAX_MESSAGES := 1000

  /** The stored value of one session. Times are seconds on the service's clock. */
  datatype SessionRecord = SessionRecord(
    messages: seq<Message>,
    title: string,
    lastActivity: int,
    updatedAt: Option<int>,
    isActive: bool,
    maxMessages: int)

  /** A new session; an unset title is the empty string, which the source treats alike. */
  function NewSession(now: int): SessionRecord
  {
    SessionRecord([], "", now, None, true, DEFAULT_MAX_MESSAGES)
  }

  function Prefix(s: string, n: nat): string
  {
    if |s| > n then s[..n] else s
  }

  function TitleAfter(title: string, m: Message): string
  {
    if title == "" && m.role == "user" then Prefix(Text.Strip(m.content), MAX_TITLE) else title
  }

  function Append(r: SessionRecord, m: Message, now: int): Result<SessionRecord, SessionError>
  {
    if !r.isActive then Err(Inactive)
    else if |r.messages| >= r.maxMessages then Err(Full)
    else
      Ok(r.(messages := r.messages + [m], title := TitleAfter(r.title, m),
            lastActivity := now, updatedAt := Some(now)))
  }

  /** A user message that is not blank. */
  predicate HasText(m: Message)
  {
    m.role == "user" && Text.Strip(m.content) != ""
  }

  /** The title is the start of the first user message that is not blank, if there is one. */
  ghost predicate TitleOk(title: string, messages: seq<Message>)
  {
    && ((forall i :: 0 <= i < |messages| ==> !HasText(messages[i])) ==> title == "")
    && (forall i :: 0 <= i < |messages| && HasText(messages[i]) && (forall j :: 0 <= j < i ==> !HasText(messages[j]))
          ==> title == Prefix(Text.Strip(messages[i].content), MAX_TITLE))
  }

  /** The position of the first user message that is not blank, or the length. */
  function FirstText(messages: seq<Message>): (n: nat)
    ensures n <= |messages| && (n < |messages| ==> HasText(messages[n]))
    ensures forall i :: 0 <= i < n ==> !HasText(messages[i])
  {
    if messages == [] || HasText(messages[0]) then 0 else 1 + FirstText(messages[1..])
  }

  /** Appending keeps the title at the first user text and the messages within the limit; it is
      refused exactly when the session is inactive or full. */
  lemma AppendKeepsTitle(r: SessionRecord, m: Message, now: int)
    requires TitleOk(r.title, r.messages)
    ensures Append(r, m, now).Ok? <==> r.isActive && |r.messages| < r.maxMessages
    ensures Append(r, m, now).Ok? ==>
      var n := Append(r, m, now).value;
      && n.messages == r.messages + [m] && |n.messages| <= n.maxMessages
      && TitleOk(n.title, n.messages) && (r.title != "" ==> n.title == r.title)
      && n.isActive && n.maxMessages == r.maxMessages
      && n.lastActivity == now && n.updatedAt == Some(now)
    ensures Append(r, m, now).Err? ==> (Append(r, m, now).error == Inactive <==> !r.isActive)
  {
    if Append(r, m, now).Ok? {
      var n := Append(r, m, now).value;
      var k := FirstText(r.messages);
      if k < |r.messages| {
        assert n.messages[k] == r.messages[k] && HasText(n.messages[k]);
        assert r.title == Prefix(Text.Strip(r.messages[k].content), MAX_TITLE);
      } else {
        assert r.title == "";
        assert HasText(n.messages[k]) <==> HasText(m);
      }
      assert forall i :: 0 <= i < |r.messages| ==> n.messages[i] == r.messages[i];
    }
  }

  /** The title has at most 500 characters and is cut from the text without the whitespace around it. */
  lemma TitleIsCut(title: string, messages: seq<Message>, i: nat)
    requires TitleOk(title, messages) && i < |messages| && HasText(messages[i])
    requires forall j :: 0 <= j < i ==> !HasText(messages[j])
    ensures 0 < |title| <= 500
    ensures exists a, b :: 0 <= a <= b <= |messages[i].content| && title == messages[i].content[a..b]
                           && (forall k :: 0 <= k < a ==> Text.IsSpace(messages[i].content[k]))
                           && !Text.IsSpace(messages[i].content[a])
                           && (|title| < 500 ==> forall k :: b <= k < |messages[i].content| ==>
                                 Text.IsSpace(messages[i].content[k]))
  {
    var content := messages[i].content;
    var a, b := Text.StripTrims(content);
    var c := if b - a > 500 then a + 500 else b;
    assert title == content[a..c];
  }

  // ----- A session goes on taking messages -----

  /** Adding several messages one after the other, message number `k` at `times(k)`. */
  function AppendAll(r: SessionRecord, ms: seq<Message>, times: nat -> int): Result<SessionRecord, SessionError>
  {
    if ms == [] then Ok(r)
    else
      var before := AppendAll(r, ms[..|ms| - 1], times);
      if before.Ok? then Append(before.value, ms[|ms| - 1], times(|ms| - 1)) else before
  }

  /** An active session takes messages exactly until it is full, and keeps all of them in order. */
  lemma {:induction false} TakesUntilFull(r: SessionRecord, ms: seq<Message>, times: nat -> int)
    requires r.isActive && |r.messages| <= r.maxMessages
    ensures AppendAll(r, ms, times).Ok? <==> |r.messages| + |ms| <= r.maxMessages
    ensures AppendAll(r, ms, times).Ok? ==>
      var n := AppendAll(r, ms, times).value;
      && n.messages == r.messages + ms && n.isActive && n.maxMessages == r.maxMessages
      && n.lastActivity == if ms == [] then r.lastActivity else times(|ms| - 1)
  {
    if ms == [] {
      assert r.messages + ms == r.messages;
    } else {
      TakesUntilFull(r, ms[..|ms| - 1], times);
      assert ms == ms[..|ms| - 1] + [ms[|ms| - 1]];
      assert r.messages + ms == r.messages + ms[..|ms| - 1] + [ms[|ms| - 1]];
    }
  }

  /** What a facade call may do to one stored session. */
  datatype Op = Create(now: int) | Add(message: Message, at: int)

  /** The effect of an operation on the stored session when it runs alone. */
  function Perform(op: Op, current: Option<SessionRecord>): Result<SessionRecord, SessionError>
  {
    match op
    case Create(now) => if current.Some? then Err(AlreadyExists) else Ok(NewSession(now))
    case Add(m, now) => if current.None? then Err(NotFound) else Append(current.value, m, now)
  }

  class Session {
    var messages: seq<Message>
    var title: string
    var lastActivity: int
    var updatedAt: Option<int>
    var isActive: bool
    var maxMessages: int

    function Value(): SessionRecord
      reads this
    {
      SessionRecord(messages, title, lastActivity, updatedAt, isActive, maxMessages)
    }

    constructor (r: SessionRecord)
      ensures Value() == r
    {
      messages, title, lastActivity := r.messages, r.title, r.lastActivity;
      updatedAt, isActive, maxMessages := r.updatedAt, r.isActive, r.maxMessages;
    }

    method SetTitleFromMessage(m: Message)
      modifies this`title
      ensures title == if Text.Strip(m.content) == "" then old(title) else Prefix(Text.Strip(m.content), MAX_TITLE)
    {
      var content := Text.Strip(m.content);
      if content != "" {
        title := if |content| > MAX_TITLE then content[..MAX_TITLE] else content;
      }
    }

    method AddMessage(m: Message, now: int) returns (r: Result<(), SessionError>)
      modifies this
      ensures r.Ok? <==> Append(old(Value()), m, now).Ok?
      ensures r.Ok? ==> Value() == Append(old(Value()), m, now).value
      ensures r.Err? ==> Value() == old(Value()) && r.error == Append(old(Value()), m, now).error
      ensures isActive == old(isActive) && maxMessages == old(maxMessages)
      ensures r.Ok? ==> messages == old(messages) + [m] && lastActivity == now && updatedAt == Some(now)
    {
      if !isActive {
        return Err(Inactive);
      }
      if |messages| >= maxMessages {
        return Err(Full);
      }
      messages := messages + [m];
      lastActivity := now;
      updatedAt := Some(now);
      if title == "" && m.role == "user" {
        SetTitleFromMessage(m);
      }
      return Ok(());
    }

    method Deactivate(now: int)
      modifies this`isActive, this`updatedAt
      ensures Value() == old(Value()).(isActive := false, updatedAt := Some(now))
    {
      isActive, updatedAt := false, Some(now);
    }

    method Activate(now: int)
      modifies this`isActive, this`updatedAt
      ensures Value() == old(Value()).(isActive := true, updatedAt := Some(now))
    {
      isActive, updatedAt := true, Some(now);
    }

    method ClearMessages(now: int) returns (count: nat)
      modifies this`messages, this`updatedAt
      ensures count == |old(messages)|
      ensures Value() == old(Value()).(messages := [], updatedAt := Some(now))
    {
      count := |messages|;
      messages, updatedAt := [], Some(now);
    }
  }

  /** Loads, changes and saves sessions; `repository` is the replace-on-save store. */
  class SessionManagementService {
    var repository: map<SessionId, SessionRecord>

    constructor ()
      ensures repository == map[]
    {
      repository := map[];
    }

    method CreateSession(requested: SessionId, generated: SessionId, now: int)
      returns (id: SessionId, r: Result<SessionRecord, SessionError>)
      modifies this
      ensures id == if requested == "" then generated else requested
      ensures r == Perform(Create(now), Get(old(repository), id))
      ensures r.Ok? <==> id !in old(repository)
      ensures r.Ok? ==> r.value == SessionRecord([], "", now, None, true, 1000)
      ensures repository == if r.Ok? then old(repository)[id := r.value] else old(repository)
    {
      id := if requested == "" then generated else requested;
      if id in repository {
        return id, Err(AlreadyExists);
      }
      var session := new Session(NewSession(now));
      repository := repository[id := session.Value()];
      return id, Ok(session.Value());
    }

    method GetOrCreateSession(id: SessionId, generated: SessionId, now: int)
      returns (key: SessionId, r: Result<SessionRecord, SessionError>)
      modifies this
      ensures key == if id in old(repository) || id != "" then id else generated
      ensures id in old(repository) ==> r == Ok(old(repository)[id]) && repository == old(repository)
      ensures id !in old(repository) ==> r == Perform(Create(now), Get(old(repository), key))
      ensures id !in old(repository) ==>
        repository == if r.Ok? then old(repository)[key := r.value] else old(repository)
    {
      if id in repository {
        return id, Ok(repository[id]);
      }
      key, r := CreateSession(id, generated, now);
    }

    method AddMessage(id: SessionId, m: Message, now: int) returns (r: Result<(), SessionError>)
      modifies this
      ensures r.Ok? <==> Perform(Add(m, now), Get(old(repository), id)).Ok?
      ensures r.Ok? ==> repository == old(repository)[id := Perform(Add(m, now), Get(old(repository), id)).value]
      ensures r.Err? ==> repository == old(repository)
                         && r.error == Perform(Add(m, now), Get(old(repository), id)).error
      ensures r == Err(NotFound) <==> id !in old(repository)
    {
      if id !in repository {
        return Err(NotFound);
      }
      var session := new Session(repository[id]);
      r := session.AddMessage(m, now);
      if r.Ok? {
        repository := repository[id := session.Value()];
      }
    }
  }
}
