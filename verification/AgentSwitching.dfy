// Which agent works on a session, and the history of its switches.
module AgentSwitching {
  import opened Options

  datatype Agent = Orchestrator | Coder | Architect | Debug | Ask | Universal

  datatype Switch = Switch(from: Agent, to: Agent, reason: string)

  datatype Context = Context(current: Agent, history: seq<Switch>, count: int, maxSwitches: int)

  datatype SwitchError = AlreadyActive | LimitReached

  const DEFAULT_MAX_SWITCHES := 50

  function NewContext(initial: Agent): Context
  {
    Context(initial, [], 0, DEFAULT_MAX_SWITCHES)
  }

  function Switched(c: Context, target: Agent, reason: string): Result<Context, SwitchError>
  {
    if c.current == target then Err(AlreadyActive)
    else if c.count >= c.maxSwitches then Err(LimitReached)
    else Ok(c.(current := target, history := c.history + [Switch(c.current, target, reason)], count := c.count + 1))
  }

  /** The answer of `can_switch_to`, which a caller may ask before switching. */
  predicate CanSwitchTo(c: Context, target: Agent)
  {
    c.current != target && c.count < c.maxSwitches
  }

  class AgentContext {
    var currentAgent: Agent
    var switchHistory: seq<Switch>
    var switchCount: int
    var maxSwitches: int

    function Value(): Context
      reads this
    {
      Context(currentAgent, switchHistory, switchCount, maxSwitches)
    }

    constructor (c: Context)
      ensures Value() == c
    {
      currentAgent, switchHistory, switchCount, maxSwitches := c.current, c.history, c.count, c.maxSwitches;
    }

    method SwitchTo(target: Agent, reason: string) returns (r: Result<Switch, SwitchError>)
      modifies this
      ensures r.Ok? <==> CanSwitchTo(old(Value()), target)
      ensures r.Ok? ==> Switched(old(Value()), target, reason) == Ok(Value())
                        && r.value == Switch(old(currentAgent), target, reason)
      ensures r.Err? ==> Value() == old(Value()) && Switched(old(Value()), target, reason) == Err(r.error)
      ensures r.Ok? ==>
        Value() == Context(target, old(switchHistory) + [r.value], old(switchCount) + 1, old(maxSwitches))
      ensures r == Err(AlreadyActive) <==> old(currentAgent) == target
      ensures Value() == Obey(old(Value()), Command.SwitchTo(target, reason))
    {
      if currentAgent == target {
        return Err(AlreadyActive);
      }
      if switchCount >= maxSwitches {
        return Err(LimitReached);
      }
      var switch := Switch(currentAgent, target, reason);
      switchHistory := switchHistory + [switch];
      currentAgent := target;
      switchCount := switchCount + 1;
      return Ok(switch);
    }

    method ResetToOrchestrator(reason: string) returns (r: Result<(), SwitchError>)
      modifies this
      ensures old(currentAgent) == Orchestrator ==> r == Ok(()) && Value() == old(Value())
      ensures old(currentAgent) != Orchestrator ==>
        (r.Ok? <==> old(switchCount) < old(maxSwitches))
      ensures r.Ok? ==> currentAgent == Orchestrator
                        && |switchHistory|
                           == |old(switchHistory)| + (if old(currentAgent) == Orchestrator then 0 else 1)
      ensures r.Ok? && old(currentAgent) != Orchestrator ==>
        switchHistory == old(switchHistory) + [Switch(old(currentAgent), Orchestrator, reason)]
        && switchCount == old(switchCount) + 1 && maxSwitches == old(maxSwitches)
      ensures r.Err? ==> Value() == old(Value()) && r.error == LimitReached
      ensures Value() == Obey(old(Value()), Reset(reason))
    {
      if currentAgent != Orchestrator {
        var s := SwitchTo(Orchestrator, reason);
        if s.Err? {
          return Err(s.error);
        }
      }
      return Ok(());
    }
  }

  type SessionId = string

  /** The stored contexts after `switch_agent`: a session without a context gets one with the target agent. */
  function AfterSwitch(repo: map<SessionId, Context>, id: SessionId, target: Agent, reason: string)
    : map<SessionId, Context>
  {
    if id !in repo then repo[id := NewContext(target)]
    else
      var r := Switched(repo[id], target, reason);
      if r.Ok? then repo[id := r.value] else repo
  }

  class AgentOrchestrationService {
    var repository: map<SessionId, Context>

    constructor ()
      ensures repository == map[]
    {
      repository := map[];
    }

    method GetOrCreateContext(id: SessionId, initial: Agent) returns (c: Context)
      modifies this
      ensures repository == if id in old(repository) then old(repository)
                            else old(repository)[id := NewContext(initial)]
      ensures c == repository[id]
    {
      if id in repository {
        return repository[id];
      }
      var context := new AgentContext(NewContext(initial));
      repository := repository[id := context.Value()];
      return context.Value();
    }

    method SwitchAgent(id: SessionId, target: Agent, reason: string) returns (r: Result<Context, SwitchError>)
      modifies this
      ensures repository == AfterSwitch(old(repository), id, target, reason)
      ensures r.Ok? <==> id !in old(repository) || CanSwitchTo(old(repository)[id], target)
      ensures r.Ok? ==> r.value == repository[id] && r.value.current == target
      ensures r.Err? ==> repository == old(repository)
      ensures forall x :: x != id ==> Get(repository, x) == Get(old(repository), x)
      ensures id !in old(repository) ==> r.value == Context(target, [], 0, 50)
    {
      if id !in repository {
        var c := GetOrCreateContext(id, target);
        return Ok(c);
      }
      var context := new AgentContext(repository[id]);
      var switch := context.SwitchTo(target, reason);
      if switch.Err? {
        return Err(switch.error);
      }
      repository := repository[id := context.Value()];
      return Ok(context.Value());
    }
  }

  // ----- Histories -----

  datatype Command = SwitchTo(target: Agent, reason: string) | Reset(reason: string)

  /** One command to one context; a refused one changes nothing. */
  function Obey(c: Context, cmd: Command): Context
  {
    match cmd
    case SwitchTo(target, reason) => var r := Switched(c, target, reason); if r.Ok? then r.value else c
    case Reset(reason) =>
      if c.current == Orchestrator then c
      else var r := Switched(c, Orchestrator, reason); if r.Ok? then r.value else c
  }

  function ObeyAll(c: Context, cmds: seq<Command>): Context
  {
    if cmds == [] then c else Obey(ObeyAll(c, cmds[..|cmds| - 1]), cmds[|cmds| - 1])
  }

  /** Carrying out recorded switches from an agent; None if one does not start where the last ended. */
  function Replay(start: Agent, history: seq<Switch>): Option<Agent>
  {
    if history == [] then Some(start)
    else
      var before := Replay(start, history[..|history| - 1]);
      var last := history[|history| - 1];
      if before == Some(last.from) && last.from != last.to then Some(last.to) else None
  }

  /** The entries of the history chain, without a switch to the same agent. */
  predicate Chains(start: Agent, history: seq<Switch>)
  {
    && (forall i :: 0 <= i < |history| ==> history[i].from != history[i].to)
    && (history != [] ==> history[0].from == start)
    && (forall i :: 0 < i < |history| ==> history[i - 1].to == history[i].from)
  }

  lemma {:induction false} ReplayIffChains(start: Agent, history: seq<Switch>)
    ensures Replay(start, history).Some? <==> Chains(start, history)
    ensures Replay(start, history).Some? && history != [] ==> Replay(start, history).value == history[|history| - 1].to
  {
    if history != [] {
      var rest := history[..|history| - 1];
      ReplayIffChains(start, rest);
      if Chains(start, history) {
        assert Chains(start, rest);
        if rest != [] { assert history[|history| - 2].to == history[|history| - 1].from; }
      }
      if Replay(start, history).Some? {
        forall i | 0 < i < |history|
          ensures history[i - 1].to == history[i].from
        {
          if i < |rest| { assert rest[i - 1].to == rest[i].from; }
        }
      }
    }
  }

  /** In every reachable context the count is the length of the history and within the limit, the
      entries chain without self-switches, and replaying them from the initial agent gives the
      current one. */
  lemma {:induction false} HistoryReplays(initial: Agent, cmds: seq<Command>)
    ensures var c := ObeyAll(NewContext(initial), cmds);
            && c.count == |c.history| <= c.maxSwitches == 50
            && Chains(initial, c.history)
            && Replay(initial, c.history) == Some(c.current)
  {
    var c := ObeyAll(NewContext(initial), cmds);
    if cmds != [] {
      var before := ObeyAll(NewContext(initial), cmds[..|cmds| - 1]);
      HistoryReplays(initial, cmds[..|cmds| - 1]);
      if c != before {
        assert c.history[..|c.history| - 1] == before.history;
      }
    }
    ReplayIffChains(initial, c.history);
  }

  // ----- All stored contexts -----

  datatype Request =
    | GetOrCreate(id: SessionId, initial: Agent)
    | SwitchAgent(id: SessionId, target: Agent, reason: string)

  function Handled(repo: map<SessionId, Context>, q: Request): map<SessionId, Context>
  {
    match q
    case GetOrCreate(id, initial) => if id in repo then repo else repo[id := NewContext(initial)]
    case SwitchAgent(id, target, reason) => AfterSwitch(repo, id, target, reason)
  }

  function Stored(requests: seq<Request>): map<SessionId, Context>
  {
    if requests == [] then map[] else Handled(Stored(requests[..|requests| - 1]), requests[|requests| - 1])
  }

  /** The agent a context was created with. */
  function Initial(c: Context): Agent
  {
    if c.history == [] then c.current else c.history[0].from
  }

  /** After any requests for any sessions, every stored context replays to its current agent. */
  lemma {:induction false} StoredContextsReplay(requests: seq<Request>, id: SessionId)
    requires id in Stored(requests)
    ensures var c := Stored(requests)[id];
            && c.count == |c.history| <= c.maxSwitches
            && Chains(Initial(c), c.history)
            && Replay(Initial(c), c.history) == Some(c.current)
  {
    var before := Stored(requests[..|requests| - 1]);
    var c := Stored(requests)[id];
    if id in before {
      StoredContextsReplay(requests[..|requests| - 1], id);
      var b := before[id];
      if c != b {
        assert c.history[..|c.history| - 1] == b.history;
        assert Initial(c) == Initial(b);
      }
    }
    ReplayIffChains(Initial(c), c.history);
  }

  /** The requests about one session, in their order. */
  function About(requests: seq<Request>, x: SessionId): seq<Request>
  {
    if requests == [] then []
    else
      var q := requests[|requests| - 1];
      About(requests[..|requests| - 1], x) + (if q.id == x then [q] else [])
  }

  /** A request for one session leaves what is stored of every other. */
  lemma OthersAreKept(repo: map<SessionId, Context>, q: Request, x: SessionId)
    requires q.id != x
    ensures Get(Handled(repo, q), x) == Get(repo, x)
  {
  }

  /** And what it makes of its own depends on nothing else. */
  lemma OwnIsEnough(repo: map<SessionId, Context>, other: map<SessionId, Context>, q: Request)
    requires Get(repo, q.id) == Get(other, q.id)
    ensures Get(Handled(repo, q), q.id) == Get(Handled(other, q), q.id) != None
  {
  }

  /** Sessions do not disturb each other: the stored context of a session after any requests is the one
      after only the requests about it, and there is one exactly if there was such a request. */
  lemma {:induction false} SessionsAreIndependent(requests: seq<Request>, x: SessionId)
    ensures Get(Stored(requests), x) == Get(Stored(About(requests, x)), x)
    ensures x in Stored(requests) <==> exists i :: 0 <= i < |requests| && requests[i].id == x
  {
    if requests != [] {
      var rest, q := requests[..|requests| - 1], requests[|requests| - 1];
      SessionsAreIndependent(rest, x);
      assert forall i :: 0 <= i < |rest| ==> requests[i] == rest[i];
      if q.id == x {
        assert (About(rest, x) + [q])[..|About(rest, x)|] == About(rest, x);
        OwnIsEnough(Stored(rest), Stored(About(rest, x)), q);
      } else {
        OthersAreKept(Stored(rest), q, x);
        assert About(requests, x) == About(rest, x) + [];
        assert About(rest, x) + [] == About(rest, x);
      }
    }
  }

  /** The first request about a session decides its initial agent; a switch that is allowed is carried out
      and recorded with its reason, one that is not changes nothing. */
  lemma WhatIsStored(requests: seq<Request>, q: Request)
    ensures var before, after := Get(Stored(requests), q.id), Get(Stored(requests + [q]), q.id);
            && after.Some?
            && (before.None? ==> after.value == Context(if q.GetOrCreate? then q.initial else q.target, [], 0, 50))
            && (before.Some? ==>
                  var b, a := before.value, after.value;
                  if q.SwitchAgent? && b.current != q.target && b.count < b.maxSwitches
                  then a.current == q.target && a.history == b.history + [Switch(b.current, q.target, q.reason)]
                  else a == b)
  {
    assert (requests + [q])[..|requests|] == requests;
  }
}
