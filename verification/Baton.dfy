// The experimental agents: a bus with one queue for all recipients, and the
// orchestrator that passes a single message, the baton, through it.
module Baton {
  import opened Options

  type Name = string

  datatype Message = Message(sender: Name, recipient: Name, content: string, action: string)

  function For(ms: seq<Message>, name: Name): seq<Message>
  {
    if ms == [] then []
    else if ms[0].recipient == name then [ms[0]] + For(ms[1..], name)
    else For(ms[1..], name)
  }

  /** The position of the first message for `name`, or the length. */
  function FirstFor(ms: seq<Message>, name: Name): (i: nat)
    ensures i <= |ms|
    ensures forall j :: 0 <= j < i ==> ms[j].recipient != name
    ensures i < |ms| ==> ms[i].recipient == name
  {
    if ms == [] || ms[0].recipient == name then 0 else 1 + FirstFor(ms[1..], name)
  }

  function Without(ms: seq<Message>, i: nat): seq<Message>
  {
    if i < |ms| then ms[..i] + ms[i + 1..] else ms
  }

  class Bus {
    var messages: seq<Message>
    var history: seq<Message>

    constructor ()
      ensures messages == [] && history == []
    {
      messages, history := [], [];
    }

    method Publish(m: Message)
      modifies this
      ensures messages == old(messages) + [m] && history == old(history) + [m]
    {
      messages := messages + [m];
      history := history + [m];
    }

    method GetNextFor(name: Name) returns (found: Option<Message>)
      modifies this`messages
      ensures var i := FirstFor(old(messages), name);
              messages == Without(old(messages), i)
              && found == if i < |old(messages)| then Some(old(messages)[i]) else None
    {
      for idx := 0 to |messages|
        invariant messages == old(messages)
        invariant forall j :: 0 <= j < idx ==> messages[j].recipient != name
      {
        var m := messages[idx];
        if m.recipient == name {
          messages := messages[..idx] + messages[idx + 1..];
          return Some(m);
        }
      }
      return None;
    }

    /** `_messages.popleft()`, as the orchestrator takes the next message whoever it is for. */
    method PopLeft() returns (m: Message)
      requires messages != []
      modifies this`messages
      ensures m == old(messages)[0] && messages == old(messages)[1..]
    {
      m := messages[0];
      messages := messages[1..];
    }
  }

  // ----- Delivery -----

  datatype Operation = Publish(message: Message) | GetNext(name: Name)

  /** The queue, all published messages, and what has been handed out, oldest first. */
  datatype State = State(queue: seq<Message>, history: seq<Message>, delivered: seq<Message>)

  const EMPTY := State([], [], [])

  function Next(s: State, op: Operation): State
  {
    match op
    case Publish(m) => s.(queue := s.queue + [m], history := s.history + [m])
    case GetNext(name) =>
      var i := FirstFor(s.queue, name);
      if i < |s.queue| then s.(queue := Without(s.queue, i), delivered := s.delivered + [s.queue[i]]) else s
  }

  function After(ops: seq<Operation>): State
  {
    if ops == [] then EMPTY else Next(After(ops[..|ops| - 1]), ops[|ops| - 1])
  }

  function Published(ops: seq<Operation>): seq<Message>
  {
    if ops == [] then []
    else Published(ops[..|ops| - 1]) + (if ops[|ops| - 1].Publish? then [ops[|ops| - 1].message] else [])
  }

  lemma {:induction false} ForAppend(a: seq<Message>, b: seq<Message>, name: Name)
    ensures For(a + b, name) == For(a, name) + For(b, name)
  {
    if a == [] {
      assert a + b == b;
    } else {
      assert (a + b)[1..] == a[1..] + b;
      ForAppend(a[1..], b, name);
    }
  }

  lemma {:induction false} ForNone(ms: seq<Message>, name: Name)
    requires forall j :: 0 <= j < |ms| ==> ms[j].recipient != name
    ensures For(ms, name) == []
  {
    if ms != [] { ForNone(ms[1..], name); }
  }

  /** Taking the first message for a name takes the head of that name's messages and no other. */
  lemma ForWithout(ms: seq<Message>, taken: Name, name: Name)
    ensures var i := FirstFor(ms, taken);
            i < |ms| ==> For(ms, name) == (if name == taken then [ms[i]] else []) + For(Without(ms, i), name)
  {
    var i := FirstFor(ms, taken);
    if i < |ms| {
      assert ms == ms[..i] + ms[i..];
      ForAppend(ms[..i], ms[i..], name);
      ForAppend(ms[..i], ms[i + 1..], name);
      ForHead(ms[i..], name);
      if name == taken { ForNone(ms[..i], name); }
    }
  }

  lemma ForHead(ms: seq<Message>, name: Name)
    requires ms != []
    ensures For(ms, name) == (if ms[0].recipient == name then [ms[0]] else []) + For(ms[1..], name)
  {
  }

  /** For every recipient, what it was given followed by what waits for it is what was published to
      it, in order; and the history is all that was published. */
  lemma {:induction false} Delivery(ops: seq<Operation>, name: Name)
    ensures For(After(ops).delivered, name) + For(After(ops).queue, name) == For(Published(ops), name)
    ensures After(ops).history == Published(ops)
  {
    if ops != [] {
      var rest, op := ops[..|ops| - 1], ops[|ops| - 1];
      Delivery(rest, name);
      var s := After(rest);
      match op
      case Publish(m) =>
        ForAppend(s.queue, [m], name);
        ForAppend(Published(rest), [m], name);
        assert After(ops).queue == s.queue + [m];
      case GetNext(who) =>
        DeliveryOfNext(s, who, name);
        assert Published(ops) == Published(rest);
    }
  }

  lemma DeliveryOfNext(s: State, who: Name, name: Name)
    ensures var n := Next(s, GetNext(who));
            For(n.delivered, name) + For(n.queue, name) == For(s.delivered, name) + For(s.queue, name)
  {
    var i := FirstFor(s.queue, who);
    if i < |s.queue| {
      var m, left := s.queue[i], Without(s.queue, i);
      ForWithout(s.queue, who, name);
      ForAppend(s.delivered, [m], name);
      assert [m][1..] == [];
      assert For([m], name) == if name == who then [m] else [];
    }
  }

  // ----- The orchestrator -----

  /** What an agent decides; a planner may only ask an agent or finish. */
  datatype Step =
    | AskAgent(target: Name, message: string)
    | UseTool(tool: string, result: string)
    | Reply(content: string)
    | Finish(summary: string)

  const PLANNER: Name := "planner"
  const MANAGER: Name := "manager"

  /** The message a decision puts on the bus, and whether the loop goes on; None is the failed
      assertion on a planner that neither asks nor finishes. */
  function Decided(holder: Name, step: Step): Option<(Message, bool)>
  {
    if holder == PLANNER then
      match step
      case Finish(summary) => Some((Message(PLANNER, MANAGER, summary, "finish"), false))
      case AskAgent(target, text) => Some((Message(PLANNER, target, text, "ask_agent"), true))
      case _ => None
    else
      match step
      case UseTool(_, result) => Some((Message(holder, PLANNER, result, "use_tool"), true))
      case Finish(summary) => Some((Message(holder, MANAGER, summary, "finish"), false))
      case Reply(content) => Some((Message(holder, PLANNER, content, "reply"), true))
      case AskAgent(_, _) => Some((Message(holder, PLANNER, "", "ask_agent"), true))
  }

  /** What comes after a message: a planner's question goes to its target with its text, a summary goes to
      the manager, and whatever else an agent does comes back to the planner. */
  predicate Follows(m: Message, step: Step, next: Message)
  {
    && next.sender == m.recipient
    && (step.Finish? <==> next.action == "finish")
    && (step.Finish? ==> next.recipient == "manager" && next.content == step.summary)
    && (m.recipient == "planner" && !step.Finish? ==>
          step.AskAgent? && next.recipient == step.target && next.content == step.message && next.action == "ask_agent")
    && (m.recipient != "planner" && !step.Finish? ==> next.recipient == "planner")
    && (m.recipient != "planner" && step.UseTool? ==> next.content == step.result && next.action == "use_tool")
    && (m.recipient != "planner" && step.Reply? ==> next.content == step.content && next.action == "reply")
  }

  datatype Outcome = Finished | UnknownAgent | BadPlan | StillRunning

  /** A history of the loop: the manager's request to the planner, and then the message that each decision
      makes of the one before it. Only agents are asked to decide, and nothing comes after a finish. */
  ghost predicate Transcript(history: seq<Message>, agents: set<Name>, task: string, decisions: seq<Step>)
  {
    && 0 < |history| <= |decisions| + 1
    && history[0] == Message("manager", "planner", task, "ask_agent")
    && forall i :: 0 <= i < |history| - 1 ==>
         && history[i].recipient in agents && history[i].action != "finish"
         && Follows(history[i], decisions[i], history[i + 1])
  }

  lemma DecidedFollows(m: Message, step: Step)
    ensures var next := Decided(m.recipient, step);
            && (next.None? <==> m.recipient == PLANNER && !step.AskAgent? && !step.Finish?)
            && (next.Some? ==> Follows(m, step, next.value.0) && (next.value.1 <==> !step.Finish?))
  {
  }

  lemma TranscriptGrows(
      history: seq<Message>, agents: set<Name>, task: string, decisions: seq<Step>, next: Message)
    requires Transcript(history, agents, task, decisions) && |history| <= |decisions|
    requires var last := history[|history| - 1];
             && last.recipient in agents && last.action != "finish"
             && Follows(last, decisions[|history| - 1], next)
    ensures Transcript(history + [next], agents, task, decisions)
  {
  }

  /** The loop for as many turns as `decisions` has: at its head one message is in flight, the last
      one published; every message is sent by the recipient of the one before. */
  method Run(agents: set<Name>, task: string, decisions: seq<Step>) returns (bus: Bus, outcome: Outcome)
    requires PLANNER in agents
    ensures fresh(bus) && Transcript(bus.history, agents, task, decisions)
    ensures var last, step := bus.history[|bus.history| - 1], |bus.history| - 1;
            match outcome
            case Finished => bus.messages == [last] && last.recipient == MANAGER && last.action == "finish"
            case UnknownAgent => bus.messages == [] && last.recipient !in agents
            case BadPlan => bus.messages == [] && last.recipient == PLANNER && step < |decisions| &&
                            !decisions[step].AskAgent? && !decisions[step].Finish?
            case StillRunning => bus.messages == [last] && step == |decisions|
    ensures outcome != Finished ==> bus.history[|bus.history| - 1].action != "finish"
  {
    bus := new Bus();
    bus.Publish(Message(MANAGER, PLANNER, task, "ask_agent"));
    var turn := 0;
    while bus.messages != [] && turn < |decisions|
      invariant fresh(bus) && Transcript(bus.history, agents, task, decisions)
      invariant |bus.history| == turn + 1 && turn <= |decisions|
      invariant bus.messages == [bus.history[turn]] && bus.history[turn].action != "finish"
      decreases |decisions| - turn
    {
      var m := bus.PopLeft();
      if m.recipient !in agents {
        return bus, UnknownAgent;
      }
      var next := Decided(m.recipient, decisions[turn]);
      DecidedFollows(m, decisions[turn]);
      if next.None? {
        return bus, BadPlan;
      }
      TranscriptGrows(bus.history, agents, task, decisions, next.value.0);
      bus.Publish(next.value.0);
      if !next.value.1 {
        return bus, Finished;
      }
      turn := turn + 1;
    }
    outcome := StillRunning;
  }
}
