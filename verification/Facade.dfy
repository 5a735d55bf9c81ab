// Facade calls: every call takes its session's lock and then loads, changes
// and saves the session, with other tasks running between those steps. Saves
// go into the database transaction of the request and are seen by others only
// when it is committed.
module Facade {
  import opened Options
  import opened Sessions
  import Locks = LockProtocol
  import Theorems = LockTheorems

  /** A task is one request: it makes one facade call in one transaction. */
  type Task = Locks.Task

  type Store = map<SessionId, SessionRecord>

  /** Where a task inside the lock is in its current load-modify-save. */
  datatype Work =
    | Between
    | Loaded(found: Option<SessionRecord>)
    | Changed(result: SessionRecord, op: Op)

  /** The saves of a request that are not yet committed, and the record they left. */
  datatype Tx = Tx(session: SessionId, ops: seq<Op>, result: SessionRecord)

  /** One committed save. */
  datatype Entry = Entry(session: SessionId, op: Op)

  datatype State = State(
    locks: Locks.State,
    work: map<Task, Work>,
    open: map<Task, Tx>,
    store: Store,
    log: seq<Entry>)

  const INIT := State(Locks.INIT, map[], map[], map[], [])

  datatype Action =
    | LockStep(step: Locks.Action)
    | Load(task: Task)
    | Modify(task: Task, op: Op)
    | Refuse(task: Task)
    | Save(task: Task)
    | Commit(task: Task)
    | Rollback(task: Task)

  function WorkOf(s: State, t: Task): Work
  {
    if t in s.work then s.work[t] else Between
  }

  /** What a task reads: its own saves before the committed ones. */
  function View(s: State, t: Task, x: SessionId): Option<SessionRecord>
  {
    if t in s.open then Some(s.open[t].result) else Get(s.store, x)
  }

  predicate Enabled(s: State, a: Action)
  {
    match a
    case LockStep(step) => Locks.Enabled(s.locks, step) && (step.Call? ==> step.task !in s.open)
    case Load(t) => Locks.At(s.locks, t).Inside? && WorkOf(s, t).Between?
    case Modify(t, op) =>
      Locks.At(s.locks, t).Inside? && WorkOf(s, t).Loaded? && Perform(op, WorkOf(s, t).found).Ok?
    case Refuse(t) => Locks.At(s.locks, t).Inside? && WorkOf(s, t).Loaded?
    case Save(t) => Locks.At(s.locks, t).Inside? && WorkOf(s, t).Changed?
    case Commit(t) => t in s.open
    case Rollback(t) => t in s.open
  }

  /** A task that leaves, for whatever reason, drops its loaded copy, but not what it has saved. */
  function Next(s: State, a: Action): State
    requires Enabled(s, a)
  {
    match a
    case LockStep(step) =>
      s.(locks := Locks.Next(s.locks, step), work := s.work[step.task := Between])
    case Load(t) =>
      s.(work := s.work[t := Loaded(View(s, t, Locks.At(s.locks, t).session))])
    case Modify(t, op) =>
      s.(work := s.work[t := Changed(Perform(op, WorkOf(s, t).found).value, op)])
    case Refuse(t) =>
      s.(work := s.work[t := Between])
    case Save(t) =>
      var ops := (if t in s.open then s.open[t].ops else []) + [WorkOf(s, t).op];
      s.(work := s.work[t := Between],
         open := s.open[t := Tx(Locks.At(s.locks, t).session, ops, WorkOf(s, t).result)])
    case Commit(t) =>
      var tx := s.open[t];
      s.(open := s.open - {t}, store := s.store[tx.session := tx.result], log := s.log + Entries(tx.session, tx.ops))
    case Rollback(t) =>
      s.(open := s.open - {t}, work := s.work[t := Between])
  }

  function Entries(x: SessionId, ops: seq<Op>): seq<Entry>
  {
    if ops == [] then [] else Entries(x, ops[..|ops| - 1]) + [Entry(x, ops[|ops| - 1])]
  }

  function Final(s: State, run: seq<Action>): State
    decreases |run|
  {
    if run == [] || !Enabled(s, run[0]) then s else Final(Next(s, run[0]), run[1..])
  }

  // ----- Runs -----

  /** What a run keeps to, besides being possible. */
  datatype Rule = AnyRun | SafeLoads | CommitFirst | SourceOrder

  /** No other request has saves to the task's session that are not committed. */
  ghost predicate NobodyElseOpen(s: State, t: Task)
    requires Locks.At(s.locks, t).Inside?
  {
    forall u :: u in s.open && u != t ==> s.open[u].session != Locks.At(s.locks, t).session
  }

  /** No clean-up evicts an entry in use, and nobody loads a session while another request has saves to
      it that are not committed. */
  ghost predicate LoadsSafely(s: State, a: Action)
    requires Enabled(s, a)
  {
    && (a.LockStep? ==> Theorems.SweepsNoUser(s.locks, a.step))
    && (a.Load? ==> NobodyElseOpen(s, a.task))
  }

  /** No clean-up evicts an entry in use, and nobody leaves the lock with saves that are not committed. */
  ghost predicate CommitsFirst(s: State, a: Action)
    requires Enabled(s, a)
  {
    a.LockStep? ==> Theorems.SweepsNoUser(s.locks, a.step) && (a.step.Leave? ==> a.step.task !in s.open)
  }

  /** The order of the source: each task calls once, its transaction ends after it has left the lock, and
      here nobody cleans up. */
  predicate InSourceOrder(s: State, a: Action)
    requires Enabled(s, a)
  {
    && (a.Commit? || a.Rollback? ==> Locks.At(s.locks, a.task).Outside?)
    && (a.LockStep? ==> !a.step.CallSweep? && !a.step.Sweep? && (a.step.Call? ==> a.step.task !in s.locks.pcs))
  }

  ghost predicate Obeys(s: State, a: Action, rule: Rule)
    requires Enabled(s, a)
  {
    match rule
    case AnyRun => true
    case SafeLoads => LoadsSafely(s, a)
    case CommitFirst => CommitsFirst(s, a)
    case SourceOrder => InSourceOrder(s, a)
  }

  ghost predicate IsRun(s: State, run: seq<Action>, rule: Rule)
    decreases |run|
  {
    run == [] || (Enabled(s, run[0]) && Obeys(s, run[0], rule) && IsRun(Next(s, run[0]), run[1..], rule))
  }

  lemma Prepend(s: State, a: Action, rest: seq<Action>, rule: Rule) returns (run: seq<Action>)
    requires Enabled(s, a) && Obeys(s, a, rule) && IsRun(Next(s, a), rest, rule)
    ensures IsRun(s, run, rule) && Final(s, run) == Final(Next(s, a), rest)
  {
    run := [a] + rest;
    assert run[1..] == rest;
  }

  lemma {:induction false} RunAppend(s: State, a: seq<Action>, b: seq<Action>, rule: Rule)
    requires IsRun(s, a, rule) && IsRun(Final(s, a), b, rule)
    ensures IsRun(s, a + b, rule) && Final(s, a + b) == Final(Final(s, a), b)
    decreases |a|
  {
    if a == [] {
      assert a + b == b;
    } else {
      assert (a + b)[1..] == a[1..] + b;
      RunAppend(Next(s, a[0]), a[1..], b, rule);
    }
  }

  // ----- Serial execution -----

  /** One operation run alone against the store. */
  function Alone(store: Store, e: Entry): Store
  {
    var r := Perform(e.op, Get(store, e.session));
    if r.Ok? then store[e.session := r.value] else store
  }

  function RunAlone(store: Store, log: seq<Entry>): Store
  {
    if log == [] then store else Alone(RunAlone(store, log[..|log| - 1]), log[|log| - 1])
  }

  /** Every operation of the log succeeds when the log is run serially. */
  predicate Succeeds(store: Store, log: seq<Entry>)
  {
    log == [] || (Succeeds(store, log[..|log| - 1])
                  && Perform(log[|log| - 1].op, Get(RunAlone(store, log[..|log| - 1]), log[|log| - 1].session)).Ok?)
  }

  /** The store is what the committed operations give when each runs alone, one after the other. */
  predicate Serial(s: State)
  {
    s.store == RunAlone(map[], s.log) && Succeeds(map[], s.log)
  }

  /** Several operations on one session, one after the other. */
  function PerformAll(ops: seq<Op>, found: Option<SessionRecord>): Result<SessionRecord, SessionError>
    requires ops != []
  {
    if |ops| == 1 then Perform(ops[0], found)
    else
      var r := PerformAll(ops[..|ops| - 1], found);
      if r.Ok? then Perform(ops[|ops| - 1], Some(r.value)) else r
  }

  /** The messages the log adds to a session, in order. */
  function Added(log: seq<Entry>, x: SessionId): seq<Message>
  {
    if log == [] then []
    else
      var e := log[|log| - 1];
      Added(log[..|log| - 1], x) + (if e.session == x && e.op.Add? then [e.op.message] else [])
  }

  lemma {:induction false} ReplayMessages(log: seq<Entry>, x: SessionId)
    requires Succeeds(map[], log)
    ensures var store := RunAlone(map[], log);
            x in store ==>
              && store[x].messages == Added(log, x)
              && store[x].maxMessages == DEFAULT_MAX_MESSAGES && store[x].isActive
              && |Added(log, x)| <= DEFAULT_MAX_MESSAGES
              && TitleOk(store[x].title, Added(log, x))
    ensures x !in RunAlone(map[], log) ==> Added(log, x) == []
  {
    if log != [] {
      var before, e := log[..|log| - 1], log[|log| - 1];
      ReplayMessages(before, x);
      if e.session == x && e.op.Add? {
        AppendKeepsTitle(RunAlone(map[], before)[x], e.op.message, e.op.at);
      }
    }
  }

  /** After any committed operations, a stored session refuses a message exactly when it holds 1000. */
  lemma RefusedOnlyWhenFull(s: State, x: SessionId, m: Message, now: int)
    requires Serial(s) && x in s.store
    ensures Perform(Add(m, now), Get(s.store, x)).Ok? <==> |s.store[x].messages| < 1000
    ensures |s.store[x].messages| <= 1000
  {
    ReplayMessages(s.log, x);
  }

  lemma RunAloneOneMore(store: Store, log: seq<Entry>, e: Entry)
    ensures RunAlone(store, log + [e]) == Alone(RunAlone(store, log), e)
    ensures Succeeds(store, log + [e])
            <==> Succeeds(store, log) && Perform(e.op, Get(RunAlone(store, log), e.session)).Ok?
  {
    assert (log + [e])[..|log|] == log;
  }

  lemma {:induction false} RunAloneAppend(store: Store, a: seq<Entry>, b: seq<Entry>)
    ensures RunAlone(store, a + b) == RunAlone(RunAlone(store, a), b)
    ensures Succeeds(store, a + b) <==> Succeeds(store, a) && Succeeds(RunAlone(store, a), b)
  {
    if b == [] {
      assert a + b == a;
    } else {
      var rest, e := b[..|b| - 1], b[|b| - 1];
      assert a + b == a + rest + [e] && b == rest + [e];
      RunAloneAppend(store, a, rest);
      RunAloneOneMore(store, a + rest, e);
      RunAloneOneMore(RunAlone(store, a), rest, e);
    }
  }

  /** The entries of a transaction, run alone, leave its record. */
  lemma {:induction false} EntriesAlone(store: Store, x: SessionId, ops: seq<Op>)
    requires ops != [] && PerformAll(ops, Get(store, x)).Ok?
    ensures RunAlone(store, Entries(x, ops)) == store[x := PerformAll(ops, Get(store, x)).value]
    ensures Succeeds(store, Entries(x, ops))
  {
    var rest, op := ops[..|ops| - 1], ops[|ops| - 1];
    if |ops| == 1 {
      assert rest == [] && Entries(x, rest) == [];
    } else {
      EntriesAlone(store, x, rest);
    }
    RunAloneOneMore(store, Entries(x, rest), Entry(x, op));
  }

  // ----- What every guarded step keeps -----

  /** What a task inside has read is still what it would read, and no other request has saves to it that
      are not committed. */
  ghost predicate CopyIsCurrent(s: State, t: Task)
  {
    var pc, w := Locks.At(s.locks, t), WorkOf(s, t);
    pc.Inside? && !w.Between? ==>
      && NobodyElseOpen(s, t)
      && (w.Loaded? ==> w.found == View(s, t, pc.session))
      && (w.Changed? ==> Perform(w.op, View(s, t, pc.session)) == Ok(w.result))
  }

  /** A transaction comes from what is committed, and its task is inside that session or has left it. */
  ghost predicate TxOk(s: State, t: Task)
  {
    t in s.open ==>
      var pc, tx := Locks.At(s.locks, t), s.open[t];
      && FromStore(s, tx)
      && (pc.Inside? ==> tx.session == pc.session)
      && (pc.Inside? || pc.Outside? || pc.WantsSweep? || pc.HoldsSweep?)
  }

  ghost predicate OneTxPerSession(s: State)
  {
    forall t, u :: t in s.open && u in s.open && s.open[t].session == s.open[u].session ==> t == u
  }

  predicate FromStore(s: State, tx: Tx)
  {
    tx.ops != [] && PerformAll(tx.ops, Get(s.store, tx.session)) == Ok(tx.result)
  }

  ghost predicate Inv(s: State)
  {
    && Locks.Inv(s.locks)
    && Theorems.Coherent(s.locks)
    && (forall t: Task :: CopyIsCurrent(s, t) && TxOk(s, t))
    && OneTxPerSession(s)
    && Serial(s)
  }

  lemma InvInit()
    ensures Inv(INIT)
  {
    Locks.InvInit();
  }

  lemma InvStep(s: State, a: Action)
    requires Inv(s) && Enabled(s, a) && LoadsSafely(s, a)
    ensures Inv(Next(s, a))
  {
    var n := Next(s, a);
    if a.LockStep? {
      Locks.InvStep(s.locks, a.step);
      Theorems.CoherentStep(s.locks, a.step);
    } else if a.Commit? {
      assert TxOk(s, a.task);
      CommitIsSerial(s, a.task);
    }
    OneTxStep(s, a);
    forall t: Task
      ensures CopyIsCurrent(n, t) && TxOk(n, t)
    {
      TaskStep(s, a, t);
    }
  }

  lemma OneTxStep(s: State, a: Action)
    requires Inv(s) && Enabled(s, a)
    ensures OneTxPerSession(Next(s, a))
  {
    if a.Save? { assert CopyIsCurrent(s, a.task); }
  }

  lemma CommitIsSerial(s: State, t: Task)
    requires Serial(s) && t in s.open && FromStore(s, s.open[t])
    ensures Serial(Next(s, Commit(t)))
  {
    var tx := s.open[t];
    EntriesAlone(s.store, tx.session, tx.ops);
    RunAloneAppend(map[], s.log, Entries(tx.session, tx.ops));
  }

  lemma TaskStep(s: State, a: Action, t: Task)
    requires Inv(s) && Enabled(s, a) && LoadsSafely(s, a)
    ensures CopyIsCurrent(Next(s, a), t) && TxOk(Next(s, a), t)
  {
    assert CopyIsCurrent(s, t) && TxOk(s, t);
    match a
    case LockStep(step) => LockTaskStep(s, step, t);
    case Save(u) => if t == u { SaveStep(s, t); } else { OthersSave(s, u, t); }
    case Commit(u) => CommitTaskStep(s, u, t);
    case Load(_) =>
    case Modify(_, _) =>
    case Refuse(_) =>
    case Rollback(_) =>
  }

  lemma LockTaskStep(s: State, step: Locks.Action, t: Task)
    requires Inv(s) && Enabled(s, LockStep(step))
    ensures CopyIsCurrent(Next(s, LockStep(step)), t) && TxOk(Next(s, LockStep(step)), t)
  {
    assert CopyIsCurrent(s, t) && TxOk(s, t);
    if t != step.task { OthersLockStep(s, step, t); }
  }

  lemma OthersLockStep(s: State, step: Locks.Action, t: Task)
    requires Inv(s) && Enabled(s, LockStep(step)) && t != step.task
    ensures CopyIsCurrent(Next(s, LockStep(step)), t) && TxOk(Next(s, LockStep(step)), t)
  {
    assert CopyIsCurrent(s, t) && TxOk(s, t);
    Locks.OthersStep(s.locks, step, t);
  }

  /** A save concerns no session that another task is inside. */
  lemma OthersSave(s: State, u: Task, t: Task)
    requires Inv(s) && Enabled(s, Save(u)) && t != u
    ensures CopyIsCurrent(Next(s, Save(u)), t) && TxOk(Next(s, Save(u)), t)
  {
    assert CopyIsCurrent(s, t) && TxOk(s, t);
    Theorems.CoherentExcludes(s.locks);
  }

  /** A commit changes what its own task reads to what it read, and concerns no session that another
      request has loaded or saved to. */
  lemma CommitTaskStep(s: State, u: Task, t: Task)
    requires Inv(s) && u in s.open
    ensures CopyIsCurrent(Next(s, Commit(u)), t) && TxOk(Next(s, Commit(u)), t)
  {
    assert CopyIsCurrent(s, t) && TxOk(s, t) && TxOk(s, u);
  }

  lemma SaveStep(s: State, t: Task)
    requires CopyIsCurrent(s, t) && TxOk(s, t) && Enabled(s, Save(t))
    ensures TxOk(Next(s, Save(t)), t)
  {
    var before := if t in s.open then s.open[t].ops else [];
    var ops := before + [WorkOf(s, t).op];
    assert ops[..|ops| - 1] == before;
  }

  lemma {:induction false} RunKeepsInv(s: State, run: seq<Action>)
    requires Inv(s) && IsRun(s, run, SafeLoads)
    ensures Inv(Final(s, run))
    decreases |run|
  {
    if run != [] {
      InvStep(s, run[0]);
      RunKeepsInv(Next(s, run[0]), run[1..]);
    }
  }

  /** The store is serial, and each stored session holds exactly the messages added to it, in order and
      never more than its limit, under the title of its first user text. */
  ghost predicate NothingLost(s: State)
  {
    && Serial(s)
    && forall x :: x in s.store ==>
         && s.store[x].messages == Added(s.log, x) && |s.store[x].messages| <= DEFAULT_MAX_MESSAGES
         && TitleOk(s.store[x].title, s.store[x].messages)
  }

  /** In every run whose clean-ups evict no lock in use and in which nobody loads a session while another
      request has saves to it that are not committed, wherever the commits are: the store is what the
      committed operations give when each runs alone in the order of commit. */
  lemma NoLostUpdates(run: seq<Action>)
    requires IsRun(INIT, run, SafeLoads)
    ensures NothingLost(Final(INIT, run))
  {
    InvInit();
    RunKeepsInv(INIT, run);
    var s := Final(INIT, run);
    forall x | x in s.store
      ensures s.store[x].messages == Added(s.log, x) && |s.store[x].messages| <= DEFAULT_MAX_MESSAGES
      ensures TitleOk(s.store[x].title, s.store[x].messages)
    {
      ReplayMessages(s.log, x);
    }
  }

  /** Every transaction's task is inside the lock. */
  ghost predicate AllInside(s: State)
  {
    forall t :: t in s.open ==> Locks.At(s.locks, t).Inside?
  }

  /** Requests that commit before they leave the lock load safely, because the lock keeps others out. */
  lemma {:induction false} CommitFirstLoadsSafely(s: State, run: seq<Action>)
    requires Inv(s) && AllInside(s) && IsRun(s, run, CommitFirst)
    ensures IsRun(s, run, SafeLoads) && AllInside(Final(s, run))
    decreases |run|
  {
    if run != [] {
      CommitFirstStep(s, run[0]);
      InvStep(s, run[0]);
      CommitFirstLoadsSafely(Next(s, run[0]), run[1..]);
    }
  }

  lemma CommitFirstStep(s: State, a: Action)
    requires Inv(s) && AllInside(s) && Enabled(s, a) && CommitsFirst(s, a)
    ensures LoadsSafely(s, a) && AllInside(Next(s, a))
  {
    Theorems.CoherentExcludes(s.locks);
    if a.Load? {
      forall u | u in s.open && u != a.task
        ensures s.open[u].session != Locks.At(s.locks, a.task).session
      {
        assert TxOk(s, u);
      }
    } else if a.LockStep? {
      forall u | u in s.open
        ensures Locks.At(Next(s, a).locks, u).Inside?
      {
        if u != a.step.task { Locks.OthersStep(s.locks, a.step, u); }
      }
    }
  }

  /** So nothing is lost in any run whose requests commit before they leave. */
  lemma CommitFirstLosesNothing(run: seq<Action>)
    requires IsRun(INIT, run, CommitFirst)
    ensures NothingLost(Final(INIT, run))
  {
    InvInit();
    CommitFirstLoadsSafely(INIT, run);
    NoLostUpdates(run);
  }

  /** Each step leaves the store alone or is a commit, and that is the operations saved by the
      committing task, on the session it is inside or has left, run alone. */
  lemma StepIsSerial(s: State, a: Action)
    requires Inv(s) && Enabled(s, a)
    ensures var n := Next(s, a);
            if a.Commit? then
              var done := Entries(s.open[a.task].session, s.open[a.task].ops);
              && n.log == s.log + done && n.store == RunAlone(s.store, done) && Succeeds(s.store, done)
              && (Locks.At(s.locks, a.task).Inside? ==>
                    Locks.At(s.locks, a.task).session == s.open[a.task].session)
            else n.store == s.store && n.log == s.log
  {
    if a.Commit? {
      assert TxOk(s, a.task);
      EntriesAlone(s.store, s.open[a.task].session, s.open[a.task].ops);
    }
  }

  /** A transaction is opened or changed only by its task's saves, and a commit or rollback ends it. What a
      task has loaded is gone after a refusal, a save or a rollback, and only its own steps change it. */
  lemma OnlySavesOpen(s: State, a: Action, t: Task)
    requires Enabled(s, a)
    ensures a in {Refuse(t), Save(t), Rollback(t)} || (a.LockStep? && a.step.task == t)
            ==> WorkOf(Next(s, a), t).Between?
    ensures (if a.LockStep? then a.step.task else a.task) != t ==> WorkOf(Next(s, a), t) == WorkOf(s, t)
    ensures t in Next(s, a).open <==> a == Save(t) || (t in s.open && a != Commit(t) && a != Rollback(t))
    ensures t in Next(s, a).open && a != Save(t) ==> Next(s, a).open[t] == s.open[t]
  {
  }

  // ----- What goes wrong otherwise -----

  lemma {:induction false} FirstSucceeds(ops: seq<Op>, found: Option<SessionRecord>)
    requires ops != [] && PerformAll(ops, found).Ok?
    ensures Perform(ops[0], found).Ok?
  {
    if |ops| > 1 { FirstSucceeds(ops[..|ops| - 1], found); }
  }

  /** Every operation that succeeds on an existing session adds a message. */
  lemma {:induction false} EachAddsOne(ops: seq<Op>, b: SessionRecord)
    requires ops != [] && PerformAll(ops, Some(b)).Ok?
    ensures |PerformAll(ops, Some(b)).value.messages| == |b.messages| + |ops|
    ensures forall i :: 0 <= i < |ops| ==> ops[i].Add?
  {
    if |ops| > 1 {
      EachAddsOne(ops[..|ops| - 1], b);
      assert forall i :: 0 <= i < |ops| - 1 ==> ops[..|ops| - 1][i] == ops[i];
    }
  }

  lemma {:induction false} AddedEntries(log: seq<Entry>, x: SessionId, ops: seq<Op>)
    requires forall i :: 0 <= i < |ops| ==> ops[i].Add?
    ensures |Added(log + Entries(x, ops), x)| == |Added(log, x)| + |ops|
  {
    if ops == [] {
      assert log + Entries(x, ops) == log;
    } else {
      var rest, e := ops[..|ops| - 1], Entry(x, ops[|ops| - 1]);
      assert (log + Entries(x, ops))[..|log + Entries(x, ops)| - 1] == log + Entries(x, rest);
      AddedEntries(log, x, rest);
    }
  }

  /** A task that has loaded a session before another one's saves to it are committed: when it performs
      an operation on its copy and both commit, the store is not what a serial run gives, and of an
      existing session a message is lost. */
  lemma StaleCopyLoses(s: State, t: Task, u: Task, op: Op, rule: Rule) returns (run: seq<Action>)
    requires Serial(s) && t != u && t in s.open && u !in s.open && FromStore(s, s.open[t])
    requires Locks.At(s.locks, u).Inside? && Locks.At(s.locks, u).session == s.open[t].session
    requires WorkOf(s, u) == Loaded(Get(s.store, s.open[t].session))
    requires Perform(op, Get(s.store, s.open[t].session)).Ok? && !rule.SourceOrder?
    ensures IsRun(s, run, rule) && !Serial(Final(s, run))
    ensures var f, x := Final(s, run), s.open[t].session;
            x in s.store ==> x in f.store && |f.store[x].messages| < |Added(f.log, x)|
  {
    var save := ChangeAndSave(s, u, op, rule);
    var m := Final(s, save);
    var both := CommitBoth(m, t, u, rule);
    RunAppend(s, save, both, rule);
    run := save + both;
    SecondIsLost(s, Final(s, run), s.open[t], op);
  }

  /** A task changes and saves the session it has loaded. */
  lemma ChangeAndSave(s: State, u: Task, op: Op, rule: Rule) returns (run: seq<Action>)
    requires Locks.At(s.locks, u).Inside? && u !in s.open
    requires var x := Locks.At(s.locks, u).session;
             WorkOf(s, u) == Loaded(Get(s.store, x)) && Perform(op, Get(s.store, x)).Ok?
    ensures IsRun(s, run, rule)
    ensures Saved(s, Final(s, run), u, op)
  {
    var s1 := Next(s, Modify(u, op));
    var s2 := Next(s1, Save(u));
    assert [] + [op] == [op];
    assert IsRun(s2, [], rule) && Final(s2, []) == s2;
    run := Prepend(s1, Save(u), [], rule);
    run := Prepend(s, Modify(u, op), run, rule);
  }

  /** `f` is `s` after the task has saved the result of one operation on what is committed. */
  ghost predicate Saved(s: State, f: State, u: Task, op: Op)
    requires Locks.At(s.locks, u).Inside? && Perform(op, Get(s.store, Locks.At(s.locks, u).session)).Ok?
  {
    var x := Locks.At(s.locks, u).session;
    && f.locks == s.locks && f.store == s.store && f.log == s.log
    && f.open == s.open[u := Tx(x, [op], Perform(op, Get(s.store, x)).value)]
    && WorkOf(f, u).Between? && (forall t :: t != u ==> WorkOf(f, t) == WorkOf(s, t))
  }

  lemma CommitBoth(s: State, t: Task, u: Task, rule: Rule) returns (run: seq<Action>)
    requires t != u && t in s.open && u in s.open && s.open[t].session == s.open[u].session
    requires rule.SourceOrder? ==> Locks.At(s.locks, t).Outside? && Locks.At(s.locks, u).Outside?
    ensures IsRun(s, run, rule)
    ensures var f, x := Final(s, run), s.open[u].session;
            && f.store == s.store[x := s.open[u].result]
            && f.log == s.log + Entries(x, s.open[t].ops) + Entries(x, s.open[u].ops)
            && f.open == s.open - {t} - {u}
  {
    var s1 := Next(s, Commit(t));
    var s2 := Next(s1, Commit(u));
    assert IsRun(s2, [], rule) && Final(s2, []) == s2;
    run := Prepend(s1, Commit(u), [], rule);
    run := Prepend(s, Commit(t), run, rule);
  }

  lemma SecondIsLost(s: State, f: State, tx: Tx, op: Op)
    requires Serial(s) && FromStore(s, tx) && Perform(op, Get(s.store, tx.session)).Ok?
    requires f.store == s.store[tx.session := Perform(op, Get(s.store, tx.session)).value]
    requires f.log == s.log + Entries(tx.session, tx.ops) + Entries(tx.session, [op])
    ensures !Serial(f)
    ensures tx.session in s.store ==> |f.store[tx.session].messages| < |Added(f.log, tx.session)|
  {
    var x, e := tx.session, Entry(tx.session, op);
    assert [op][..0] == [] && Entries(x, [op]) == [e];
    EntriesAlone(s.store, x, tx.ops);
    RunAloneAppend(map[], s.log, Entries(x, tx.ops));
    RunAloneOneMore(map[], s.log + Entries(x, tx.ops), e);
    if x in s.store {
      EachAddsOne(tx.ops, s.store[x]);
      FewerThanAdded(s, tx, op);
    }
  }

  /** One more message than before against at least two more that were added. */
  lemma FewerThanAdded(s: State, tx: Tx, op: Op)
    requires Serial(s) && FromStore(s, tx) && tx.session in s.store
    requires Perform(op, Get(s.store, tx.session)).Ok?
    ensures |Perform(op, Get(s.store, tx.session)).value.messages|
            < |Added(s.log + Entries(tx.session, tx.ops) + Entries(tx.session, [op]), tx.session)|
  {
    var x := tx.session;
    EachAddsOne(tx.ops, s.store[x]);
    AddedEntries(s.log, x, tx.ops);
    AddedEntries(s.log + Entries(x, tx.ops), x, [op]);
    ReplayMessages(s.log, x);
  }

  /** Exclusion is needed: two tasks inside one session that still takes messages can lose one, also
      when they load while nobody has saves to it that are not committed. */
  lemma WithoutExclusionOneIsLost(s: State, t: Task, u: Task, m: Message, now: int, rule: Rule)
    returns (run: seq<Action>)
    requires Serial(s) && t != u && t !in s.open && u !in s.open
    requires Locks.At(s.locks, t).Inside? && Locks.At(s.locks, u).Inside?
    requires Locks.At(s.locks, t).session == Locks.At(s.locks, u).session && Locks.At(s.locks, t).session in s.store
    requires WorkOf(s, t).Between? && WorkOf(s, u).Between?
    requires var r := s.store[Locks.At(s.locks, t).session]; r.isActive && |r.messages| < r.maxMessages
    requires !rule.SourceOrder? && (rule.SafeLoads? ==> NobodyElseOpen(s, t))
    ensures var f, x := Final(s, run), Locks.At(s.locks, t).session;
            IsRun(s, run, rule) && x in f.store && |f.store[x].messages| < |Added(f.log, x)|
  {
    var s1 := Next(s, Load(t));
    var s2 := Next(s1, Load(u));
    var save := ChangeAndSave(s2, t, Add(m, now), rule);
    var f := Final(s2, save);
    assert PerformAll([Add(m, now)], Get(s.store, Locks.At(s.locks, t).session)).Ok?;
    run := StaleCopyLoses(f, t, u, Add(m, now), rule);
    RunAppend(s2, save, run, rule);
    run := Prepend(s1, Load(u), save + run, rule);
    run := Prepend(s, Load(t), run, rule);
  }

  // ----- Which loads are safe -----

  /** Loading a session keeps the store serial in all later runs, without another unsafe load, exactly
      when no other request has saves to it that are not committed. */
  lemma LoadIsSafeIff(s: State, t: Task)
    requires Inv(s) && Enabled(s, Load(t))
    ensures NobodyElseOpen(s, t) <==>
            forall run :: IsRun(Next(s, Load(t)), run, SafeLoads) ==> Serial(Final(Next(s, Load(t)), run))
  {
    var n := Next(s, Load(t));
    if NobodyElseOpen(s, t) {
      InvStep(s, Load(t));
      forall run | IsRun(n, run, SafeLoads)
        ensures Serial(Final(n, run))
      {
        RunKeepsInv(n, run);
      }
    } else {
      var u :| u in s.open && u != t && s.open[u].session == Locks.At(s.locks, t).session;
      assert TxOk(s, t) && TxOk(s, u);
      FirstSucceeds(s.open[u].ops, Get(s.store, s.open[u].session));
      var run := StaleCopyLoses(n, u, t, s.open[u].ops[0], SafeLoads);
      assert IsRun(n, run, SafeLoads) && !Serial(Final(n, run));
    }
  }

  // ----- Leaving before the commit -----

  /** The steps of a run of the locks, as steps of the facade. */
  function Lift(run: seq<Locks.Action>): seq<Action>
  {
    if run == [] then [] else [LockStep(run[0])] + Lift(run[1..])
  }

  lemma {:induction false} Lifted(s: State, run: seq<Locks.Action>, u: Task)
    requires Theorems.IsRun(s.locks, run, Theorems.SafeSweeps)
    requires forall a :: a in run && (a.Leave? || a.Call?) ==> a.task !in s.open
    ensures IsRun(s, Lift(run), CommitFirst)
    ensures var f := Final(s, Lift(run));
            && f.locks == Theorems.Final(s.locks, run) && f.store == s.store && f.log == s.log && f.open == s.open
            && (WorkOf(s, u).Between? || (exists a :: a in run && a.task == u) ==> WorkOf(f, u).Between?)
    decreases |run|
  {
    if run != [] {
      assert run[0] in run && Lift(run)[1..] == Lift(run[1..]);
      Lifted(Next(s, LockStep(run[0])), run[1..], u);
      if a :| a in run && a.task == u && run[0].task != u { assert a in run[1..]; }
    }
  }

  lemma LeaveWithSavesBreaks(s: State, t: Task) returns (run: seq<Action>)
    requires Inv(s) && AllInside(s) && Enabled(s, LockStep(Locks.Leave(t))) && t in s.open
    requires s.locks.holder.Some? ==> Locks.At(s.locks, s.locks.holder.value).HoldsTable?
    ensures var n := Next(s, LockStep(Locks.Leave(t)));
            && IsRun(n, run, CommitFirst) && !Serial(Final(n, run))
            && (s.open[t].session in s.store ==>
                  var f, x := Final(n, run), s.open[t].session;
                  x in f.store && |f.store[x].messages| < |Added(f.log, x)|)
  {
    var n := Next(s, LockStep(Locks.Leave(t)));
    var k := Locks.At(s.locks, t).lock;
    LeftFree(s, t);
    var enter, u := Theorems.FreeLockIsEntered(n.locks, k, s.open.Keys);
    OpenNotQueued(s, t, u);
    Lifted(n, enter, u);
    var m := Final(n, Lift(enter));
    var stale := LoadAndLose(m, t, u);
    RunAppend(n, Lift(enter), stale, CommitFirst);
    run := Lift(enter) + stale;
  }

  /** The lock that `t` leaves is free and listed for its session. */
  lemma LeftFree(s: State, t: Task)
    requires Inv(s) && AllInside(s) && Enabled(s, LockStep(Locks.Leave(t))) && t in s.open
    requires s.locks.holder.Some? ==> Locks.At(s.locks, s.locks.holder.value).HoldsTable?
    ensures var l, k := Next(s, LockStep(Locks.Leave(t))).locks, Locks.At(s.locks, t).lock;
            && Locks.Inv(l) && k < |l.heap| && !l.heap[k].locked && l.heap[k].session == s.open[t].session
            && l.heap[k].session in l.table && l.table[l.heap[k].session] == k
            && (l.holder.Some? ==> Locks.At(l, l.holder.value).HoldsTable?)
    ensures FromStore(s, s.open[t])
  {
    var e := Locks.Leave(t);
    Locks.InvStep(s.locks, e);
    assert TxOk(s, t) && Locks.TaskOk(s.locks, t) && Locks.CanEnter(Locks.At(s.locks, t));
    if s.locks.holder.Some? {
      assert Locks.TaskOk(s.locks, s.locks.holder.value);
      Locks.OthersStep(s.locks, e, s.locks.holder.value);
    }
  }

  lemma LoadAndLose(s: State, t: Task, u: Task) returns (run: seq<Action>)
    requires Serial(s) && t != u && t in s.open && u !in s.open && FromStore(s, s.open[t])
    requires Locks.At(s.locks, u).Inside? && Locks.At(s.locks, u).session == s.open[t].session
    requires WorkOf(s, u).Between?
    ensures IsRun(s, run, CommitFirst) && !Serial(Final(s, run))
    ensures var f, x := Final(s, run), s.open[t].session;
            x in s.store ==> x in f.store && |f.store[x].messages| < |Added(f.log, x)|
  {
    FirstSucceeds(s.open[t].ops, Get(s.store, s.open[t].session));
    run := StaleCopyLoses(Next(s, Load(u)), t, u, s.open[t].ops[0], CommitFirst);
    run := Prepend(s, Load(u), run, CommitFirst);
  }

  /** After `t` leaves, no task that waits for a lock has saves that are not committed. */
  lemma OpenNotQueued(s: State, t: Task, u: Task)
    requires Inv(s) && AllInside(s) && Enabled(s, LockStep(Locks.Leave(t)))
    ensures Locks.At(Next(s, LockStep(Locks.Leave(t))).locks, u).Queued? ==> u !in s.open && u != t
  {
    assert TxOk(s, u) && Locks.TaskOk(s.locks, t);
    if u != t { Locks.OthersStep(s.locks, Locks.Leave(t), u); }
  }

  /** While every transaction's task is inside the lock and no clean-up holds the table, leaving the lock
      keeps the store serial in all later runs, without another such leaving, exactly when the request
      has committed its saves before. */
  lemma LeaveIsSafeIff(s: State, t: Task)
    requires Inv(s) && AllInside(s) && Enabled(s, LockStep(Locks.Leave(t)))
    requires s.locks.holder.Some? ==> Locks.At(s.locks, s.locks.holder.value).HoldsTable?
    ensures t !in s.open <==>
            forall run :: IsRun(Next(s, LockStep(Locks.Leave(t))), run, CommitFirst)
                          ==> Serial(Final(Next(s, LockStep(Locks.Leave(t))), run))
  {
    var n := Next(s, LockStep(Locks.Leave(t)));
    if t !in s.open {
      CommitFirstStep(s, LockStep(Locks.Leave(t)));
      InvStep(s, LockStep(Locks.Leave(t)));
      forall run | IsRun(n, run, CommitFirst)
        ensures Serial(Final(n, run))
      {
        CommitFirstLoadsSafely(n, run);
        RunKeepsInv(n, run);
      }
    } else {
      var run := LeaveWithSavesBreaks(s, t);
      assert IsRun(n, run, CommitFirst) && !Serial(Final(n, run));
    }
  }

  // ----- A loss in the order of the source -----

  /** Nobody is at the locks, and the task has not been there. */
  ghost predicate Ready(s: State, x: SessionId, t: Task)
  {
    && Locks.Inv(s.locks) && s.locks.holder.None? && Theorems.IsFree(s.locks, x)
    && t !in s.locks.pcs && t !in s.open
  }

  lemma EnterFirst(s: State, x: SessionId, t: Task) returns (run: seq<Action>)
    requires Ready(s, x, t)
    ensures IsRun(s, run, SourceOrder)
    ensures var f := Final(s, run);
            && Locks.Inv(f.locks) && Theorems.Entered(s.locks, f.locks, x, t)
            && f.store == s.store && f.log == s.log && f.open == s.open && WorkOf(f, t).Between?
  {
    var l1, l2, l3, l4 := Theorems.FourSteps(s.locks, x, t);
    Locks.InvStep(s.locks, Locks.Call(t, x));
    Locks.InvStep(l1, Locks.TakeTable(t));
    Locks.InvStep(l2, Locks.Fetch(t));
    Locks.InvStep(l3, Locks.Acquire(t));
    var s1 := Next(s, LockStep(Locks.Call(t, x)));
    var s2 := Next(s1, LockStep(Locks.TakeTable(t)));
    var s3 := Next(s2, LockStep(Locks.Fetch(t)));
    assert IsRun(Next(s3, LockStep(Locks.Acquire(t))), [], SourceOrder);
    run := Prepend(s3, LockStep(Locks.Acquire(t)), [], SourceOrder);
    run := Prepend(s2, LockStep(Locks.Fetch(t)), run, SourceOrder);
    run := Prepend(s1, LockStep(Locks.TakeTable(t)), run, SourceOrder);
    run := Prepend(s, LockStep(Locks.Call(t, x)), run, SourceOrder);
  }

  /** A whole request up to its commit: it gets in, loads, changes, saves and leaves. */
  lemma OneRequest(s: State, x: SessionId, t: Task, op: Op) returns (run: seq<Action>)
    requires Ready(s, x, t) && Perform(op, Get(s.store, x)).Ok?
    ensures IsRun(s, run, SourceOrder)
    ensures var f := Final(s, run);
            && f.store == s.store && f.log == s.log
            && f.open == s.open[t := Tx(x, [op], Perform(op, Get(s.store, x)).value)]
            && f.locks.pcs == s.locks.pcs[t := Locks.Outside]
            && forall u :: u != t && Ready(s, x, u) ==> Ready(f, x, u)
  {
    run := EnterFirst(s, x, t);
    var m := Final(s, run);
    var n := Next(m, Load(t));
    var save := ChangeAndSave(n, t, op, SourceOrder);
    var left := LeaveAlone(s, Final(n, save), x, t);
    RunAppend(n, save, left, SourceOrder);
    var rest := Prepend(m, Load(t), save + left, SourceOrder);
    RunAppend(s, run, rest, SourceOrder);
    run := run + rest;
  }

  lemma LeaveAlone(s: State, m: State, x: SessionId, t: Task) returns (run: seq<Action>)
    requires Locks.Inv(m.locks) && Theorems.Entered(s.locks, m.locks, x, t)
    ensures IsRun(m, run, SourceOrder)
    ensures var f := Final(m, run);
            && f.store == m.store && f.log == m.log && f.open == m.open
            && f.locks.pcs == s.locks.pcs[t := Locks.Outside]
            && Locks.Inv(f.locks) && f.locks.holder.None? && Theorems.IsFree(f.locks, x)
  {
    var e := Locks.Leave(t);
    Locks.InvStep(m.locks, e);
    assert IsRun(Next(m, LockStep(e)), [], SourceOrder) && Final(Next(m, LockStep(e)), []) == Next(m, LockStep(e));
    run := Prepend(m, LockStep(e), [], SourceOrder);
  }

  /** Request 0 creates the session and commits; requests 1 and 2 each add a message and leave the lock
      before either commits. All commit, each once and outside the lock, and a message is lost. */
  lemma CommitAfterLeavingLosesOne(x: SessionId, m1: Message, m2: Message) returns (run: seq<Action>)
    ensures var f := Final(INIT, run);
            && IsRun(INIT, run, SourceOrder) && f.open == map[]
            && x in f.store && |f.store[x].messages| < |Added(f.log, x)|
  {
    var create := CreateSession(x);
    var s := Final(INIT, create);
    var first := OneRequest(s, x, 1, Add(m1, 0));
    var s1 := Final(s, first);
    var second := OneRequest(s1, x, 2, Add(m2, 0));
    var s2 := Final(s1, second);
    var both := CommitBoth(s2, 1, 2, SourceOrder);
    RunAppend(s1, second, both, SourceOrder);
    RunAppend(s, first, second + both, SourceOrder);
    RunAppend(INIT, create, first + (second + both), SourceOrder);
    run := create + (first + (second + both));
    SecondIsLost(s, Final(s2, both), s1.open[1], Add(m2, 0));
  }

  lemma CreateSession(x: SessionId) returns (run: seq<Action>)
    ensures IsRun(INIT, run, SourceOrder)
    ensures var f := Final(INIT, run);
            && Serial(f) && f.open == map[] && f.store == map[x := NewSession(0)]
            && Ready(f, x, 1) && Ready(f, x, 2)
  {
    Locks.InvInit();
    run := OneRequest(INIT, x, 0, Create(0));
    var s := Final(INIT, run);
    assert Ready(INIT, x, 1) && Ready(INIT, x, 2);
    assert FromStore(s, s.open[0]);
    CommitIsSerial(s, 0);
    assert IsRun(Next(s, Commit(0)), [], SourceOrder) && Final(Next(s, Commit(0)), []) == Next(s, Commit(0));
    var commit := Prepend(s, Commit(0), [], SourceOrder);
    RunAppend(INIT, run, commit, SourceOrder);
    run := run + commit;
  }
}
