// The session-lock protocol as a step system over any number of tasks.
//
// Between two awaits a task runs alone, so a step is the code between two
// points where a task may be suspended. The global lock is a holder field;
// a session lock is a flag with a FIFO of waiting futures: a release clears
// the flag and wakes the first future, and the woken task takes the flag only
// when it runs again.
module LockProtocol {
  import opened Options
  import opened SessionLocks

  type Task = nat
  type LockId = nat

  /** A waiting task's future: not yet woken, woken by a release, or cancelled. */
  datatype Future = Pending | Woken | Cancelled

  datatype Pc =
    | Outside
    | WantsTable(session: SessionId)                            // about to take the global lock
    | HoldsTable(session: SessionId)                            // inside the global lock
    | Fetched(session: SessionId, lock: LockId)                 // has the lock object, not yet acquiring
    | Queued(session: SessionId, lock: LockId, future: Future)  // suspended in `acquire`
    | Inside(session: SessionId, lock: LockId)                  // in the body of `lock(session)`
    | WantsSweep(maxLocks: int)
    | HoldsSweep(maxLocks: int)

  /** A lock object; `session` records for whom it was made. */
  datatype Lock = Lock(session: SessionId, locked: bool, waiters: seq<Task>)

  /** Lock objects are numbered in order of creation; `table` is `_locks`, `order` its key order. */
  datatype State = State(
    pcs: map<Task, Pc>,
    holder: Option<Task>,
    order: seq<SessionId>,
    table: map<SessionId, LockId>,
    heap: seq<Lock>)

  const INIT := State(map[], None, [], map[], [])

  datatype Action =
    | Call(task: Task, session: SessionId)
    | CallSweep(task: Task, maxLocks: int)
    | TakeTable(task: Task)
    | Fetch(task: Task)
    | Acquire(task: Task)
    | Resume(task: Task)
    | Cancel(task: Task)
    | Abort(task: Task)
    | Leave(task: Task)
    | Sweep(task: Task)

  function At(s: State, t: Task): Pc
  {
    if t in s.pcs then s.pcs[t] else Outside
  }

  function Put(s: State, t: Task, pc: Pc): State
  {
    s.(pcs := s.pcs[t := pc])
  }

  predicate HasLock(pc: Pc)
  {
    pc.Fetched? || pc.Queued? || pc.Inside?
  }

  /** The task still can get into the body. */
  predicate CanEnter(pc: Pc)
  {
    pc.Fetched? || (pc.Queued? && pc.future != Cancelled) || pc.Inside?
  }

  predicate IsCancelled(pc: Pc)
  {
    pc.Queued? && pc.future.Cancelled?
  }

  /** `_wake_up_first`: the first waiter's future is completed unless it already is. */
  function WakeFirst(pcs: map<Task, Pc>, waiters: seq<Task>): map<Task, Pc>
  {
    if waiters != [] && waiters[0] in pcs && pcs[waiters[0]].Queued? && pcs[waiters[0]].future.Pending?
    then pcs[waiters[0] := pcs[waiters[0]].(future := Woken)]
    else pcs
  }

  function Remove(waiters: seq<Task>, t: Task): seq<Task>
  {
    if waiters == [] then []
    else if waiters[0] == t then waiters[1..]
    else [waiters[0]] + Remove(waiters[1..], t)
  }

  function Busy(s: State): set<SessionId>
  {
    set x | x in s.table && s.table[x] < |s.heap| && s.heap[s.table[x]].locked
  }

  function Gone(s: State, maxLocks: int): set<SessionId>
  {
    Elements(Evicted(s.order, Busy(s), maxLocks))
  }

  predicate Enabled(s: State, a: Action)
  {
    var pc := At(s, a.task);
    match a
    case Call(_, _) => pc.Outside?
    case CallSweep(_, _) => pc.Outside?
    case TakeTable(_) => (pc.WantsTable? || pc.WantsSweep?) && s.holder.None?
    case Fetch(_) => pc.HoldsTable?
    case Acquire(_) => pc.Fetched? && pc.lock < |s.heap|
    case Resume(_) => pc.Queued? && pc.future.Woken? && pc.lock < |s.heap|
    case Cancel(_) => pc.Queued? && pc.future.Pending?
    case Abort(_) => pc.Queued? && !pc.future.Pending? && pc.lock < |s.heap|
    case Leave(_) => pc.Inside? && pc.lock < |s.heap|
    case Sweep(_) => pc.HoldsSweep?
  }

  function Next(s: State, a: Action): State
    requires Enabled(s, a)
  {
    var t := a.task;
    var pc := At(s, t);
    match a
    case Call(_, session) => Put(s, t, WantsTable(session))
    case CallSweep(_, m) => Put(s, t, WantsSweep(m))
    case TakeTable(_) =>
      Put(s, t, if pc.WantsTable? then HoldsTable(pc.session) else HoldsSweep(pc.maxLocks)).(holder := Some(t))
    case Fetch(_) =>
      var x := pc.session;
      if x in s.table then
        Put(s, t, Fetched(x, s.table[x])).(holder := None)
      else
        Put(s, t, Fetched(x, |s.heap|)).(
          holder := None, order := s.order + [x], table := s.table[x := |s.heap|],
          heap := s.heap + [Lock(x, false, [])])
    case Acquire(_) =>
      var l := s.heap[pc.lock];
      if !l.locked && forall i | 0 <= i < |l.waiters| :: IsCancelled(At(s, l.waiters[i])) then
        Put(s, t, Inside(pc.session, pc.lock)).(heap := s.heap[pc.lock := l.(locked := true)])
      else
        Put(s, t, Queued(pc.session, pc.lock, Pending)).(heap := s.heap[pc.lock := l.(waiters := l.waiters + [t])])
    case Resume(_) =>
      var l := s.heap[pc.lock];
      Put(s, t, Inside(pc.session, pc.lock)).(
        heap := s.heap[pc.lock := l.(locked := true, waiters := Remove(l.waiters, t))])
    case Cancel(_) => Put(s, t, pc.(future := Cancelled))
    case Abort(_) =>
      var l := s.heap[pc.lock];
      var rest := Remove(l.waiters, t);
      var pcs := s.pcs[t := Outside];
      s.(pcs := if l.locked then pcs else WakeFirst(pcs, rest), heap := s.heap[pc.lock := l.(waiters := rest)])
    case Leave(_) =>
      var l := s.heap[pc.lock];
      s.(pcs := WakeFirst(s.pcs[t := Outside], l.waiters), heap := s.heap[pc.lock := l.(locked := false)])
    case Sweep(_) =>
      var gone := Gone(s, pc.maxLocks);
      Put(s, t, Outside).(holder := None, order := Except(s.order, gone), table := s.table - gone)
  }

  // ----- What every step keeps -----

  ghost predicate TableOk(s: State)
  {
    && Distinct(s.order)
    && (forall x :: x in s.order <==> x in s.table)
    && (forall x :: x in s.table ==> s.table[x] < |s.heap| && s.heap[s.table[x]].session == x)
  }

  predicate Holds(s: State, t: Task, l: LockId)
  {
    At(s, t).Inside? && At(s, t).lock == l
  }

  /** A task's lock was made for its session, is taken while the task is inside, and lists the task while it waits. */
  ghost predicate TaskOk(s: State, t: Task)
  {
    var pc := At(s, t);
    && (HasLock(pc) ==> pc.lock < |s.heap| && s.heap[pc.lock].session == pc.session)
    && (pc.Inside? ==> s.heap[pc.lock].locked)
    && (pc.Queued? ==> t in s.heap[pc.lock].waiters)
    && (s.holder == Some(t) <==> pc.HoldsTable? || pc.HoldsSweep?)
  }

  /** The waiters of a lock are queued for it; only the first of a free lock can be woken, and it never sleeps. */
  ghost predicate WaitersOk(s: State, l: LockId)
    requires l < |s.heap|
  {
    var w, locked := s.heap[l].waiters, s.heap[l].locked;
    && Distinct(w)
    && (forall i :: 0 <= i < |w| ==> At(s, w[i]).Queued? && At(s, w[i]).lock == l)
    && (forall i :: 0 <= i < |w| && At(s, w[i]).future.Woken? ==> i == 0 && !locked)
    && (w != [] && !locked ==> !At(s, w[0]).future.Pending?)
  }

  ghost predicate LockOk(s: State, l: LockId)
    requires l < |s.heap|
  {
    WaitersOk(s, l) && (s.heap[l].locked ==> exists t :: Holds(s, t, l))
  }

  ghost predicate OneHolder(s: State)
  {
    forall t: Task, u: Task, l: LockId :: Holds(s, t, l) && Holds(s, u, l) ==> t == u
  }

  ghost predicate Inv(s: State)
  {
    && TableOk(s)
    && (forall t: Task :: TaskOk(s, t))
    && (forall l: LockId :: l < |s.heap| ==> LockOk(s, l))
    && OneHolder(s)
  }

  lemma {:induction false} RemoveContents(w: seq<Task>, t: Task)
    requires Distinct(w)
    ensures Distinct(Remove(w, t))
    ensures forall u :: u in Remove(w, t) <==> u in w && u != t
    ensures w != [] && w[0] == t ==> Remove(w, t) == w[1..]
    ensures w != [] && w[0] != t ==> Remove(w, t) != [] && Remove(w, t)[0] == w[0]
  {
    if w != [] {
      assert w == [w[0]] + w[1..];
      if w[0] == t {
        assert t !in w[1..];
      } else {
        RemoveContents(w[1..], t);
        assert w[0] !in w[1..];
      }
    }
  }

  lemma InvInit()
    ensures Inv(INIT)
  {
  }

  lemma InvStep(s: State, a: Action)
    requires Inv(s) && Enabled(s, a)
    ensures Inv(Next(s, a))
  {
    var n := Next(s, a);
    TableStep(s, a);
    forall t: Task ensures TaskOk(n, t) { TaskStep(s, a, t); }
    forall l: LockId | l < |n.heap| ensures LockOk(n, l) { LockStep(s, a, l); }
    forall t: Task, u: Task, l: LockId | Holds(n, t, l) && Holds(n, u, l)
      ensures t == u
    {
      HoldersStep(s, a, t, u, l);
    }
  }

  lemma TableStep(s: State, a: Action)
    requires Inv(s) && Enabled(s, a)
    ensures TableOk(Next(s, a))
  {
    if a.Sweep? {
      SweepTableStep(s, a);
    }
  }

  lemma SweepTableStep(s: State, a: Action)
    requires Inv(s) && Enabled(s, a) && a.Sweep?
    ensures TableOk(Next(s, a))
  {
    ExceptContents(s.order, Gone(s, At(s, a.task).maxLocks));
  }

  /** Only the task of the step changes, besides at most one waiter that is woken. */
  lemma OthersStep(s: State, a: Action, u: Task)
    requires Inv(s) && Enabled(s, a) && u != a.task
    ensures var n := Next(s, a);
            At(n, u) == At(s, u)
            || (At(s, u).Queued? && At(s, u).future.Pending? && At(n, u) == At(s, u).(future := Woken)
                && (a.Abort? || a.Leave?) && At(s, u).lock == At(s, a.task).lock
                && n.heap[At(s, u).lock].waiters != [] && n.heap[At(s, u).lock].waiters[0] == u)
  {
    assert TaskOk(s, a.task);
    if a.Abort? || a.Leave? {
      var k := At(s, a.task).lock;
      assert LockOk(s, k);
      RemoveContents(s.heap[k].waiters, a.task);
    }
  }

  lemma TaskStep(s: State, a: Action, u: Task)
    requires Inv(s) && Enabled(s, a)
    ensures TaskOk(Next(s, a), u)
  {
    if u == a.task { OwnTaskStep(s, a); } else { OtherTaskStep(s, a, u); }
  }

  lemma OwnTaskStep(s: State, a: Action)
    requires Inv(s) && Enabled(s, a)
    ensures TaskOk(Next(s, a), a.task)
  {
    assert TaskOk(s, a.task);
    if HasLock(At(s, a.task)) { assert LockOk(s, At(s, a.task).lock); }
  }

  lemma OtherTaskStep(s: State, a: Action, u: Task)
    requires Inv(s) && Enabled(s, a) && u != a.task
    ensures TaskOk(Next(s, a), u)
  {
    var t := a.task;
    assert TaskOk(s, t) && TaskOk(s, u);
    OthersStep(s, a, u);
    if HasLock(At(s, t)) {
      var k := At(s, t).lock;
      assert LockOk(s, k);
      RemoveContents(s.heap[k].waiters, t);
      if a.Leave? && Holds(s, u, k) {
        assert Holds(s, t, k);
      }
    }
  }

  lemma HoldersStep(s: State, a: Action, t: Task, u: Task, l: LockId)
    requires Inv(s) && Enabled(s, a)
    requires Holds(Next(s, a), t, l) && Holds(Next(s, a), u, l)
    ensures t == u
  {
    assert TaskOk(s, t) && TaskOk(s, u) && TaskOk(s, a.task);
    if t != u {
      if t != a.task { OthersStep(s, a, t); }
      if u != a.task { OthersStep(s, a, u); }
      if t != a.task && u != a.task {
        assert Holds(s, t, l) && Holds(s, u, l);
      } else if a.Resume? {
        EntersUnlocked(s, a);
      }
    }
  }

  /** A woken waiter is the first of a free lock. */
  lemma EntersUnlocked(s: State, a: Action)
    requires Inv(s) && Enabled(s, a) && a.Resume?
    ensures var l := s.heap[At(s, a.task).lock]; !l.locked && l.waiters != [] && l.waiters[0] == a.task
  {
    assert TaskOk(s, a.task);
    assert LockOk(s, At(s, a.task).lock);
  }

  lemma LockStep(s: State, a: Action, l: LockId)
    requires Inv(s) && Enabled(s, a) && l < |Next(s, a).heap|
    ensures LockOk(Next(s, a), l)
  {
    if l == |s.heap| {
    } else {
      LockQueueStep(s, a, l);
      if Next(s, a).heap[l].locked { LockHeldStep(s, a, l); }
    }
  }

  lemma LockHeldStep(s: State, a: Action, l: LockId)
    requires Inv(s) && Enabled(s, a) && l < |s.heap| && Next(s, a).heap[l].locked
    ensures exists t :: Holds(Next(s, a), t, l)
  {
    var n := Next(s, a);
    assert LockOk(s, l) && TaskOk(s, a.task);
    if s.heap[l].locked {
      var t :| Holds(s, t, l);
      if t != a.task { OthersStep(s, a, t); }
      assert Holds(n, t, l);
    } else {
      assert Holds(n, a.task, l);
    }
  }

  lemma LockQueueStep(s: State, a: Action, l: LockId)
    requires Inv(s) && Enabled(s, a) && l < |s.heap|
    ensures var n := Next(s, a);
            WaitersOk(n, l)
  {
    var n, t := Next(s, a), a.task;
    assert LockOk(s, l) && TaskOk(s, t);
    var w := n.heap[l].waiters;
    if HasLock(At(s, t)) && At(s, t).lock == l {
      LockQueueOwn(s, a, l);
    } else {
      assert n.heap[l] == s.heap[l];
      forall i | 0 <= i < |w|
        ensures At(n, w[i]) == At(s, w[i])
      {
        if w[i] != t { OthersStep(s, a, w[i]); }
      }
    }
  }

  lemma LockQueueOwn(s: State, a: Action, l: LockId)
    requires Inv(s) && Enabled(s, a) && HasLock(At(s, a.task)) && At(s, a.task).lock == l < |s.heap|
    ensures WaitersOk(Next(s, a), l)
  {
    match a
    case Acquire(_) => QueueAfterAcquire(s, a, l);
    case Abort(_) => QueueAfterAbort(s, a, l);
    case Resume(_) => QueueAfterResume(s, a, l);
    case Leave(_) => assert LockOk(s, l) && TaskOk(s, a.task);
    case Cancel(_) => assert LockOk(s, l) && TaskOk(s, a.task);
  }

  lemma QueueAfterAcquire(s: State, a: Action, l: LockId)
    requires Inv(s) && Enabled(s, a) && a.Acquire? && At(s, a.task).lock == l < |s.heap|
    ensures WaitersOk(Next(s, a), l)
  {
    assert LockOk(s, l) && TaskOk(s, a.task);
  }

  lemma QueueAfterResume(s: State, a: Action, l: LockId)
    requires Inv(s) && Enabled(s, a) && a.Resume? && At(s, a.task).lock == l < |s.heap|
    ensures WaitersOk(Next(s, a), l)
  {
    assert LockOk(s, l);
    EntersUnlocked(s, a);
    RemoveContents(s.heap[l].waiters, a.task);
  }

  lemma QueueAfterAbort(s: State, a: Action, l: LockId)
    requires Inv(s) && Enabled(s, a) && a.Abort? && At(s, a.task).lock == l < |s.heap|
    ensures WaitersOk(Next(s, a), l)
  {
    assert LockOk(s, l) && TaskOk(s, a.task);
    var w, t := s.heap[l].waiters, a.task;
    var rest := Remove(w, t);
    RemoveContents(w, t);
    forall i | 0 <= i < |rest|
      ensures rest[i] != t && At(s, rest[i]).Queued? && At(s, rest[i]).lock == l
      ensures At(s, rest[i]).future.Woken? ==> rest[i] == w[0] && i == 0
    {
      assert rest[i] in rest;
      var j :| 0 <= j < |w| && w[j] == rest[i];
    }
  }
}
