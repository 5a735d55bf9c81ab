// What the session locks guarantee over whole runs: one task per session, no
// overtaking in a lock's queue, and termination of every call.
module LockTheorems {
  import opened Options
  import opened SessionLocks
  import opened LockProtocol

  // ----- Runs -----

  /** The state after a run; a step that is not enabled ends it. */
  function Final(s: State, run: seq<Action>): State
    decreases |run|
  {
    if run == [] || !Enabled(s, run[0]) then s else Final(Next(s, run[0]), run[1..])
  }

  /** No cleanup in the step evicts the entry of a task that can still enter. */
  ghost predicate SweepsNoUser(s: State, a: Action)
    requires Enabled(s, a)
  {
    a.Sweep? ==> forall t: Task :: CanEnter(At(s, t)) ==> At(s, t).session !in Gone(s, At(s, a.task).maxLocks)
  }

  /** Which clean-ups a run may have: any, or only those that evict no entry in use. */
  datatype Sweeps = AnySweeps | SafeSweeps

  ghost predicate IsRun(s: State, run: seq<Action>, sweeps: Sweeps)
    decreases |run|
  {
    run == [] || (Enabled(s, run[0]) && (sweeps.SafeSweeps? ==> SweepsNoUser(s, run[0]))
                  && IsRun(Next(s, run[0]), run[1..], sweeps))
  }

  lemma {:induction false} RunAppend(s: State, a: seq<Action>, b: seq<Action>, sweeps: Sweeps)
    requires IsRun(s, a, sweeps) && IsRun(Final(s, a), b, sweeps)
    ensures IsRun(s, a + b, sweeps) && Final(s, a + b) == Final(Final(s, a), b)
    decreases |a|
  {
    if a == [] {
      assert a + b == b;
    } else {
      assert (a + b)[1..] == a[1..] + b;
      RunAppend(Next(s, a[0]), a[1..], b, sweeps);
    }
  }

  // ----- Mutual exclusion -----

  /** Every task that can still enter holds the lock its session is listed with. */
  ghost predicate Coherent(s: State)
  {
    forall t: Task :: CanEnter(At(s, t)) ==>
      At(s, t).session in s.table && s.table[At(s, t).session] == At(s, t).lock
  }

  ghost predicate MutualExclusion(s: State)
  {
    forall t: Task, u: Task :: At(s, t).Inside? && At(s, u).Inside? && At(s, t).session == At(s, u).session ==> t == u
  }

  lemma CoherentStep(s: State, a: Action)
    requires Inv(s) && Coherent(s) && Enabled(s, a) && SweepsNoUser(s, a)
    ensures Coherent(Next(s, a))
  {
    var n := Next(s, a);
    forall t: Task | CanEnter(At(n, t))
      ensures At(n, t).session in n.table && n.table[At(n, t).session] == At(n, t).lock
    {
      if t != a.task { OthersStep(s, a, t); }
      if HasLock(At(s, t)) { assert CanEnter(At(s, t)); }
    }
  }

  lemma CoherentExcludes(s: State)
    requires Inv(s) && Coherent(s)
    ensures MutualExclusion(s)
  {
    forall t: Task, u: Task | At(s, t).Inside? && At(s, u).Inside? && At(s, t).session == At(s, u).session
      ensures t == u
    {
      assert CanEnter(At(s, t)) && CanEnter(At(s, u));
      assert Holds(s, t, At(s, t).lock) && Holds(s, u, At(s, t).lock);
    }
  }

  lemma {:induction false} GuardedKeeps(s: State, run: seq<Action>)
    requires Inv(s) && Coherent(s) && IsRun(s, run, SafeSweeps)
    ensures Inv(Final(s, run)) && Coherent(Final(s, run)) && MutualExclusion(Final(s, run))
    decreases |run|
  {
    if run == [] {
      CoherentExcludes(s);
    } else {
      InvStep(s, run[0]);
      CoherentStep(s, run[0]);
      GuardedKeeps(Next(s, run[0]), run[1..]);
    }
  }

  /** In every run whose cleanups evict no lock in use, no two tasks are inside `lock(s)` for one s. */
  lemma OneTaskPerSession(run: seq<Action>)
    requires IsRun(INIT, run, SafeSweeps)
    ensures MutualExclusion(Final(INIT, run))
  {
    InvInit();
    GuardedKeeps(INIT, run);
  }

  // ----- The guard is exact -----

  lemma {:induction false} UnusedTask(taken: set<Task>) returns (t: Task)
    ensures forall u :: u in taken ==> u < t
  {
    if taken == {} {
      t := 0;
    } else {
      var u :| u in taken;
      var v := UnusedTask(taken - {u});
      t := if u < v then v else u + 1;
      assert forall x :: x in taken ==> x == u || x in taken - {u};
    }
  }

  /** Once a free lock has lost its entry, its waiters still hand it on to one of its users. */
  lemma {:induction false} OrphanIsEntered(s: State, k: LockId, t: Task) returns (run: seq<Action>, u: Task)
    requires Inv(s) && s.holder.None? && k < |s.heap| && !s.heap[k].locked
    requires s.heap[k].session !in s.table
    requires CanEnter(At(s, t)) && At(s, t).lock == k
    ensures var f := Final(s, run);
            && IsRun(s, run, SafeSweeps) && Inv(f) && f.holder.None? && k < |f.heap|
            && f.heap[k].session == s.heap[k].session && f.table == s.table && f.pcs.Keys == s.pcs.Keys
            && Holds(f, u, k)
    decreases |s.heap[k].waiters|
  {
    var w := s.heap[k].waiters;
    assert LockOk(s, k) && TaskOk(s, t);
    if w == [] {
      var a := Acquire(t);
      InvStep(s, a);
      assert Final(Next(s, a), []) == Next(s, a);
      run, u := [a], t;
    } else {
      var front := w[0];
      assert TaskOk(s, front);
      if At(s, front).future.Woken? {
        var a := Resume(front);
        InvStep(s, a);
        assert Final(Next(s, a), []) == Next(s, a);
        run, u := [a], front;
      } else {
        var a := Abort(front);
        InvStep(s, a);
        OthersStep(s, a, t);
        RemoveContents(w, front);
        var rest, v := OrphanIsEntered(Next(s, a), k, t);
        run, u := [a] + rest, v;
        assert run[1..] == rest;
      }
    }
  }

  /** The lock of the session, if it is listed, is free and nobody waits for it. */
  predicate IsFree(s: State, x: SessionId)
  {
    x in s.table ==> s.table[x] < |s.heap| && s.heap[s.table[x]] == Lock(x, false, [])
  }

  /** `f` is `s` after the task alone has called for the session and got in. */
  predicate Entered(s: State, f: State, x: SessionId, t: Task)
  {
    && x in f.table && f.table[x] < |f.heap| && f.heap[f.table[x]] == Lock(x, true, [])
    && f.pcs == s.pcs[t := Inside(x, f.table[x])] && f.holder == None
    && (x in s.table ==> f.table == s.table)
  }

  /** A newcomer gets into a free lock with four steps of its own. */
  lemma FourSteps(s: State, x: SessionId, t: Task) returns (s1: State, s2: State, s3: State, f: State)
    requires Inv(s) && s.holder.None? && IsFree(s, x) && t !in s.pcs
    ensures Enabled(s, Call(t, x)) && s1 == Next(s, Call(t, x))
    ensures Enabled(s1, TakeTable(t)) && s2 == Next(s1, TakeTable(t))
    ensures Enabled(s2, Fetch(t)) && s3 == Next(s2, Fetch(t))
    ensures Enabled(s3, Acquire(t)) && f == Next(s3, Acquire(t))
    ensures Entered(s, f, x, t)
  {
    s1 := Next(s, Call(t, x));
    s2 := Next(s1, TakeTable(t));
    s3 := Next(s2, Fetch(t));
    f := Next(s3, Acquire(t));
  }

  lemma NewcomerEnters(s: State, x: SessionId, t: Task) returns (run: seq<Action>)
    requires Inv(s) && s.holder.None? && IsFree(s, x) && t !in s.pcs
    ensures IsRun(s, run, SafeSweeps) && Entered(s, Final(s, run), x, t)
    ensures run == [Call(t, x), TakeTable(t), Fetch(t), Acquire(t)]
  {
    var s1, s2, s3, f := FourSteps(s, x, t);
    var a, b, c, d := Call(t, x), TakeTable(t), Fetch(t), Acquire(t);
    run := [a, b, c, d];
    assert run[1..] == [b, c, d] && [b, c, d][1..] == [c, d] && [c, d][1..] == [d] && [d][1..] == [];
    assert Final(f, []) == f && Final(s3, [d]) == f && Final(s2, [c, d]) == f && Final(s1, [b, c, d]) == f;
    assert IsRun(f, [], SafeSweeps) && IsRun(s3, [d], SafeSweeps);
    assert IsRun(s2, [c, d], SafeSweeps) && IsRun(s1, [b, c, d], SafeSweeps);
  }

  lemma OrphanBreaksExclusion(s: State, k: LockId, t: Task) returns (run: seq<Action>)
    requires Inv(s) && s.holder.None? && k < |s.heap| && !s.heap[k].locked
    requires s.heap[k].session !in s.table
    requires CanEnter(At(s, t)) && At(s, t).lock == k
    ensures IsRun(s, run, SafeSweeps) && !MutualExclusion(Final(s, run))
  {
    var enter, u := OrphanIsEntered(s, k, t);
    var f := Final(s, enter);
    assert TaskOk(f, u);
    var v := UnusedTask(f.pcs.Keys);
    var second := NewcomerEnters(f, f.heap[k].session, v);
    RunAppend(s, enter, second, SafeSweeps);
    run := enter + second;
    assert At(Final(s, run), u).Inside? && At(Final(s, run), v).Inside? && u != v;
  }

  /** A cleanup keeps the locks sound exactly when it evicts no entry of a task that can still
      enter: otherwise some later run, without another such cleanup, has two tasks in one session. */
  lemma SweepIsSafeIff(s: State, a: Action)
    requires Inv(s) && Coherent(s) && Enabled(s, a) && a.Sweep?
    ensures SweepsNoUser(s, a) <==>
            forall run :: IsRun(Next(s, a), run, SafeSweeps) ==> MutualExclusion(Final(Next(s, a), run))
  {
    var n := Next(s, a);
    InvStep(s, a);
    if SweepsNoUser(s, a) {
      CoherentStep(s, a);
      forall run | IsRun(n, run, SafeSweeps)
        ensures MutualExclusion(Final(n, run))
      {
        GuardedKeeps(n, run);
      }
    } else {
      var gone := Gone(s, At(s, a.task).maxLocks);
      var t: Task :| CanEnter(At(s, t)) && At(s, t).session in gone;
      var k := At(s, t).lock;
      assert TaskOk(s, t);
      EvictionCount(s.order, Busy(s), At(s, a.task).maxLocks);
      assert At(s, t).session in Evicted(s.order, Busy(s), At(s, a.task).maxLocks);
      var run := OrphanBreaksExclusion(n, k, t);
      assert IsRun(n, run, SafeSweeps) && !MutualExclusion(Final(n, run));
    }
  }

  // ----- A free lock is entered -----

  /** What makes the run useful to others: nobody leaves a lock, no `busy` task starts a call, and the
      task that gets in was waiting or is not `busy`. */
  ghost predicate Enters(s: State, k: LockId, busy: set<Task>, run: seq<Action>, u: Task)
    requires k < |s.heap|
  {
    var f := Final(s, run);
    && IsRun(s, run, SafeSweeps) && Holds(f, u, k) && At(f, u).session == s.heap[k].session
    && (forall a :: a in run ==> !a.Leave? && (a.Call? ==> a.task !in busy))
    && (exists a :: a in run && a.task == u)
    && (At(s, u).Queued? || u !in busy)
  }

  lemma EntersCons(s: State, k: LockId, busy: set<Task>, a: Action, rest: seq<Action>, u: Task)
    requires Enabled(s, a) && SweepsNoUser(s, a) && !a.Leave? && !a.Call?
    requires k < |s.heap| && k < |Next(s, a).heap| && Next(s, a).heap[k].session == s.heap[k].session
    requires Enters(Next(s, a), k, busy, rest, u)
    requires At(Next(s, a), u).Queued? ==> At(s, u).Queued?
    ensures Enters(s, k, busy, [a] + rest, u)
  {
    var run := [a] + rest;
    assert run[1..] == rest;
    var b :| b in rest && b.task == u;
    assert b in run;
  }

  /** A newcomer gets into a free, listed lock that nobody waits for. */
  lemma ListedNewcomerEnters(s: State, k: LockId, busy: set<Task>) returns (run: seq<Action>, u: Task)
    requires Inv(s) && k < |s.heap| && !s.heap[k].locked && s.heap[k].waiters == [] && s.holder.None?
    requires s.heap[k].session in s.table && s.table[s.heap[k].session] == k
    ensures Enters(s, k, busy, run, u)
  {
    u := UnusedTask(s.pcs.Keys + busy);
    assert u !in s.pcs.Keys + busy;
    run := NewcomerEnters(s, s.heap[k].session, u);
    assert run[0] in run && run[0].task == u;
  }

  /** Some task gets into a free, listed lock while no clean-up holds the table. */
  lemma {:induction false} FreeLockIsEntered(s: State, k: LockId, busy: set<Task>) returns (run: seq<Action>, u: Task)
    requires Inv(s) && k < |s.heap| && !s.heap[k].locked
    requires s.heap[k].session in s.table && s.table[s.heap[k].session] == k
    requires s.holder.Some? ==> At(s, s.holder.value).HoldsTable?
    ensures Enters(s, k, busy, run, u)
    decreases |s.heap[k].waiters|, if s.holder.Some? then 1 else 0
  {
    var w := s.heap[k].waiters;
    assert LockOk(s, k);
    if s.holder.Some? {
      var a := Fetch(s.holder.value);
      InvStep(s, a);
      assert s.holder.value !in w;
      run, u := FreeLockIsEntered(Next(s, a), k, busy);
      EntersCons(s, k, busy, a, run, u);
      run := [a] + run;
    } else if w == [] {
      run, u := ListedNewcomerEnters(s, k, busy);
    } else if At(s, w[0]).future.Woken? {
      assert TaskOk(s, w[0]);
      run, u := [Resume(w[0])], w[0];
      assert run[1..] == [] && Final(Next(s, run[0]), []) == Next(s, run[0]) && IsRun(Next(s, run[0]), [], SafeSweeps);
      assert run[0] in run;
    } else {
      var a := Abort(w[0]);
      InvStep(s, a);
      RemoveContents(w, w[0]);
      run, u := FreeLockIsEntered(Next(s, a), k, busy);
      if u != w[0] { OthersStep(s, a, u); }
      EntersCons(s, k, busy, a, run, u);
      run := [a] + run;
    }
  }

  // ----- The queue of a lock -----

  function Ahead(w: seq<Task>, t: Task): seq<Task>
  {
    if w == [] || w[0] == t then [] else [w[0]] + Ahead(w[1..], t)
  }

  lemma {:induction false} AheadOfRemove(w: seq<Task>, t: Task, u: Task)
    requires Distinct(w) && t != u
    ensures Ahead(Remove(w, u), t) == Remove(Ahead(w, t), u)
  {
    if w != [] {
      assert w == [w[0]] + w[1..];
      if w[0] == u {
        assert u !in w[1..];
      } else if w[0] != t {
        AheadOfRemove(w[1..], t, u);
        assert Remove(w, u)[1..] == Remove(w[1..], u);
        assert Ahead(w, t)[1..] == Ahead(w[1..], t);
      }
    }
  }

  lemma {:induction false} AheadOfAppend(w: seq<Task>, t: Task, u: Task)
    requires t in w
    ensures Ahead(w + [u], t) == Ahead(w, t)
  {
    if w[0] != t {
      assert t in w[1..];
      assert (w + [u])[1..] == w[1..] + [u];
      AheadOfAppend(w[1..], t, u);
    }
  }

  lemma {:induction false} NobodyAhead(w: seq<Task>, t: Task)
    requires t in w
    ensures Ahead(w, t) == [] <==> w[0] == t
    ensures w[0] != t ==> Ahead(w, t)[0] == w[0]
  {
  }

  lemma {:induction false} RemoveAbsent(w: seq<Task>, t: Task)
    requires t !in w
    ensures Remove(w, t) == w
  {
    if w != [] { RemoveAbsent(w[1..], t); }
  }

  lemma {:induction false} AheadMembers(w: seq<Task>, t: Task)
    ensures forall u :: u in Ahead(w, t) ==> u in w
  {
    if w != [] && w[0] != t {
      AheadMembers(w[1..], t);
      assert w == [w[0]] + w[1..];
    }
  }

  /** While a live task waits, a task ahead of it goes only by its own step, nobody is put
      ahead of it, and whoever takes the lock meanwhile was the first ahead of it. */
  lemma NoOvertaking(s: State, a: Action, t: Task)
    requires Inv(s) && Enabled(s, a) && t != a.task
    requires At(s, t).Queued? && !At(s, t).future.Cancelled?
    ensures var l := At(s, t).lock;
            var n := Next(s, a);
            && l < |s.heap| && l < |n.heap|
            && At(n, t).Queued? && At(n, t).lock == l
            && Ahead(n.heap[l].waiters, t)
               == (if a.Cancel? then Ahead(s.heap[l].waiters, t) else Remove(Ahead(s.heap[l].waiters, t), a.task))
            && (Holds(n, a.task, l) && !Holds(s, a.task, l) ==>
                  Ahead(s.heap[l].waiters, t) != [] && Ahead(s.heap[l].waiters, t)[0] == a.task)
  {
    var l := At(s, t).lock;
    assert TaskOk(s, t) && TaskOk(s, a.task) && LockOk(s, l);
    OthersStep(s, a, t);
    AheadStep(s, a, t);
    if Holds(Next(s, a), a.task, l) && !Holds(s, a.task, l) { EntererWasFirst(s, a, t); }
  }

  /** A waiter can be cancelled before it is woken and after. When it then gives up, the others keep their
      order, and the first of them is not left asleep at a free lock. */
  lemma GivingUpHandsOn(s: State, t: Task)
    requires Inv(s) && At(s, t).Queued?
    ensures Enabled(s, Cancel(t)) <==> At(s, t).future.Pending?
    ensures Enabled(s, Abort(t)) <==> !At(s, t).future.Pending?
    ensures Enabled(s, Abort(t)) ==>
      var n, l := Next(s, Abort(t)), At(s, t).lock;
      && l < |s.heap| && l < |n.heap| && At(n, t).Outside? && n.heap[l].locked == s.heap[l].locked
      && (forall u :: u in n.heap[l].waiters <==> u in s.heap[l].waiters && u != t)
      && (forall u :: u in n.heap[l].waiters ==>
            Ahead(n.heap[l].waiters, u) == Remove(Ahead(s.heap[l].waiters, u), t))
      && (n.heap[l].waiters != [] ==>
            var first := At(n, n.heap[l].waiters[0]);
            first.Queued? && (first.future.Pending? ==> n.heap[l].locked))
  {
    assert TaskOk(s, t);
    if Enabled(s, Abort(t)) {
      var l := At(s, t).lock;
      assert LockOk(s, l);
      InvStep(s, Abort(t));
      assert LockOk(Next(s, Abort(t)), l);
      RemoveContents(s.heap[l].waiters, t);
      forall u | u in s.heap[l].waiters && u != t
        ensures Ahead(Remove(s.heap[l].waiters, t), u) == Remove(Ahead(s.heap[l].waiters, u), t)
      {
        AheadOfRemove(s.heap[l].waiters, u, t);
      }
    }
  }

  /** A task that takes a lock another live task waits for was the first ahead of it. */
  lemma EntererWasFirst(s: State, a: Action, t: Task)
    requires Inv(s) && Enabled(s, a) && t != a.task
    requires At(s, t).Queued? && !At(s, t).future.Cancelled?
    requires var l := At(s, t).lock; Holds(Next(s, a), a.task, l) && !Holds(s, a.task, l)
    ensures var l := At(s, t).lock;
            l < |s.heap| && Ahead(s.heap[l].waiters, t) != [] && Ahead(s.heap[l].waiters, t)[0] == a.task
  {
    var l := At(s, t).lock;
    assert TaskOk(s, t) && TaskOk(s, a.task);
    NobodyAhead(s.heap[l].waiters, t);
    var i :| 0 <= i < |s.heap[l].waiters| && s.heap[l].waiters[i] == t;
    assert !IsCancelled(At(s, s.heap[l].waiters[i]));
    if a.Resume? { EntersUnlocked(s, a); }
  }

  lemma WaitersWait(s: State, l: LockId, u: Task)
    requires Inv(s) && l < |s.heap|
    ensures u in s.heap[l].waiters ==> At(s, u).Queued? && At(s, u).lock == l
  {
    assert LockOk(s, l);
  }

  /** What a step does to the tasks ahead of a waiting one: its own task is no longer among them. */
  lemma AheadStep(s: State, a: Action, t: Task)
    requires Inv(s) && Enabled(s, a) && t != a.task
    requires At(s, t).Queued? && !At(s, t).future.Cancelled?
    ensures var l, n := At(s, t).lock, Next(s, a);
            && l < |s.heap| && l < |n.heap|
            && Ahead(n.heap[l].waiters, t)
               == (if a.Cancel? then Ahead(s.heap[l].waiters, t) else Remove(Ahead(s.heap[l].waiters, t), a.task))
  {
    var l := At(s, t).lock;
    assert TaskOk(s, t) && TaskOk(s, a.task) && LockOk(s, l);
    var w := s.heap[l].waiters;
    AheadMembers(w, t);
    if (a.Resume? || a.Abort?) && At(s, a.task).lock == l {
      AheadOfRemove(w, t, a.task);
    } else if !a.Cancel? {
      WaitersWait(s, l, a.task);
      RemoveAbsent(Ahead(w, t), a.task);
      if a.Acquire? && At(s, a.task).lock == l { AheadOfAppend(w, t, a.task); }
    }
  }

  // ----- Progress -----

  predicate StartsCall(a: Action)
  {
    a.Call? || a.CallSweep?
  }

  /** The tasks `t` can be waiting for: itself, the holder of the global lock, the task inside
      its session lock, or the first waiter of that lock. */
  ghost predicate Unblocks(s: State, u: Task, t: Task)
  {
    var pc := At(s, t);
    || u == t
    || ((pc.WantsTable? || pc.WantsSweep?) && s.holder == Some(u))
    || (pc.Queued? && pc.lock < |s.heap| &&
          (Holds(s, u, pc.lock) || (s.heap[pc.lock].waiters != [] && s.heap[pc.lock].waiters[0] == u)))
  }

  /** No task waits in vain: one of the tasks it waits for can go on by itself. */
  lemma SomeoneCanGoOn(s: State, t: Task) returns (a: Action)
    requires Inv(s) && !At(s, t).Outside?
    ensures Enabled(s, a) && !StartsCall(a) && !a.Cancel? && Unblocks(s, a.task, t)
  {
    assert TaskOk(s, t);
    match At(s, t)
    case WantsTable(_) => a := TableStepOf(s, t);
    case WantsSweep(_) => a := TableStepOf(s, t);
    case HoldsTable(_) => a := Fetch(t);
    case HoldsSweep(_) => a := Sweep(t);
    case Fetched(_, _) => a := Acquire(t);
    case Inside(_, _) => a := Leave(t);
    case Queued(_, l, _) =>
      assert LockOk(s, l);
      if s.heap[l].locked {
        var u :| Holds(s, u, l);
        a := Leave(u);
      } else {
        var u := s.heap[l].waiters[0];
        a := if At(s, u).future.Woken? then Resume(u) else Abort(u);
      }
  }

  lemma TableStepOf(s: State, t: Task) returns (a: Action)
    requires Inv(s) && (At(s, t).WantsTable? || At(s, t).WantsSweep?)
    ensures Enabled(s, a) && !StartsCall(a) && !a.Cancel? && Unblocks(s, a.task, t)
  {
    if s.holder.None? {
      a := TakeTable(t);
    } else {
      var u := s.holder.value;
      assert TaskOk(s, u);
      a := if At(s, u).HoldsTable? then Fetch(u) else Sweep(u);
    }
  }

  /** How many steps a task still has before it. */
  function StepsLeft(pc: Pc): nat
  {
    match pc
    case Outside => 0
    case Inside(_, _) => 1
    case Queued(_, _, f) => if f.Pending? then 3 else 2
    case Fetched(_, _) => 4
    case HoldsTable(_) => 5
    case WantsTable(_) => 6
    case HoldsSweep(_) => 1
    case WantsSweep(_) => 2
  }

  /** The steps left of the tasks numbered below `n`. */
  function TotalLeft(s: State, n: nat): nat
  {
    if n == 0 then 0 else TotalLeft(s, n - 1) + StepsLeft(At(s, n - 1))
  }

  lemma StepsLeftFall(s: State, a: Action, t: Task)
    requires Inv(s) && Enabled(s, a) && !StartsCall(a)
    ensures StepsLeft(At(Next(s, a), t)) <= StepsLeft(At(s, t)) - (if t == a.task then 1 else 0)
  {
    if t != a.task { OthersStep(s, a, t); }
  }

  lemma {:induction false} TotalLeftFalls(s: State, a: Action, n: nat)
    requires Inv(s) && Enabled(s, a) && !StartsCall(a)
    ensures TotalLeft(Next(s, a), n) <= TotalLeft(s, n) - (if a.task < n then 1 else 0)
  {
    if n > 0 {
      TotalLeftFalls(s, a, n - 1);
      StepsLeftFall(s, a, n - 1);
    }
  }

  /** A run in which no new call starts. */
  ghost predicate QuietRun(s: State, run: seq<Action>)
    decreases |run|
  {
    run == [] || (Enabled(s, run[0]) && !StartsCall(run[0]) && QuietRun(Next(s, run[0]), run[1..]))
  }

  ghost predicate TasksBelow(s: State, n: nat)
  {
    forall t: Task :: !At(s, t).Outside? ==> t < n
  }

  lemma {:induction false} QuietRunIsBounded(s: State, run: seq<Action>, n: nat)
    requires Inv(s) && QuietRun(s, run) && TasksBelow(s, n)
    ensures Inv(Final(s, run)) && TasksBelow(Final(s, run), n)
    ensures |run| + TotalLeft(Final(s, run), n) <= TotalLeft(s, n)
    decreases |run|
  {
    if run != [] {
      var a := run[0];
      InvStep(s, a);
      TotalLeftFalls(s, a, n);
      forall t: Task | !At(Next(s, a), t).Outside?
        ensures t < n
      {
        if t != a.task { OthersStep(s, a, t); }
      }
      QuietRunIsBounded(Next(s, a), run[1..], n);
    }
  }

  /** However tasks are scheduled, once no new call starts the calls under way end: a run has
      at most as many steps as the calls have left, and it can stop only with every task outside. */
  lemma CallsFinish(s: State, run: seq<Action>, n: nat)
    requires Inv(s) && TasksBelow(s, n) && QuietRun(s, run)
    requires forall a :: Enabled(Final(s, run), a) ==> StartsCall(a) || a.Cancel?
    ensures |run| <= TotalLeft(s, n)
    ensures forall t: Task :: At(Final(s, run), t).Outside?
  {
    QuietRunIsBounded(s, run, n);
    var f := Final(s, run);
    forall t: Task
      ensures At(f, t).Outside?
    {
      if !At(f, t).Outside? {
        var a := SomeoneCanGoOn(f, t);
        assert false;
      }
    }
  }

  // ----- The unguarded cleanup -----

  const X: SessionId := "session-1"

  lemma Advance(s: State, run: seq<Action>, a: Action)
    requires IsRun(s, run, AnySweeps) && Enabled(Final(s, run), a)
    ensures IsRun(s, run + [a], AnySweeps) && Final(s, run + [a]) == Next(Final(s, run), a)
  {
    var m := Final(s, run);
    assert [a][1..] == [];
    assert Final(m, [a]) == Final(Next(m, a), []) && IsRun(m, [a], AnySweeps);
    RunAppend(s, run, [a], AnySweeps);
  }

  /** Task 0 leaves the session while task 1 waits for it, task 2 cleans up before task 1 runs
      again, and task 3 comes: tasks 1 and 3 are inside the same session. */
  lemma CleanupBreaksExclusion() returns (run: seq<Action>)
    ensures IsRun(INIT, run, AnySweeps) && !MutualExclusion(Final(INIT, run))
  {
    var handover := WokenWaiter();
    var s := Final(INIT, handover);
    var r1 := handover + [CallSweep(2, 0)];
    Advance(INIT, handover, CallSweep(2, 0));
    var r2 := r1 + [TakeTable(2)];
    Advance(INIT, r1, TakeTable(2));
    var t := Final(INIT, r2);
    assert Except([X], {}) == [X] + Except([], {}) by { assert [X][1..] == []; }
    assert Busy(t) == {} && X in Gone(t, 0) by { assert Take([X], 1) == [X]; }
    var r3 := r2 + [Sweep(2)];
    Advance(INIT, r2, Sweep(2));
    var orphan := Final(INIT, r3);
    InvInit();
    RunKeepsInv(INIT, r3);
    assert CanEnter(At(orphan, 1)) && At(orphan, 1).lock == 0;
    var rest := OrphanBreaksExclusion(orphan, 0, 1);
    SafeIsRun(orphan, rest);
    RunAppend(INIT, r3, rest, AnySweeps);
    run := r3 + rest;
  }

  lemma {:induction false} RunKeepsInv(s: State, run: seq<Action>)
    requires Inv(s) && IsRun(s, run, AnySweeps)
    ensures Inv(Final(s, run))
    decreases |run|
  {
    if run != [] {
      InvStep(s, run[0]);
      RunKeepsInv(Next(s, run[0]), run[1..]);
    }
  }

  lemma {:induction false} SafeIsRun(s: State, run: seq<Action>)
    requires IsRun(s, run, SafeSweeps)
    ensures IsRun(s, run, AnySweeps)
    decreases |run|
  {
    if run != [] { SafeIsRun(Next(s, run[0]), run[1..]); }
  }

  /** The state with task 0 inside session X and `others` elsewhere. */
  function FirstInside(task1: Pc, waiters: seq<Task>): State
  {
    State(map[0 := Inside(X, 0), 1 := task1], None, [X], map[X := 0], [Lock(X, true, waiters)])
  }

  lemma FirstEnters() returns (run: seq<Action>)
    ensures IsRun(INIT, run, AnySweeps)
    ensures Final(INIT, run) == FirstInside(WantsTable(X), [])
  {
    var s1 := State(map[0 := WantsTable(X)], None, [], map[], []);
    var s2 := State(map[0 := HoldsTable(X)], Some(0), [], map[], []);
    var s3 := State(map[0 := Fetched(X, 0)], None, [X], map[X := 0], [Lock(X, false, [])]);
    var s4 := State(map[0 := Inside(X, 0)], None, [X], map[X := 0], [Lock(X, true, [])]);
    run := Extend(INIT, [], Call(0, X), s1);
    run := Extend(INIT, run, TakeTable(0), s2);
    run := Extend(INIT, run, Fetch(0), s3);
    run := Extend(INIT, run, Acquire(0), s4);
    run := Extend(INIT, run, Call(1, X), FirstInside(WantsTable(X), []));
  }

  lemma Extend(s: State, run: seq<Action>, a: Action, goal: State) returns (longer: seq<Action>)
    requires IsRun(s, run, AnySweeps) && Enabled(Final(s, run), a) && Next(Final(s, run), a) == goal
    ensures longer == run + [a] && IsRun(s, longer, AnySweeps) && Final(s, longer) == goal
  {
    Advance(s, run, a);
    longer := run + [a];
  }

  lemma WaitingBehind() returns (run: seq<Action>)
    ensures IsRun(INIT, run, AnySweeps)
    ensures Final(INIT, run) == FirstInside(Queued(X, 0, Pending), [1])
  {
    run := FirstEnters();
    run := Extend(INIT, run, TakeTable(1), FirstInside(HoldsTable(X), []).(holder := Some(1)));
    run := Extend(INIT, run, Fetch(1), FirstInside(Fetched(X, 0), []));
    var nobody: seq<Task> := [];
    assert nobody + [1] == [1];
    run := Extend(INIT, run, Acquire(1), FirstInside(Queued(X, 0, Pending), [1]));
  }

  lemma WokenWaiter() returns (run: seq<Action>)
    ensures IsRun(INIT, run, AnySweeps)
    ensures Final(INIT, run)
            == State(map[0 := Outside, 1 := Queued(X, 0, Woken)], None, [X], map[X := 0], [Lock(X, false, [1])])
  {
    run := WaitingBehind();
    run := Extend(INIT, run, Leave(0),
                  State(map[0 := Outside, 1 := Queued(X, 0, Woken)], None, [X], map[X := 0], [Lock(X, false, [1])]));
  }
}
