// The per-session lock manager: the lock table, and the eviction of unlocked
// entries from it. How tasks wait for a lock is the subject of LockProtocol.
module SessionLocks {
  type SessionId = string

  /** The sessions of `order` that are not in `out`, in the same order. */
  function Except(order: seq<SessionId>, out: set<SessionId>): seq<SessionId>
  {
    if order == [] then []
    else if order[0] in out then Except(order[1..], out)
    else [order[0]] + Except(order[1..], out)
  }

  function Take<T>(s: seq<T>, n: int): seq<T>
  {
    if n <= 0 then [] else if n < |s| then s[..n] else s
  }

  /** The entries a cleanup deletes, oldest first. */
  function Evicted(order: seq<SessionId>, busy: set<SessionId>, maxLocks: int): seq<SessionId>
  {
    if |order| <= maxLocks then [] else Take(Except(order, busy), |order| - maxLocks)
  }

  /** The number a cleanup returns. */
  function Reported(order: seq<SessionId>, maxLocks: int): int
  {
    if |order| <= maxLocks then 0 else |order| - maxLocks
  }

  function Elements<T>(s: seq<T>): set<T>
  {
    set x | x in s
  }

  predicate Distinct<T(==)>(s: seq<T>)
  {
    forall i, j :: 0 <= i < j < |s| ==> s[i] != s[j]
  }

  lemma {:induction false} ExceptContents(order: seq<SessionId>, busy: set<SessionId>)
    ensures forall x :: x in Except(order, busy) <==> x in order && x !in busy
    ensures Distinct(order) ==> Distinct(Except(order, busy))
    ensures |Except(order, busy)| <= |order|
  {
    if order != [] {
      ExceptContents(order[1..], busy);
      assert order == [order[0]] + order[1..];
      var rest := Except(order[1..], busy);
      if order[0] !in busy {
        assert Except(order, busy) == [order[0]] + rest;
        if Distinct(order) {
          assert order[0] !in order[1..];
        }
      }
    }
  }

  lemma {:induction false} ExceptAppend(a: seq<SessionId>, b: seq<SessionId>, busy: set<SessionId>)
    ensures Except(a + b, busy) == Except(a, busy) + Except(b, busy)
  {
    if a == [] {
      assert a + b == b;
    } else {
      assert (a + b)[1..] == a[1..] + b;
      ExceptAppend(a[1..], b, busy);
    }
  }

  /** Removing `gone`, all of them listed, shortens a duplicate-free list by their number. */
  lemma {:induction false} ExceptSize(order: seq<SessionId>, gone: set<SessionId>)
    requires Distinct(order) && forall x :: x in gone ==> x in order
    ensures |Except(order, gone)| == |order| - |gone|
  {
    if order == [] {
      assert gone == {};
    } else {
      var head, rest := order[0], order[1..];
      assert order == [head] + rest;
      assert head !in rest;
      ExceptSize(rest, gone - {head});
      ExceptSame(rest, gone - {head}, gone);
    }
  }

  lemma {:induction false} ExceptSame(order: seq<SessionId>, a: set<SessionId>, b: set<SessionId>)
    requires forall x :: x in order ==> (x in a <==> x in b)
    ensures Except(order, a) == Except(order, b)
  {
    if order != [] {
      assert order[0] in order;
      ExceptSame(order[1..], a, b);
    }
  }

  /** A duplicate-free list has as many elements as its set. */
  lemma {:induction false} DistinctSize<T>(s: seq<T>)
    requires Distinct(s)
    ensures |Elements(s)| == |s|
  {
    if s == [] {
      assert Elements(s) == {};
    } else {
      var rest := s[1..];
      DistinctSize(rest);
      assert s == [s[0]] + rest;
      assert Elements(s) == {s[0]} + Elements(rest);
    }
  }

  /** A cleanup deletes exactly min(excess, unlocked) entries, none of them locked, and leaves
      the others in their order; what it returns is that number exactly when the
      table is within the limit or has enough unlocked entries. */
  lemma EvictionCount(order: seq<SessionId>, busy: set<SessionId>, maxLocks: int)
    requires Distinct(order)
    ensures var gone := Evicted(order, busy, maxLocks);
            var excess := |order| - maxLocks;
            && (forall x :: x in gone ==> x in order && x !in busy)
            && |gone| == (if excess <= 0 then 0
                          else if excess < |Except(order, busy)| then excess else |Except(order, busy)|)
            && |Except(order, Elements(gone))| == |order| - |gone|
            && (Reported(order, maxLocks) == |gone| <==> excess <= 0 || excess <= |Except(order, busy)|)
  {
    ExceptContents(order, busy);
    var gone := Evicted(order, busy, maxLocks);
    DistinctSize(gone);
    ExceptSize(order, Elements(gone));
  }

  /** The oldest go first: an unlocked entry stays only if all unlocked ones that go are older. */
  lemma OldestAreEvicted(order: seq<SessionId>, busy: set<SessionId>, maxLocks: int, i: nat, j: nat)
    requires Distinct(order) && i < j < |order| && order[i] !in busy
    requires order[j] in Evicted(order, busy, maxLocks)
    ensures order[i] in Evicted(order, busy, maxLocks)
  {
    var idle, gone := Except(order, busy), Evicted(order, busy, maxLocks);
    ExceptContents(order, busy);
    var k :| 0 <= k < |gone| && gone[k] == order[j];
    assert idle[k] == order[j];
    var a, b := ExceptKeepsOrder(order, busy, i, j);
    assert idle[k] == idle[b] && gone[a] == idle[a];
  }

  /** Where two of the remaining sessions stand, in their old order. */
  lemma {:induction false} ExceptKeepsOrder(order: seq<SessionId>, out: set<SessionId>, i: nat, j: nat)
    returns (a: nat, b: nat)
    requires i < j < |order| && order[i] !in out && order[j] !in out
    ensures a < b < |Except(order, out)| && Except(order, out)[a] == order[i] && Except(order, out)[b] == order[j]
  {
    var head, rest := order[0], order[1..];
    if i > 0 {
      a, b := ExceptKeepsOrder(rest, out, i - 1, j - 1);
      if head !in out { a, b := a + 1, b + 1; }
    } else {
      b := Place(rest, out, j - 1);
      a, b := 0, b + 1;
    }
  }

  lemma {:induction false} Place(order: seq<SessionId>, out: set<SessionId>, j: nat) returns (b: nat)
    requires j < |order| && order[j] !in out
    ensures b < |Except(order, out)| && Except(order, out)[b] == order[j]
  {
    if j == 0 {
      b := 0;
    } else {
      b := Place(order[1..], out, j - 1);
      if order[0] !in out { b := b + 1; }
    }
  }

  /** One locked entry and no room: nothing is deleted, and a deletion is reported. */
  lemma OneEvictionTooMany()
    ensures Evicted(["a"], {"a"}, 0) == [] && Reported(["a"], 0) == 1
  {
    assert Except(["a"], {"a"}) == [];
  }

  /** The part of a lock the table looks at: whether it is taken. */
  class AsyncLock {
    var locked: bool

    constructor ()
      ensures !locked
    {
      locked := false;
    }
  }

  class SessionLockManager {
    var order: seq<SessionId>              // the keys of `_locks`, oldest first
    var locks: map<SessionId, AsyncLock>

    ghost predicate Valid()
      reads this
    {
      && Distinct(order)
      && (forall s :: s in order <==> s in locks)
      && (forall s, t :: s in locks && t in locks && s != t ==> locks[s] != locks[t])
    }

    ghost function Busy(): set<SessionId>
      reads this, locks.Values
    {
      set s | s in locks && locks[s].locked
    }

    constructor ()
      ensures Valid() && order == []
    {
      order, locks := [], map[];
    }

    /** The part of `lock` inside the global lock: the session's entry, made when missing. */
    method Fetch(session: SessionId) returns (lock: AsyncLock)
      requires Valid()
      modifies this
      ensures Valid()
      ensures session in locks && lock == locks[session]
      ensures session in old(locks) ==> order == old(order) && locks == old(locks)
      ensures session !in old(locks) ==>
        order == old(order) + [session] && locks == old(locks)[session := lock] && fresh(lock) && !lock.locked
    {
      if session !in locks {
        var made := new AsyncLock();
        locks := locks[session := made];
        order := order + [session];
      }
      lock := locks[session];
    }

    method CleanupUnusedLocks(maxLocks: int) returns (reported: int)
      requires Valid()
      modifies this
      ensures Valid()
      ensures reported == if |old(order)| <= maxLocks then 0 else |old(order)| - maxLocks
      ensures forall s :: s in old(locks) && old(locks[s].locked) ==> s in locks && locks[s] == old(locks[s])
      ensures var gone := Elements(Evicted(old(order), old(Busy()), maxLocks));
              order == Except(old(order), gone) && locks == old(locks) - gone
    {
      if |order| <= maxLocks {
        ExceptNothing(order);
        assert Elements<SessionId>([]) == {};
        return 0;
      }
      var unused := CollectUnused();
      ExceptContents(order, Busy());
      var toRemove := |order| - maxLocks;
      DeleteAll(Take(unused, toRemove));
      return toRemove;
    }

    method CollectUnused() returns (unused: seq<SessionId>)
      requires Valid()
      ensures unused == Except(order, Busy())
    {
      unused := [];
      ghost var busy := Busy();
      for i := 0 to |order|
        invariant unused == Except(order[..i], busy)
      {
        var s := order[i];
        assert order[..i + 1] == order[..i] + [s];
        ExceptAppend(order[..i], [s], busy);
        if !locks[s].locked {
          unused := unused + [s];
        }
      }
      assert order[..|order|] == order;
    }

    method DeleteAll(victims: seq<SessionId>)
      requires Valid()
      modifies this
      ensures Valid()
      ensures order == Except(old(order), Elements(victims)) && locks == old(locks) - Elements(victims)
    {
      ExceptNothing(order);
      assert Elements(victims[..0]) == {};
      for i := 0 to |victims|
        invariant order == Except(old(order), Elements(victims[..i]))
        invariant locks == old(locks) - Elements(victims[..i])
      {
        var s := victims[i];
        assert Elements(victims[..i + 1]) == Elements(victims[..i]) + {s};
        ExceptTwice(old(order), Elements(victims[..i]), s);
        locks := locks - {s};
        order := Except(order, {s});
      }
      assert victims[..|victims|] == victims;
      ExceptContents(old(order), Elements(victims));
    }

    method IsLocked(session: SessionId) returns (r: bool)
      requires Valid()
      ensures r <==> session in locks && locks[session].locked
    {
      r := session in locks && locks[session].locked;
    }
  }

  lemma {:induction false} ExceptNothing(order: seq<SessionId>)
    ensures Except(order, {}) == order
  {
    if order != [] {
      ExceptNothing(order[1..]);
    }
  }

  lemma {:induction false} ExceptTwice(order: seq<SessionId>, gone: set<SessionId>, s: SessionId)
    ensures Except(Except(order, gone), {s}) == Except(order, gone + {s})
  {
    if order != [] {
      ExceptTwice(order[1..], gone, s);
      if order[0] !in gone {
        assert Except(order, gone)[1..] == Except(order[1..], gone);
      }
    }
  }
}
