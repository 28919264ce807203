/** The named-lock table of `backend/app/concurrency.py` as an event-loop step system.

    Each `acquire` call has an id; the task that runs its inner `lock.acquire()`
    carries the same id.  A step is the code between two awaits, or the arrival
    of a cancellation.  Ready steps may run in any order, which includes the
    order in which an event loop would run them. */
module NamedLocks {
  import opened AsyncLock

  datatype Phase =
    | Waiting(cancelRequested: bool)   // suspended in `asyncio.wait`
    | Retracting                       // timed out; suspended on the cancelled inner task
    | Direct                           // no timeout: the caller itself runs `lock.acquire()`
    | Holding                          // acquired; the body of `LockManager.lock` runs

  datatype Call = Call(key: Key, lock: LockId, phase: Phase)

  /** `deferred` holds the inner tasks whose release-if-acquired callback has not run. */
  datatype State = State(
    locks: map<Key, LockId>, refs: map<Key, nat>,
    calls: map<Id, Call>, loop: Loop, deferred: set<Id>, nextLock: LockId)

  const EMPTY := State(map[], map[], map[], Loop(map[], map[]), {}, 0)

  datatype Event =
    | Start(a: Id, key: Key, timed: bool)  // `acquire` runs to its first suspension
    | RunInner(a: Id)                      // the inner task (or a direct caller) runs
    | Resume(a: Id)                        // `asyncio.wait` returns: timer fired or inner task done
    | RequestCancel(a: Id)                 // the caller's task is cancelled
    | CancelResume(a: Id)                  // the caller resumes with CancelledError
    | RetractResume(a: Id)                 // the timed-out caller resumes
    | Callback(a: Id)                      // the deferred done-callback runs
    | Release(a: Id)                       // the body ends

  predicate Finished(t: Stage) { t.Acquired? || t.Retracted? }

  predicate Enabled(s: State, e: Event) {
    match e
    case Start(a, _, _) => a !in s.loop.tasks && a !in s.calls
    case RunInner(a) => a in s.loop.tasks && Runnable(s.loop.tasks[a].stage)
    case Resume(a) => a in s.calls && s.calls[a].phase == Waiting(false)
    case RequestCancel(a) => a in s.calls
    case CancelResume(a) => a in s.calls && s.calls[a].phase == Waiting(true)
    case RetractResume(a) =>
      a in s.calls && s.calls[a].phase == Retracting && a in s.loop.tasks && Finished(s.loop.tasks[a].stage)
    case Callback(a) => a in s.deferred && a in s.loop.tasks && Finished(s.loop.tasks[a].stage)
    case Release(a) => a in s.calls && s.calls[a].phase == Holding
  }

  // ------------------------------------------------------------------ steps

  predicate Locked(s: State, l: LockId) { l in s.loop.objs && s.loop.objs[l].locked }

  function Decref(s: State, k: Key): State {
    var remaining: int := (if k in s.refs then s.refs[k] as int else 0) - 1;
    if remaining > 0 then
      s.(refs := s.refs[k := remaining])
    else
      var s1 := s.(refs := s.refs - {k});
      if k in s.locks && !Locked(s, s.locks[k]) then s1.(locks := s1.locks - {k}) else s1
  }

  /** The call ends with an exception or after its release: its reference is dropped. */
  function Drop(s: State, a: Id): State
    requires a in s.calls
  {
    Decref(s, s.calls[a].key).(calls := s.calls - {a})
  }

  function SetPhase(s: State, a: Id, phase: Phase): State
    requires a in s.calls
  {
    s.(calls := s.calls[a := s.calls[a].(phase := phase)])
  }

  /** Look the lock up or create it, count the reference, create the task. */
  function Enter(s: State, a: Id, k: Key, timed: bool): State {
    var s1 := if k in s.locks then s else
      s.(locks := s.locks[k := s.nextLock],
         loop := SetLock(s.loop, s.nextLock, Lock(k, false, [])), nextLock := s.nextLock + 1);
    var l := s1.locks[k];
    s1.(refs := s1.refs[k := (if k in s1.refs then s1.refs[k] else 0) + 1],
        calls := s1.calls[a := Call(k, l, if timed then Waiting(false) else Direct)],
        loop := s1.loop.(tasks := s1.loop.tasks[a := Task(l, Fresh(false))]))
  }

  /** A direct caller continues as soon as its own `lock.acquire()` ends. */
  function Settle(s: State, a: Id): State
    requires a in s.loop.tasks
  {
    if a in s.calls && s.calls[a].phase == Direct then
      match s.loop.tasks[a].stage
      case Acquired => SetPhase(s, a, Holding)
      case Retracted => Drop(s, a)
      case _ => s
    else s
  }

  function RunInnerStep(s: State, a: Id): State
    requires a in s.loop.tasks && s.loop.tasks[a].lock in s.loop.objs
  {
    Settle(s.(loop := RunTask(s.loop, a)), a)
  }

  function ReleaseOf(s: State, l: LockId): State
    requires l in s.loop.objs
  {
    s.(loop := ReleaseLock(s.loop, l))
  }

  function StartStep(s: State, a: Id, k: Key, timed: bool): State
    requires k in s.locks ==> s.locks[k] in s.loop.objs
  {
    var s1 := Enter(s, a, k, timed);
    if timed then s1 else RunInnerStep(s1, a)
  }

  function ResumeStep(s: State, a: Id): State
    requires a in s.calls && a in s.loop.tasks
  {
    match s.loop.tasks[a].stage
    case Acquired => SetPhase(s, a, Holding)
    case Retracted => Drop(s, a)
    case _ => SetPhase(s.(loop := CancelTask(s.loop, a)), a, Retracting)
  }

  function RequestCancelStep(s: State, a: Id): State
    requires a in s.calls && a in s.loop.tasks
  {
    match s.calls[a].phase
    case Waiting(_) => SetPhase(s, a, Waiting(true))
    case Direct => s.(loop := CancelTask(s.loop, a))
    case Retracting => s
    case Holding => s
  }

  function CancelResumeStep(s: State, a: Id): State
    requires a in s.calls && a in s.loop.tasks
  {
    Drop(s.(loop := CancelTask(s.loop, a)), a).(deferred := s.deferred + {a})
  }

  /** Releases the lock of `a` if its inner task acquired it. */
  function ReleaseIfAcquired(s: State, a: Id): State
    requires a in s.loop.tasks && s.loop.tasks[a].lock in s.loop.objs
  {
    if s.loop.tasks[a].stage == Acquired then ReleaseOf(s, s.loop.tasks[a].lock) else s
  }

  function RetractResumeStep(s: State, a: Id): State
    requires a in s.calls && a in s.loop.tasks && s.loop.tasks[a].lock in s.loop.objs
  {
    Drop(ReleaseIfAcquired(s, a), a)
  }

  function CallbackStep(s: State, a: Id): State
    requires a in s.loop.tasks && s.loop.tasks[a].lock in s.loop.objs
  {
    ReleaseIfAcquired(s, a).(deferred := s.deferred - {a})
  }

  function ReleaseStep(s: State, a: Id): State
    requires a in s.calls
  {
    var k := s.calls[a].key;
    Drop(if k in s.locks && Locked(s, s.locks[k]) then ReleaseOf(s, s.locks[k]) else s, a)
  }

  function Step(s: State, e: Event): State
    requires Inv(s) && Enabled(s, e)
  {
    match e
    case Start(a, k, timed) => StartStep(s, a, k, timed)
    case RunInner(a) => RunInnerStep(s, a)
    case Resume(a) => ResumeStep(s, a)
    case RequestCancel(a) => RequestCancelStep(s, a)
    case CancelResume(a) => CancelResumeStep(s, a)
    case RetractResume(a) => RetractResumeStep(s, a)
    case Callback(a) => CallbackStep(s, a)
    case Release(a) => ReleaseStep(s, a)
  }

  // ------------------------------------------------------------------ invariant

  ghost function Users(calls: map<Id, Call>, k: Key): set<Id> {
    set a | a in calls && calls[a].key == k
  }

  /** `refs[k]` counts the calls between their increment and their decrement. */
  ghost predicate RefsOk(s: State) {
    forall k :: && (k in s.refs <==> Users(s.calls, k) != {})
                && (k in s.refs ==> s.refs[k] == |Users(s.calls, k)|)
  }

  /** Every call refers to the lock that the table holds for its key. */
  ghost predicate TableOk(s: State) {
    && (forall a | a in s.calls ::
          && s.calls[a].key in s.locks && s.locks[s.calls[a].key] == s.calls[a].lock
          && a in s.loop.tasks && s.loop.tasks[a].lock == s.calls[a].lock)
    && (forall k | k in s.locks :: s.locks[k] in s.loop.objs && s.loop.objs[s.locks[k]].key == k)
    && (forall l | l in s.loop.objs :: l < s.nextLock)
  }

  ghost predicate PhaseOk(phase: Phase, t: Stage) {
    match phase
    case Waiting(_) => Live(t) || t == Acquired
    case Retracting => Doomed(t)
    case Direct => t != Acquired && t != Retracted
    case Holding => t == Acquired
  }

  ghost predicate TaskOk(s: State, a: Id)
    requires a in s.loop.tasks
  {
    if a in s.calls then PhaseOk(s.calls[a].phase, s.loop.tasks[a].stage)
    else Doomed(s.loop.tasks[a].stage) || s.loop.tasks[a].stage == Acquired
  }

  ghost predicate PhasesOk(s: State) {
    && s.deferred <= s.loop.tasks.Keys && s.deferred !! s.calls.Keys
    && forall a | a in s.loop.tasks :: TaskOk(s, a)
  }

  /** `a` has acquired its lock and someone still has to release it. */
  ghost predicate Owns(s: State, a: Id) {
    a in s.loop.tasks && s.loop.tasks[a].stage == Acquired && (a in s.calls || a in s.deferred)
  }

  ghost predicate OwnsLock(s: State, a: Id, l: LockId) {
    Owns(s, a) && s.loop.tasks[a].lock == l
  }

  ghost predicate InTable(s: State, l: LockId) {
    l in s.loop.objs && s.loop.objs[l].key in s.locks && s.locks[s.loop.objs[l].key] == l
  }

  /** A lock is locked exactly when one call or one pending callback owns it. */
  ghost predicate OwnersOk(s: State) {
    && (forall a | Owns(s, a) :: Locked(s, s.loop.tasks[a].lock))
    && (forall a, b, l | OwnsLock(s, a, l) && OwnsLock(s, b, l) :: a == b)
    && (forall l | Locked(s, l) :: exists a :: OwnsLock(s, a, l))
    && (forall a | a in s.deferred && Owns(s, a) :: InTable(s, s.loop.tasks[a].lock))
  }

  ghost predicate Inv(s: State) {
    LoopInv(s.loop) && TopInv(s)
  }

  ghost predicate TopInv(s: State) {
    RefsOk(s) && TableOk(s) && PhasesOk(s) && OwnersOk(s)
  }

  // ------------------------------------------------------------------ reference counts and table

  lemma UsersAdded(calls: map<Id, Call>, a: Id, call: Call, k: Key)
    requires a !in calls
    ensures Users(calls[a := call], k) == if call.key == k then Users(calls, k) + {a} else Users(calls, k)
  {
  }

  lemma UsersRemoved(calls: map<Id, Call>, a: Id, k: Key)
    requires a in calls
    ensures Users(calls - {a}, k) == Users(calls, k) - {a}
    ensures a in Users(calls, calls[a].key)
    ensures k != calls[a].key ==> a !in Users(calls, k)
  {
  }

  lemma UsersKept(calls: map<Id, Call>, more: map<Id, Call>, k: Key)
    requires calls.Keys == more.Keys && forall a | a in calls :: more[a].key == calls[a].key
    ensures Users(calls, k) == Users(more, k)
  {
  }

  lemma DropRefs(s: State, a: Id)
    requires RefsOk(s) && a in s.calls
    ensures RefsOk(Drop(s, a))
  {
    var t := Drop(s, a);
    var k := s.calls[a].key;
    UsersRemoved(s.calls, a, k);
    assert k in s.refs && s.refs[k] == |Users(s.calls, k)|;
    assert |Users(s.calls, k)| == |Users(s.calls, k) - {a}| + 1;
    forall k'
      ensures k' in t.refs <==> Users(t.calls, k') != {}
      ensures k' in t.refs ==> t.refs[k'] == |Users(t.calls, k')|
    {
      UsersRemoved(s.calls, a, k');
      if k' != k { assert Users(t.calls, k') == Users(s.calls, k'); }
    }
  }

  /** Dropping a call keeps the counts exact and evicts a key only when nobody refers to it. */
  lemma DropKeeps(s: State, a: Id)
    requires RefsOk(s) && TableOk(s) && a in s.calls
    ensures RefsOk(Drop(s, a)) && TableOk(Drop(s, a))
    ensures Drop(s, a).loop == s.loop && Drop(s, a).deferred == s.deferred && Drop(s, a).calls == s.calls - {a}
    ensures forall l | InTable(s, l) && Locked(s, l) :: InTable(Drop(s, a), l)
  {
    DropRefs(s, a);
    DropTable(s, Drop(s, a), a);
  }

  lemma DropTable(s: State, t: State, a: Id)
    requires TableOk(s) && a in s.calls && t == Drop(s, a) && RefsOk(s) && RefsOk(t)
    ensures TableOk(t)
  {
    forall b | b in t.calls ensures t.calls[b].key in t.locks {
      assert b in Users(t.calls, t.calls[b].key);
      assert b in Users(s.calls, t.calls[b].key);
    }
  }

  lemma EnterKeeps(s: State, a: Id, k: Key, timed: bool)
    requires RefsOk(s) && TableOk(s) && a !in s.calls && a !in s.loop.tasks
    ensures RefsOk(Enter(s, a, k, timed)) && TableOk(Enter(s, a, k, timed))
  {
    hide RefsOk, Enter;
    EnterRefs(s, a, k, timed);
    EnterTable(s, a, k, timed);
  }

  lemma EnterRefs(s: State, a: Id, k: Key, timed: bool)
    requires RefsOk(s) && a !in s.calls
    ensures RefsOk(Enter(s, a, k, timed))
  {
    var t := Enter(s, a, k, timed);
    assert t.calls == s.calls[a := t.calls[a]];
    forall k'
      ensures k' in t.refs <==> Users(t.calls, k') != {}
      ensures k' in t.refs ==> t.refs[k'] == |Users(t.calls, k')|
    {
      UsersAdded(s.calls, a, t.calls[a], k');
      assert a !in Users(s.calls, k');
    }
  }

  lemma EnterTable(s: State, a: Id, k: Key, timed: bool)
    requires TableOk(s) && a !in s.calls && a !in s.loop.tasks
    ensures TableOk(Enter(s, a, k, timed))
  {
  }

  lemma RefsKept(s: State, t: State)
    requires RefsOk(s) && t.refs == s.refs && t.calls.Keys == s.calls.Keys
    requires forall a | a in s.calls :: t.calls[a].key == s.calls[a].key
    ensures RefsOk(t)
  {
    forall k ensures Users(s.calls, k) == Users(t.calls, k) { UsersKept(s.calls, t.calls, k); }
  }

  /** Only phases, flags and stages change. */
  ghost predicate SameTable(s: State, t: State) {
    && t.refs == s.refs && t.locks == s.locks && t.nextLock == s.nextLock
    && SameShape(s.loop, t.loop)
    && t.calls.Keys == s.calls.Keys
    && (forall a | a in s.calls :: t.calls[a].key == s.calls[a].key && t.calls[a].lock == s.calls[a].lock)
  }

  lemma SameTableKeeps(s: State, t: State)
    requires RefsOk(s) && TableOk(s) && SameTable(s, t)
    ensures RefsOk(t) && TableOk(t)
  {
    RefsKept(s, t);
  }

  // ------------------------------------------------------------------ ownership

  lemma OwnersSame(s: State, t: State)
    requires OwnersOk(s)
    requires forall l :: Locked(s, l) <==> Locked(t, l)
    requires forall a, l :: OwnsLock(s, a, l) <==> OwnsLock(t, a, l)
    requires forall a | a in t.deferred && Owns(t, a) :: InTable(t, t.loop.tasks[a].lock)
    ensures OwnersOk(t)
  {
    forall a | Owns(t, a) ensures Locked(t, t.loop.tasks[a].lock) {
      assert OwnsLock(t, a, t.loop.tasks[a].lock);
      assert OwnsLock(s, a, t.loop.tasks[a].lock);
    }
    forall l | Locked(t, l) ensures exists a :: OwnsLock(t, a, l) {
      var a :| OwnsLock(s, a, l);
      assert OwnsLock(t, a, l);
    }
  }

  lemma OwnersGained(s: State, t: State, a: Id, l: LockId)
    requires OwnersOk(s)
    requires !Locked(s, l) && OwnsLock(t, a, l)
    requires forall k :: Locked(t, k) <==> Locked(s, k) || k == l
    requires forall b, k | b != a :: OwnsLock(s, b, k) <==> OwnsLock(t, b, k)
    requires forall b | b in t.deferred && Owns(t, b) :: InTable(t, t.loop.tasks[b].lock)
    requires !Owns(s, a)
    ensures OwnersOk(t)
  {
    forall b, k | OwnsLock(t, b, k) ensures k == l ==> b == a {
      if b != a { assert OwnsLock(s, b, k); }
    }
    forall b | Owns(t, b) ensures Locked(t, t.loop.tasks[b].lock) {
      assert OwnsLock(t, b, t.loop.tasks[b].lock);
    }
    forall k | Locked(t, k) ensures exists b :: OwnsLock(t, b, k) {
      if k == l { assert OwnsLock(t, a, k); } else {
        var b :| OwnsLock(s, b, k);
        assert b != a && OwnsLock(t, b, k);
      }
    }
  }

  lemma OwnersLost(s: State, t: State, a: Id, l: LockId)
    requires OwnersOk(s) && OwnsLock(s, a, l) && !Owns(t, a)
    requires forall k :: Locked(t, k) <==> Locked(s, k) && k != l
    requires forall b, k | b != a :: OwnsLock(s, b, k) <==> OwnsLock(t, b, k)
    requires forall b | b in t.deferred && Owns(t, b) :: InTable(t, t.loop.tasks[b].lock)
    ensures OwnersOk(t)
  {
    forall b, k | OwnsLock(t, b, k) ensures k != l && OwnsLock(s, b, k) && Locked(t, k) {
      assert b != a && OwnsLock(s, b, k);
    }
    forall b | Owns(t, b) ensures Locked(t, t.loop.tasks[b].lock) {
      assert OwnsLock(t, b, t.loop.tasks[b].lock);
    }
    forall k | Locked(t, k) ensures exists b :: OwnsLock(t, b, k) {
      var b :| OwnsLock(s, b, k);
      assert b != a && OwnsLock(t, b, k);
    }
  }

  /** Everything but call and task `a` is as before, up to wake-ups. */
  ghost predicate OthersSame(s: State, t: State, a: Id) {
    && s.loop.tasks.Keys <= t.loop.tasks.Keys <= s.loop.tasks.Keys + {a}
    && (forall x | x in s.loop.tasks && x != a ::
          && t.loop.tasks[x].lock == s.loop.tasks[x].lock && SameOrWoken(s.loop, t.loop, x)
          && (x in t.calls <==> x in s.calls) && (x in s.calls ==> t.calls[x] == s.calls[x])
          && (x in t.deferred <==> x in s.deferred))
  }

  lemma OthersOwn(s: State, t: State, a: Id)
    requires OthersSame(s, t, a)
    ensures forall b, k | b != a :: OwnsLock(s, b, k) <==> OwnsLock(t, b, k)
  {
  }

  lemma OthersPhases(s: State, t: State, a: Id)
    requires PhasesOk(s) && OthersSame(s, t, a)
    requires a in t.loop.tasks ==> TaskOk(t, a)
    requires a in t.deferred ==> a in t.loop.tasks && a !in t.calls
    requires t.deferred <= s.deferred + {a} && t.calls.Keys <= s.calls.Keys + {a}
    ensures PhasesOk(t)
  {
    forall x | x in t.loop.tasks ensures TaskOk(t, x) {
      if x != a { assert TaskOk(s, x); }
    }
  }

  // ------------------------------------------------------------------ each step keeps the invariant

  lemma EmptyInv()
    ensures Inv(EMPTY)
  {
    forall k: Key ensures Users(EMPTY.calls, k) == {} {}
  }

  lemma OwnerInTable(s: State, a: Id)
    requires TableOk(s) && OwnersOk(s) && Owns(s, a)
    ensures InTable(s, s.loop.tasks[a].lock) && Locked(s, s.loop.tasks[a].lock)
  {
    if a in s.calls { assert s.locks[s.calls[a].key] == s.loop.tasks[a].lock; }
  }

  ghost predicate SameLocked(s: State, t: State) {
    forall l :: Locked(t, l) <==> Locked(s, l)
  }

  /** A step of one call or task that acquires and releases nothing and drops no reference. */
  lemma PhaseMove(s: State, t: State, a: Id)
    requires TopInv(s) && SameTable(s, t) && SameLocked(s, t)
    requires OthersSame(s, t, a) && t.deferred == s.deferred
    requires a in s.loop.tasks && TaskOk(t, a)
    requires s.loop.tasks[a].stage == Acquired <==> t.loop.tasks[a].stage == Acquired
    ensures TopInv(t)
  {
    hide RefsOk, TableOk;
    SameTableKeeps(s, t);
    OthersPhases(s, t, a);
    OthersOwn(s, t, a);
    OwnersSame(s, t);
  }

  /** As `PhaseMove`, but the lock of `a` goes from free to owned by `a`. */
  lemma AcquireMove(s: State, t: State, a: Id)
    requires TopInv(s) && SameTable(s, t)
    requires OthersSame(s, t, a) && t.deferred == s.deferred
    requires a in s.calls && a in s.loop.tasks && TaskOk(t, a)
    requires s.loop.tasks[a].stage != Acquired && t.loop.tasks[a].stage == Acquired
    requires !Locked(s, s.loop.tasks[a].lock)
    requires forall l :: Locked(t, l) <==> Locked(s, l) || l == s.loop.tasks[a].lock
    ensures TopInv(t)
  {
    hide RefsOk, TableOk;
    SameTableKeeps(s, t);
    OthersPhases(s, t, a);
    OthersOwn(s, t, a);
    OwnersGained(s, t, a, s.loop.tasks[a].lock);
  }

  /** The call ends after its loop step `s1`, leaving `deferred` callbacks behind. */
  lemma DropMove(s: State, s1: State, t: State, a: Id)
    requires TopInv(s) && SameTable(s, s1) && s1.calls == s.calls && s1.deferred == s.deferred
    requires OthersSame(s, s1, a) && a in s.calls
    requires t == Drop(s1, a).(deferred := t.deferred)
    requires s.deferred <= t.deferred <= s.deferred + {a}
    requires a in t.loop.tasks && (Doomed(t.loop.tasks[a].stage) || t.loop.tasks[a].stage == Acquired)
    ensures RefsOk(t) && TableOk(t) && PhasesOk(t) && OthersSame(s, t, a)
    ensures t.loop == s1.loop
    ensures forall l | InTable(s, l) && Locked(s1, l) :: InTable(t, l)
  {
    hide RefsOk, TableOk, OwnersOk;
    DropTables(s, s1, t, a);
    hide Drop;
    OthersPhases(s, t, a);
  }

  lemma DropTables(s: State, s1: State, t: State, a: Id)
    requires RefsOk(s) && TableOk(s) && SameTable(s, s1) && s1.calls == s.calls && a in s.calls
    requires t == Drop(s1, a).(deferred := t.deferred)
    ensures RefsOk(t) && TableOk(t) && t.loop == s1.loop && t.calls == s.calls - {a}
    ensures forall l | InTable(s, l) && Locked(s1, l) :: InTable(t, l)
  {
    SameTableKeeps(s, s1);
    DropKeeps(s1, a);
    hide Drop;
    RefsKept(Drop(s1, a), t);
    hide RefsOk, TableOk;
    forall l | InTable(s, l) && Locked(s1, l) ensures InTable(t, l) {
      assert InTable(s1, l);
      assert InTable(Drop(s1, a), l);
    }
  }

  /** A dropped call that owned nothing, or whose ownership passes to its callback. */
  lemma DropSilent(s: State, s1: State, t: State, a: Id)
    requires TopInv(s) && RefsOk(t) && TableOk(t) && PhasesOk(t) && OthersSame(s, t, a)
    requires t.loop == s1.loop && SameLocked(s, s1)
    requires forall l | InTable(s, l) && Locked(s1, l) :: InTable(t, l)
    requires forall l :: OwnsLock(s, a, l) <==> OwnsLock(t, a, l)
    ensures TopInv(t)
  {
    OthersOwn(s, t, a);
    forall b | b in t.deferred && Owns(t, b) ensures InTable(t, t.loop.tasks[b].lock) {
      var l := t.loop.tasks[b].lock;
      assert OwnsLock(t, b, l);
      assert OwnsLock(s, b, l);
      OwnerInTable(s, b);
    }
    OwnersSame(s, t);
  }

  /** A call or callback that owned its lock releases it. */
  lemma ReleaseMove(s: State, t: State, a: Id, l: LockId)
    requires TopInv(s) && RefsOk(t) && TableOk(t) && PhasesOk(t) && OthersSame(s, t, a)
    requires OwnsLock(s, a, l) && !Owns(t, a)
    requires forall k :: Locked(t, k) <==> Locked(s, k) && k != l
    requires forall k | InTable(s, k) && Locked(t, k) :: InTable(t, k)
    ensures TopInv(t)
  {
    OthersOwn(s, t, a);
    forall b | b in t.deferred && Owns(t, b) ensures InTable(t, t.loop.tasks[b].lock) {
      var k := t.loop.tasks[b].lock;
      assert OwnsLock(t, b, k);
      assert OwnsLock(s, b, k);
      OwnerInTable(s, b);
    }
    OwnersLost(s, t, a, l);
  }

  // ---- one lemma per event

  /** Cancelling the inner task of call `a`, which then has phase `p`. */
  lemma CancelTop(s: State, t: State, a: Id, p: Phase)
    requires TopInv(s) && a in s.calls && a in s.loop.tasks
    requires t == SetPhase(s.(loop := CancelTask(s.loop, a)), a, p)
    requires TaskOk(t, a) && (s.loop.tasks[a].stage == Acquired ==> p == s.calls[a].phase)
    ensures TopInv(t)
  {
    hide TopInv, TaskOk;
    CancelTaskEffect(s.loop, a);
    assert OthersSame(s, t, a);
    PhaseMove(s, t, a);
  }

  lemma CallTask(s: State, a: Id)
    requires TopInv(s) && a in s.calls
    ensures a in s.loop.tasks && TaskOk(s, a)
  {
  }

  lemma RequestCancelTop(s: State, a: Id)
    requires TopInv(s) && a in s.calls
    ensures a in s.loop.tasks && TopInv(RequestCancelStep(s, a))
  {
    hide TopInv;
    CallTask(s, a);
    var t := RequestCancelStep(s, a);
    CancelTaskEffect(s.loop, a);
    if s.calls[a].phase == Direct {
      assert t == SetPhase(t, a, Direct);
      CancelTop(s, t, a, Direct);
    } else if s.calls[a].phase.Waiting? {
      PhaseMove(s, t, a);
    }
  }

  lemma ResumeTop(s: State, a: Id)
    requires TopInv(s) && Enabled(s, Resume(a))
    ensures a in s.loop.tasks && TopInv(ResumeStep(s, a))
  {
    var t := ResumeStep(s, a);
    assert TaskOk(s, a);
    CancelTaskEffect(s.loop, a);
    if s.loop.tasks[a].stage == Acquired { PhaseMove(s, t, a); } else { CancelTop(s, t, a, Retracting); }
  }

  lemma CancelResumeTop(s: State, a: Id)
    requires TopInv(s) && Enabled(s, CancelResume(a))
    ensures a in s.loop.tasks && TopInv(CancelResumeStep(s, a))
  {
    var s1 := s.(loop := CancelTask(s.loop, a));
    var t := CancelResumeStep(s, a);
    hide TopInv, CancelTask;
    CallTask(s, a);
    CancelTaskEffect(s.loop, a);
    assert OthersSame(s, s1, a);
    DropMove(s, s1, t, a);
    DropSilent(s, s1, t, a);
  }

  lemma RetractResumeTop(s: State, a: Id)
    requires TopInv(s) && Enabled(s, RetractResume(a))
    ensures s.loop.tasks[a].stage == Retracted && TopInv(Drop(s, a))
  {
    assert TaskOk(s, a);
    DropMove(s, s, Drop(s, a), a);
    DropSilent(s, s, Drop(s, a), a);
  }

  /** Releasing the lock of an owner. */
  lemma FreedLoop(s: State, a: Id)
    requires Inv(s) && Owns(s, a)
    ensures Locked(s, s.loop.tasks[a].lock)
    ensures LoopInv(ReleaseLock(s.loop, s.loop.tasks[a].lock))
    ensures Freed(s, ReleaseOf(s, s.loop.tasks[a].lock), a, s.loop.tasks[a].lock)
  {
    var l := s.loop.tasks[a].lock;
    assert Locked(s, l);
    ReleaseLockKeeps(s.loop, l);
    ReleaseLockEffect(s.loop, l);
    FreedTop(s, ReleaseLock(s.loop, l), a, l);
  }

  lemma FreedTop(s: State, d: Loop, a: Id, l: LockId)
    requires SameShape(s.loop, d) && l in s.loop.objs && !d.objs[l].locked
    requires forall k | k in s.loop.objs && k != l :: d.objs[k] == s.loop.objs[k]
    requires forall x | x in s.loop.tasks :: SameOrWoken(s.loop, d, x)
    requires Owns(s, a)
    ensures Freed(s, s.(loop := d), a, l)
  {
    assert SameOrWoken(s.loop, d, a);
  }

  ghost predicate Freed(s: State, t: State, a: Id, l: LockId) {
    && SameTable(s, t) && t.calls == s.calls && t.deferred == s.deferred
    && OthersSame(s, t, a) && a in t.loop.tasks && t.loop.tasks[a].stage == Acquired
    && (forall k :: Locked(t, k) <==> Locked(s, k) && k != l)
  }

  lemma CallbackTop(s: State, s1: State, a: Id)
    requires TopInv(s) && a in s.deferred && a in s.loop.tasks
    requires if s.loop.tasks[a].stage == Acquired then Freed(s, s1, a, s.loop.tasks[a].lock) else s1 == s
    ensures TopInv(s1.(deferred := s.deferred - {a}))
  {
    var t := s1.(deferred := s.deferred - {a});
    assert TaskOk(s, a);
    SameTableKeeps(s, t);
    OthersPhases(s, t, a);
    if s.loop.tasks[a].stage == Acquired {
      ReleaseMove(s, t, a, s.loop.tasks[a].lock);
    } else {
      OthersOwn(s, t, a);
      OwnersSame(s, t);
    }
  }

  lemma ReleaseTop(s: State, s1: State, a: Id)
    requires TopInv(s) && Enabled(s, Release(a)) && a in s.loop.tasks
    requires s.loop.tasks[a].stage == Acquired && Freed(s, s1, a, s.loop.tasks[a].lock)
    ensures TopInv(Drop(s1, a))
  {
    var t := Drop(s1, a);
    DropMove(s, s1, t, a);
    ReleaseMove(s, t, a, s.loop.tasks[a].lock);
  }

  /** A holder's release finds its own lock in the table, locked. */
  lemma ReleaseFindsLock(s: State, a: Id)
    requires Inv(s) && Enabled(s, Release(a))
    ensures a in s.loop.tasks && s.loop.tasks[a].stage == Acquired && Owns(s, a)
    ensures var k := s.calls[a].key;
      k in s.locks && s.locks[k] == s.loop.tasks[a].lock && Locked(s, s.locks[k])
  {
    assert TaskOk(s, a);
    assert Owns(s, a);
  }

  lemma RunInnerTop(s: State, d: Loop, a: Id)
    requires TopInv(s) && a in s.loop.tasks && s.loop.tasks[a].lock in s.loop.objs && Runnable(s.loop.tasks[a].stage)
    requires RunEffect(s.loop, d, a, s.loop.tasks[a].lock)
    ensures a in d.tasks && TopInv(Settle(s.(loop := d), a))
  {
    hide RefsOk, TableOk, OwnersOk;
    var s1 := s.(loop := d);
    assert TaskOk(s, a);
    assert OthersSame(s, s1, a);
    if d.tasks[a].stage == Acquired {
      RunAcquire(s, d, a);
    } else if a in s.calls && s.calls[a].phase == Direct && d.tasks[a].stage == Retracted {
      var t := Drop(s1, a);
      DropMove(s, s1, t, a);
      DropSilent(s, s1, t, a);
    } else {
      PhaseMove(s, s1, a);
    }
  }

  lemma RunAcquire(s: State, d: Loop, a: Id)
    requires TopInv(s) && a in s.loop.tasks && s.loop.tasks[a].lock in s.loop.objs
    requires OthersSame(s, s.(loop := d), a) && RunEffect(s.loop, d, a, s.loop.tasks[a].lock)
    requires a in d.tasks && d.tasks[a].stage == Acquired
    ensures TopInv(Settle(s.(loop := d), a))
  {
    hide RefsOk, TableOk, OwnersOk;
    assert TaskOk(s, a);
    AcquireMove(s, Settle(s.(loop := d), a), a);
  }

  lemma EnterTop(s: State, a: Id, k: Key, timed: bool)
    requires TopInv(s) && Enabled(s, Start(a, k, timed))
    ensures TopInv(Enter(s, a, k, timed))
  {
    var t := Enter(s, a, k, timed);
    hide RefsOk, PhasesOk, OwnersOk;
    EnterKeeps(s, a, k, timed);
    EnterPhases(s, t, a);
    EnterOwners(s, t, a);
  }

  /** A new call with a fresh task, possibly with a new unlocked lock. */
  ghost predicate Entered(s: State, t: State, a: Id) {
    && a !in s.loop.tasks && a !in s.calls && t.deferred == s.deferred
    && a in t.calls && t.calls == s.calls[a := t.calls[a]] && t.calls[a].phase in {Waiting(false), Direct}
    && t.loop.tasks == s.loop.tasks[a := Task(t.calls[a].lock, Fresh(false))]
    && SameLocked(s, t)
    && (forall l | InTable(s, l) :: InTable(t, l))
  }

  lemma EnterPhases(s: State, t: State, a: Id)
    requires PhasesOk(s) && Entered(s, t, a)
    ensures PhasesOk(t)
  {
    OthersPhases(s, t, a);
  }

  lemma EnterOwners(s: State, t: State, a: Id)
    requires OwnersOk(s) && PhasesOk(s) && Entered(s, t, a)
    ensures OwnersOk(t)
  {
    OthersOwn(s, t, a);
    OwnersSame(s, t);
  }

  lemma EnterLoop(s: State, a: Id, k: Key, timed: bool)
    requires LoopInv(s.loop) && TableOk(s) && a !in s.loop.tasks
    ensures LoopInv(Enter(s, a, k, timed).loop)
  {
    if k in s.locks {
      NewTaskKeeps(s.loop, a, s.locks[k]);
    } else {
      var l := s.nextLock;
      NewLockKeeps(s.loop, l, k);
      NewTaskKeeps(SetLock(s.loop, l, Lock(k, false, [])), a, l);
    }
  }

  lemma RunInnerKeeps(s: State, a: Id)
    requires Inv(s) && Enabled(s, RunInner(a))
    ensures s.loop.tasks[a].lock in s.loop.objs && Inv(RunInnerStep(s, a))
  {
    RunTaskKeeps(s.loop, a);
    RunTaskEffect(s.loop, a);
    RunInnerTop(s, RunTask(s.loop, a), a);
    SettleLoop(s.(loop := RunTask(s.loop, a)), a);
  }

  lemma SettleLoop(s: State, a: Id)
    requires a in s.loop.tasks
    ensures Settle(s, a).loop == s.loop
  {
  }

  lemma StartKeeps(s: State, a: Id, k: Key, timed: bool)
    requires Inv(s) && Enabled(s, Start(a, k, timed))
    ensures Inv(StartStep(s, a, k, timed))
  {
    EnterLoop(s, a, k, timed);
    EnterTop(s, a, k, timed);
    if !timed { RunInnerKeeps(Enter(s, a, k, timed), a); }
  }

  lemma CallbackKeeps(s: State, a: Id)
    requires Inv(s) && Enabled(s, Callback(a))
    ensures s.loop.tasks[a].lock in s.loop.objs && Inv(CallbackStep(s, a))
  {
    if s.loop.tasks[a].stage == Acquired { FreedLoop(s, a); }
    CallbackTop(s, ReleaseIfAcquired(s, a), a);
  }

  lemma ReleaseKeeps(s: State, a: Id)
    requires Inv(s) && Enabled(s, Release(a))
    ensures Inv(ReleaseStep(s, a))
  {
    ReleaseFindsLock(s, a);
    FreedLoop(s, a);
    ReleaseTop(s, ReleaseOf(s, s.loop.tasks[a].lock), a);
  }

  lemma RequestCancelKeeps(s: State, a: Id)
    requires Inv(s) && Enabled(s, RequestCancel(a))
    ensures Inv(RequestCancelStep(s, a))
  {
    hide LoopInv, TopInv, CancelTask;
    RequestCancelTop(s, a);
    CancelTaskKeeps(s.loop, a);
  }

  lemma ResumeKeeps(s: State, a: Id)
    requires Inv(s) && Enabled(s, Resume(a))
    ensures Inv(ResumeStep(s, a))
  {
    ResumeTop(s, a);
    CancelTaskKeeps(s.loop, a);
  }

  lemma CancelResumeKeeps(s: State, a: Id)
    requires Inv(s) && Enabled(s, CancelResume(a))
    ensures Inv(CancelResumeStep(s, a))
  {
    hide LoopInv, TopInv, CancelTask;
    CancelResumeTop(s, a);
    CancelTaskKeeps(s.loop, a);
  }

  lemma RetractResumeKeeps(s: State, a: Id)
    requires Inv(s) && Enabled(s, RetractResume(a))
    ensures s.loop.tasks[a].lock in s.loop.objs && Inv(RetractResumeStep(s, a))
  {
    RetractResumeTop(s, a);
  }

  /** Every step of the event loop keeps the invariant. */
  lemma StepKeepsInv(s: State, e: Event)
    requires Inv(s) && Enabled(s, e)
    ensures Inv(Step(s, e))
  {
    match e
    case Start(a, k, timed) => StartKeeps(s, a, k, timed);
    case RunInner(a) => RunInnerKeeps(s, a);
    case Resume(a) => ResumeKeeps(s, a);
    case RequestCancel(a) => RequestCancelKeeps(s, a);
    case CancelResume(a) => CancelResumeKeeps(s, a);
    case RetractResume(a) => RetractResumeKeeps(s, a);
    case Callback(a) => CallbackKeeps(s, a);
    case Release(a) => ReleaseKeeps(s, a);
  }

  /** What the steps need of the maps they look into. */
  lemma CallHasTask(s: State, b: Id)
    requires Inv(s)
    ensures b in s.calls ==> b in s.loop.tasks
    ensures b in s.loop.tasks ==> s.loop.tasks[b].lock in s.loop.objs
  {
  }

  lemma KeyHasLock(s: State, k: Key)
    requires Inv(s)
    ensures k in s.locks ==> s.locks[k] in s.loop.objs
  {
  }
}
