/** What holds of the named-lock table over whole runs of the event loop. */
module NamedLockTheorems {
  import opened AsyncLock
  import opened NamedLocks

  /** A step that is not ready is skipped, so every sequence of events is a run. */
  function Next(s: State, e: Event): (t: State)
    requires Inv(s)
    ensures Inv(t)
  {
    if Enabled(s, e) then StepKeepsInv(s, e); Step(s, e) else s
  }

  function RunFrom(s: State, es: seq<Event>): (t: State)
    requires Inv(s)
    ensures Inv(t)
    decreases |es|
  {
    hide Inv; if es == [] then s else RunFrom(Next(s, es[0]), es[1..])
  }

  function Run(es: seq<Event>): (t: State)
    ensures Inv(t)
  {
    EmptyInv();
    RunFrom(EMPTY, es)
  }

  ghost predicate Holds(s: State, a: Id, k: Key) {
    a in s.calls && s.calls[a].phase == Holding && s.calls[a].key == k
  }

  // ------------------------------------------------------------------ safety

  /** At most one task is inside `LockManager.lock(k)`, whatever was evicted before. */
  lemma MutualExclusion(es: seq<Event>, a: Id, b: Id, k: Key)
    requires Holds(Run(es), a, k) && Holds(Run(es), b, k)
    ensures a == b
  {
    HoldersAgree(Run(es), a, b, k);
  }

  /** The same in any state that satisfies the invariant. */
  lemma HoldersAgree(s: State, a: Id, b: Id, k: Key)
    requires Inv(s) && Holds(s, a, k) && Holds(s, b, k)
    ensures a == b && k in s.locks && Locked(s, s.locks[k])
  {
    assert TaskOk(s, a) && TaskOk(s, b);
    assert OwnsLock(s, a, s.locks[k]) && OwnsLock(s, b, s.locks[k]);
  }

  /** While a holder runs its body its lock is locked and no deferred release is pending for it. */
  lemma HolderIsSoleOwner(es: seq<Event>, a: Id, b: Id, k: Key)
    requires Holds(Run(es), a, k) && Owns(Run(es), b) && k in Run(es).locks
    requires Run(es).loop.tasks[b].lock == Run(es).locks[k]
    ensures b == a && Locked(Run(es), Run(es).locks[k]) && b !in Run(es).deferred
  {
    var s := Run(es);
    assert TaskOk(s, a);
    assert OwnsLock(s, a, s.locks[k]) && OwnsLock(s, b, s.locks[k]);
  }

  /** A lock that left the table is dead: unlocked, and nobody can still acquire it. */
  lemma EvictedLocksAreDead(es: seq<Event>, l: LockId)
    requires l in Run(es).loop.objs && !InTable(Run(es), l)
    ensures !Locked(Run(es), l)
    ensures forall a | a in Run(es).loop.tasks && Run(es).loop.tasks[a].lock == l ::
      a !in Run(es).calls && !Owns(Run(es), a) && !Live(Run(es).loop.tasks[a].stage)
  {
    var s := Run(es);
    LockedIsOwned(s, l);
    forall a | a in s.loop.tasks && s.loop.tasks[a].lock == l
      ensures a !in s.calls && !Owns(s, a) && !Live(s.loop.tasks[a].stage)
    {
      assert TaskOk(s, a);
      if Owns(s, a) { OwnerInTable(s, a); }
    }
  }

  /** A locked lock is in the table and owned by an open call or a pending callback. */
  lemma LockedIsOwned(s: State, l: LockId)
    requires Inv(s)
    ensures Locked(s, l) ==> InTable(s, l) && exists a :: OwnsLock(s, a, l)
  {
    if Locked(s, l) {
      var a :| OwnsLock(s, a, l);
      OwnerInTable(s, a);
    }
  }

  /** Tasks keep their lock and stay told to stop; locks keep their key. */
  ghost predicate Evolves(c: Loop, d: Loop) {
    && (forall x | x in c.tasks :: x in d.tasks && d.tasks[x].lock == c.tasks[x].lock
          && (Doomed(c.tasks[x].stage) ==> Doomed(d.tasks[x].stage)))
    && (forall l | l in c.objs :: l in d.objs && d.objs[l].key == c.objs[l].key)
  }

  lemma CancelEvolves(s: State, a: Id)
    requires Inv(s) && a in s.calls
    ensures a in s.loop.tasks && Evolves(s.loop, CancelTask(s.loop, a))
  {
    CancelTaskEffect(s.loop, a);
  }

  lemma RunEvolves(s: State, a: Id)
    requires Inv(s) && Enabled(s, RunInner(a))
    ensures s.loop.tasks[a].lock in s.loop.objs && Evolves(s.loop, RunInnerStep(s, a).loop)
  {
    RunTaskEffect(s.loop, a);
    SettleLoop(s.(loop := RunTask(s.loop, a)), a);
    RanEvolves(s.loop, RunTask(s.loop, a), a);
  }

  lemma RanEvolves(c: Loop, d: Loop, a: Id)
    requires a in c.tasks && c.tasks[a].lock in c.objs && RunEffect(c, d, a, c.tasks[a].lock)
    ensures Evolves(c, d)
  {
    assert forall x | x in c.tasks && x != a :: SameOrWoken(c, d, x);
  }

  lemma EnterEvolves(s: State, a: Id, k: Key, timed: bool)
    requires a !in s.loop.tasks && s.nextLock !in s.loop.objs
    ensures Evolves(s.loop, Enter(s, a, k, timed).loop)
  {
  }

  lemma StartEvolves(s: State, a: Id, k: Key, timed: bool)
    requires Inv(s) && Enabled(s, Start(a, k, timed))
    ensures Evolves(s.loop, StartStep(s, a, k, timed).loop)
  {
    hide Inv;
    var s1 := Enter(s, a, k, timed);
    EnterKeepsInv(s, a, k, timed);
    EnterEvolves(s, a, k, timed);
    if !timed { RunEvolves(s1, a); }
  }

  lemma EnterKeepsInv(s: State, a: Id, k: Key, timed: bool)
    requires Inv(s) && Enabled(s, Start(a, k, timed))
    ensures k in s.locks ==> s.locks[k] in s.loop.objs
    ensures s.nextLock !in s.loop.objs
    ensures Inv(Enter(s, a, k, timed))
  {
    EnterLoop(s, a, k, timed);
    EnterTop(s, a, k, timed);
  }

  lemma ReleaseEvolves(s: State, a: Id)
    requires Inv(s) && a in s.loop.tasks && (a in s.calls || a in s.deferred)
    ensures s.loop.tasks[a].lock in s.loop.objs && Evolves(s.loop, ReleaseIfAcquired(s, a).loop)
  {
    if s.loop.tasks[a].stage == Acquired {
      var l := s.loop.tasks[a].lock;
      FreedLoop(s, a);
      ReleaseLockEffect(s.loop, l);
      AllWokenEvolves(s.loop, ReleaseLock(s.loop, l));
    }
  }

  lemma AllWokenEvolves(c: Loop, d: Loop)
    requires SameShape(c, d) && forall x | x in c.tasks :: SameOrWoken(c, d, x)
    ensures Evolves(c, d)
  {
    forall x | x in c.tasks ensures Doomed(c.tasks[x].stage) ==> Doomed(d.tasks[x].stage) {
      assert SameOrWoken(c, d, x);
    }
  }

  lemma StepEvolves(s: State, e: Event)
    requires Inv(s) && Enabled(s, e)
    ensures Evolves(s.loop, Step(s, e).loop)
  {
    hide Inv, Evolves;
    SelfEvolves(s.loop);
    match e
    case Start(a, k, timed) => StartEvolves(s, a, k, timed);
    case RunInner(a) => RunEvolves(s, a);
    case Resume(a) => CancelEvolves(s, a);
    case RequestCancel(a) => CancelEvolves(s, a);
    case CancelResume(a) => CancelEvolves(s, a);
    case RetractResume(a) => ReleaseEvolves(s, a);
    case Callback(a) => ReleaseEvolves(s, a);
    case Release(a) => HolderReleases(s, a); ReleaseEvolves(s, a);
  }

  lemma SelfEvolves(c: Loop)
    ensures Evolves(c, c)
  {
  }

  lemma HolderReleases(s: State, a: Id)
    requires Inv(s) && Enabled(s, Release(a))
    ensures a in s.loop.tasks && s.loop.tasks[a].lock in s.loop.objs
    ensures ReleaseStep(s, a) == Drop(ReleaseIfAcquired(s, a), a)
  {
    ReleaseFindsLock(s, a);
  }

  /** An inner acquire that was cancelled before it completed never acquires, in any continuation. */
  lemma {:induction false} CancelledAcquireNeverAcquires(s: State, es: seq<Event>, a: Id)
    requires Inv(s) && a in s.loop.tasks && Doomed(s.loop.tasks[a].stage)
    ensures a in RunFrom(s, es).loop.tasks && Doomed(RunFrom(s, es).loop.tasks[a].stage)
    decreases |es|
  {
    hide Inv;
    if es != [] {
      if Enabled(s, es[0]) { StepEvolves(s, es[0]); }
      CancelledAcquireNeverAcquires(Next(s, es[0]), es[1..], a);
    }
  }

  /** After a timeout the inner task has never acquired: the timed-out caller's
      release branch is dead, and no timeout can leave the key locked. */
  lemma TimeoutNeverAcquired(es: seq<Event>, a: Id)
    requires Enabled(Run(es), RetractResume(a))
    ensures Run(es).loop.tasks[a].stage == Retracted
  {
    assert TaskOk(Run(es), a);
  }

  /** `lock.release()` is only ever called on a locked lock, so it never raises. */
  lemma ReleaseNeverRaises(es: seq<Event>, a: Id)
    ensures Enabled(Run(es), Release(a)) ==>
      Run(es).calls[a].key in Run(es).locks && Locked(Run(es), Run(es).locks[Run(es).calls[a].key])
    ensures Enabled(Run(es), Callback(a)) && Run(es).loop.tasks[a].stage == Acquired ==>
      Locked(Run(es), Run(es).loop.tasks[a].lock)
  {
    var s := Run(es);
    if Enabled(s, Release(a)) { ReleaseFindsLock(s, a); }
  }

  // ------------------------------------------------------------------ no lost wake-up

  /** If a task is suspended on a free lock, the head of that lock's deque is ready to run. */
  lemma NoLostWakeup(es: seq<Event>, a: Id)
    requires a in Run(es).loop.tasks && Run(es).loop.tasks[a].stage.Queued?
    requires !Locked(Run(es), Run(es).loop.tasks[a].lock)
    ensures exists b :: b in Run(es).loop.tasks && Run(es).loop.tasks[b].lock == Run(es).loop.tasks[a].lock
                        && Enabled(Run(es), RunInner(b))
  {
    var s := Run(es);
    var l := s.loop.tasks[a].lock;
    assert QueueOk(s.loop, l) && WakeOk(s.loop, l);
    assert IsQueued(s.loop, l, a);
    var b := s.loop.objs[l].waiters[0];
    assert IsQueued(s.loop, l, b);
    assert Enabled(s, RunInner(b));
  }

  // ------------------------------------------------------------------ reference counts and eviction

  lemma RefsCountCalls(es: seq<Event>, k: Key)
    ensures k in Run(es).refs <==> exists a :: a in Run(es).calls && Run(es).calls[a].key == k
    ensures k in Run(es).refs ==> Run(es).refs[k] == |Users(Run(es).calls, k)| && k in Run(es).locks
  {
    var s := Run(es);
    if k in s.refs { var a :| a in Users(s.calls, k); }
    if a :| a in s.calls && s.calls[a].key == k { assert a in Users(s.calls, k); }
  }

  /** Once no call is open and all deferred callbacks have run, no lock is locked. */
  lemma QuietMeansUnlocked(es: seq<Event>, l: LockId)
    requires Run(es).calls == map[] && Run(es).deferred == {}
    ensures !Locked(Run(es), l) && Run(es).refs == map[]
  {
    var s := Run(es);
    LockedIsOwned(s, l);
    forall k ensures k !in s.refs { assert Users(s.calls, k) == {}; }
  }
}
