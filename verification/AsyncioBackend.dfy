/** `_AsyncioBackend` as a class whose methods update its dictionaries in place.

    Each method is one atomic step of `NamedLocks`; `calls` stands for the
    suspended frames of the open `acquire` calls and `deferred` for the
    done-callbacks that the event loop has still to run. */
module AsyncioBackend {
  import opened AsyncLock
  import opened NamedLocks
  import opened NamedLockTheorems

  class Backend {
    var locks: map<Key, LockId>
    var refs: map<Key, nat>
    var calls: map<Id, Call>
    var loop: Loop
    var deferred: set<Id>
    var nextLock: LockId

    ghost function Now(): State
      reads this
    {
      State(locks, refs, calls, loop, deferred, nextLock)
    }

    ghost predicate Valid()
      reads this
    {
      Inv(Now())
    }

    constructor ()
      ensures Valid() && Now() == EMPTY
    {
      locks, refs, calls, deferred, nextLock := map[], map[], map[], {}, 0;
      loop := Loop(map[], map[]);
      new;
      EmptyInv();
    }

    /** Two holders of a key are the same call, and the lock of the key is locked. */
    lemma OneHolder(a: Id, b: Id, key: Key)
      requires Valid() && Holds(Now(), a, key) && Holds(Now(), b, key)
      ensures a == b && key in locks && Locked(Now(), locks[key])
    {
      hide Inv;
      HoldersAgree(Now(), a, b, key);
    }

    /** `_decref` */
    method DecrefKey(key: Key)
      modifies this`refs, this`locks
      ensures Now() == Decref(old(Now()), key)
      ensures refs == (if old(key in refs && refs[key] > 1) then old(refs)[key := old(refs[key]) - 1]
                       else old(refs) - {key})
      ensures locks == (if key in refs || old(key in locks && Locked(Now(), locks[key])) then old(locks)
                        else old(locks) - {key})
    {
      var remaining: int := (if key in refs then refs[key] as int else 0) - 1;
      if remaining > 0 {
        refs := refs[key := remaining];
        return;
      }
      refs := refs - {key};
      if key in locks {
        var lock := locks[key];
        if !(lock in loop.objs && loop.objs[lock].locked) {
          locks := locks - {key};
        }
      }
    }

    /** The `except` branch of `acquire`, or the end of `release`: the frame is gone. */
    method EndCall(a: Id)
      requires a in calls
      modifies this`refs, this`locks, this`calls
      ensures Now() == Drop(old(Now()), a)
    {
      DecrefKey(calls[a].key);
      calls := calls - {a};
    }

    /** `acquire` up to its first suspension. */
    method Acquire(a: Id, key: Key, timeout: int)
      requires Valid() && a !in loop.tasks && a !in calls
      modifies this
      ensures Valid() && Now() == StartStep(old(Now()), a, key, timeout > 0)
    {
      hide Inv, Enter, RunInnerStep;
      KeyHasLock(Now(), key);
      StartKeeps(Now(), a, key, timeout > 0);
      EnterHasTask(Now(), a, key, timeout > 0);
      EnterCall(a, key, timeout > 0);
      if timeout <= 0 { AwaitLock(a); }
    }

    /** The lock is looked up or created and the reference counted; the call waits for its task. */
    method EnterCall(a: Id, key: Key, timed: bool)
      modifies this`locks, this`refs, this`calls, this`loop, this`nextLock
      ensures Now() == Enter(old(Now()), a, key, timed)
    {
      if key !in locks {
        locks := locks[key := nextLock];
        loop := SetLock(loop, nextLock, Lock(key, false, []));
        nextLock := nextLock + 1;
      }
      var lock := locks[key];
      refs := refs[key := (if key in refs then refs[key] else 0) + 1];
      loop := loop.(tasks := loop.tasks[a := Task(lock, Fresh(false))]);
      calls := calls[a := Call(key, lock, if timed then Waiting(false) else Direct)];
    }

    /** The task of `a` runs; a direct caller whose `lock.acquire()` ended goes on. */
    method AwaitLock(a: Id)
      requires a in loop.tasks && loop.tasks[a].lock in loop.objs
      modifies this
      ensures Now() == RunInnerStep(old(Now()), a)
    {
      loop := RunTask(loop, a);
      if a in calls && calls[a].phase == Direct {
        if loop.tasks[a].stage == Acquired {
          calls := calls[a := calls[a].(phase := Holding)];
        } else if loop.tasks[a].stage == Retracted {
          EndCall(a);
        }
      }
    }

    method RunTaskOf(a: Id)
      requires Valid() && Enabled(Now(), RunInner(a))
      modifies this
      ensures Valid() && Now() == Step(old(Now()), RunInner(a))
    {
      hide Inv;
      CallHasTask(Now(), a);
      RunInnerKeeps(Now(), a);
      AwaitLock(a);
    }

    /** `asyncio.wait` returns: success if the task is done, otherwise cancel it and await it. */
    method WaitReturns(a: Id)
      requires Valid() && Enabled(Now(), Resume(a))
      modifies this
      ensures Valid() && Now() == Step(old(Now()), Resume(a))
      ensures old(a in loop.tasks && loop.tasks[a].stage == Acquired) ==>
        calls == old(calls)[a := old(calls[a]).(phase := Holding)] && loop == old(loop) && refs == old(refs)
      ensures old(a in loop.tasks && loop.tasks[a].stage !in {Acquired, Retracted}) ==>
        && calls == old(calls)[a := old(calls[a]).(phase := Retracting)] && refs == old(refs)
        && a in loop.tasks && Doomed(loop.tasks[a].stage) && loop.objs == old(loop.objs)
    {
      hide Inv;
      CallHasTask(Now(), a);
      ResumeKeeps(Now(), a);
      CancelTaskEffect(loop, a);
      var stage := loop.tasks[a].stage;
      if stage == Acquired {
        calls := calls[a := calls[a].(phase := Holding)];
      } else if stage == Retracted {
        EndCall(a);
      } else {
        loop := CancelTask(loop, a);
        calls := calls[a := calls[a].(phase := Retracting)];
      }
    }

    /** Cancellation of the calling task is delivered. */
    method CancelCaller(a: Id)
      requires Valid() && Enabled(Now(), RequestCancel(a))
      modifies this
      ensures Valid() && Now() == Step(old(Now()), RequestCancel(a))
      ensures old(calls[a]).phase.Waiting? ==> a in calls && calls[a].phase == Waiting(true)
      ensures old(calls[a]).phase == Direct ==>
        a in calls && a in loop.tasks && (loop.tasks[a].stage == Acquired || Doomed(loop.tasks[a].stage))
    {
      hide Inv;
      CallHasTask(Now(), a);
      CancelTaskEffect(loop, a);
      RequestCancelKeeps(Now(), a);
      if calls[a].phase.Waiting? {
        calls := calls[a := calls[a].(phase := Waiting(true))];
      } else if calls[a].phase == Direct {
        loop := CancelTask(loop, a);
      }
    }

    /** The outer-cancellation branch: retract the waiter, register the callback, re-raise. */
    method WaitRaises(a: Id)
      requires Valid() && Enabled(Now(), CancelResume(a))
      modifies this
      ensures Valid() && Now() == Step(old(Now()), CancelResume(a))
      ensures calls == old(calls) - {a} && deferred == old(deferred) + {a}
      ensures a in loop.tasks && (loop.tasks[a].stage == Acquired || Doomed(loop.tasks[a].stage))
    {
      hide Inv;
      CallHasTask(Now(), a);
      CancelTaskEffect(loop, a);
      CancelResumeKeeps(Now(), a);
      loop := CancelTask(loop, a);
      deferred := deferred + {a};
      EndCall(a);
    }

    method ReleaseAcquired(a: Id)
      requires a in loop.tasks && loop.tasks[a].lock in loop.objs
      modifies this`loop
      ensures Now() == ReleaseIfAcquired(old(Now()), a)
    {
      if loop.tasks[a].stage == Acquired {
        loop := ReleaseLock(loop, loop.tasks[a].lock);
      }
    }

    /** The timed-out caller resumes and raises `TimeoutError`. */
    method RetractReturns(a: Id)
      requires Valid() && Enabled(Now(), RetractResume(a))
      modifies this
      ensures Valid() && Now() == Step(old(Now()), RetractResume(a))
    {
      hide Inv;
      CallHasTask(Now(), a);
      RetractResumeKeeps(Now(), a);
      ReleaseAcquired(a);
      EndCall(a);
    }

    /** The done-callback registered by `WaitRaises`. */
    method RunCallback(a: Id)
      requires Valid() && Enabled(Now(), Callback(a))
      modifies this
      ensures Valid() && Now() == Step(old(Now()), Callback(a))
    {
      hide Inv;
      CallHasTask(Now(), a);
      CallbackKeeps(Now(), a);
      ReleaseAcquired(a);
      deferred := deferred - {a};
    }

    /** `release` */
    method ReleaseKey(a: Id)
      requires Valid() && Enabled(Now(), Release(a))
      modifies this
      ensures Valid() && Now() == Step(old(Now()), Release(a))
    {
      hide Inv;
      CallHasTask(Now(), a);
      ReleaseKeeps(Now(), a);
      ReleaseFindsLock(Now(), a);
      var key := calls[a].key;
      if key in locks {
        var lock := locks[key];
        if lock in loop.objs && loop.objs[lock].locked {
          loop := ReleaseLock(loop, lock);
        }
      }
      EndCall(a);
    }
  }

  lemma EnterHasTask(s: State, a: Id, key: Key, timed: bool)
    requires key in s.locks ==> s.locks[key] in s.loop.objs
    ensures var t := Enter(s, a, key, timed);
      a in t.loop.tasks && t.loop.tasks[a].lock in t.loop.objs
  {
  }
}
