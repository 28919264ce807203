/** What an acquire achieves: it gets a free key, is handed a released one, or times out and is gone. */
module NamedLockProgress {
  import opened AsyncLock
  import opened NamedLocks
  import opened NamedLockTheorems
  import opened NamedLockKeys
  import opened NamedLockQuiet

  /** Everybody but `a` holds what they held. */
  ghost predicate OthersHold(s: State, t: State, a: Id) {
    forall b, k | b != a :: Holds(s, b, k) <==> Holds(t, b, k)
  }

  lemma SameCallsHold(s: State, t: State, a: Id)
    requires forall b | b != a :: (b in s.calls <==> b in t.calls) && (b in s.calls ==> s.calls[b] == t.calls[b])
    ensures OthersHold(s, t, a)
  {
  }

  lemma RunThree(s: State, e: Event, f: Event, g: Event)
    requires Inv(s)
    ensures RunFrom(s, [e, f, g]) == Next(Next(Next(s, e), f), g)
  {
    hide Inv, Next;
    assert [e, f, g] == [e, f] + [g];
    RunConcat(s, [e, f], [g]);
    RunTwo(s, e, f);
    RunOne(Next(Next(s, e), f), g);
  }

  // ------------------------------------------------------------------ the wait returns

  /** A caller whose inner acquire has completed holds its key as soon as its wait returns. */
  lemma WaitHandsOver(es: seq<Event>, a: Id)
    requires a in Run(es).calls && Run(es).calls[a].phase == Waiting(false)
    requires a in Run(es).loop.tasks && Run(es).loop.tasks[a].stage == Acquired
    ensures Enabled(Run(es), Resume(a))
    ensures Holds(Next(Run(es), Resume(a)), a, Run(es).calls[a].key)
    ensures OthersHold(Run(es), Next(Run(es), Resume(a)), a)
  {
    hide Run;
    ResumeHolds(Run(es), a);
  }

  lemma ResumeHolds(s: State, a: Id)
    requires Inv(s) && a in s.calls && s.calls[a].phase == Waiting(false)
    requires a in s.loop.tasks && s.loop.tasks[a].stage == Acquired
    ensures Enabled(s, Resume(a))
    ensures Holds(Next(s, Resume(a)), a, s.calls[a].key)
    ensures OthersHold(s, Next(s, Resume(a)), a)
  {
    hide Inv;
    var t := Next(s, Resume(a));
    assert t.calls == s.calls[a := s.calls[a].(phase := Holding)];
    SameCallsHold(s, t, a);
  }

  /**
   * A caller whose timer fires first cancels its inner acquire, waits for it and is gone: the acquire has been
   * retracted, and everybody else holds what they held.
   */
  lemma TimeoutEndsCall(es: seq<Event>, a: Id)
    requires a in Run(es).calls && Run(es).calls[a].phase == Waiting(false)
    requires a in Run(es).loop.tasks && Run(es).loop.tasks[a].stage != Acquired
    ensures var t := RunFrom(Run(es), [Resume(a), RunInner(a), RetractResume(a)]);
      t.calls.Keys == Run(es).calls.Keys - {a} && OthersHold(Run(es), t, a)
      && a in t.loop.tasks && t.loop.tasks[a].stage == Retracted && t.deferred == Run(es).deferred
  {
    hide Run, Next, RunFrom, Inv, OthersHold;
    var s := Run(es);
    var t1 := Next(s, Resume(a));
    var t2 := Next(t1, RunInner(a));
    var t3 := Next(t2, RetractResume(a));
    RunThree(s, Resume(a), RunInner(a), RetractResume(a));
    TimerFires(s, a);
    RetractingRuns(t1, a);
    RetractedLeaves(t2, a);
    assert forall b | b != a :: (b in s.calls <==> b in t3.calls) && (b in s.calls ==> s.calls[b] == t3.calls[b]);
    SameCallsHold(s, t3, a);
  }

  lemma TimerFires(s: State, a: Id)
    requires Inv(s) && a in s.calls && s.calls[a].phase == Waiting(false)
    requires a in s.loop.tasks && s.loop.tasks[a].stage != Acquired
    ensures var t := Next(s, Resume(a));
      t.calls == s.calls[a := s.calls[a].(phase := Retracting)] && t.deferred == s.deferred
      && a in t.loop.tasks && Doomed(t.loop.tasks[a].stage) && t.loop.tasks[a].stage != Retracted
  {
    NotRetracted(s, a);
    NextTimeout(s, a);
    hide Inv, Next, CancelTask, Doomed;
    CancelTaskEffect(s.loop, a);
    CancelledIsQueued(s.loop, a);
  }

  lemma NextTimeout(s: State, a: Id)
    requires Inv(s) && a in s.calls && s.calls[a].phase == Waiting(false)
    requires a in s.loop.tasks && s.loop.tasks[a].stage != Acquired && s.loop.tasks[a].stage != Retracted
    ensures Next(s, Resume(a)) == SetPhase(s.(loop := CancelTask(s.loop, a)), a, Retracting)
  {
    hide Inv, CancelTask, SetPhase, Drop, StartStep, RunInnerStep, CallbackStep, ReleaseStep, RetractResumeStep;
  }

  lemma RetractingRuns(s: State, a: Id)
    requires Inv(s) && a in s.calls && s.calls[a].phase == Retracting
    requires a in s.loop.tasks && Doomed(s.loop.tasks[a].stage) && s.loop.tasks[a].stage != Retracted
    ensures var t := Next(s, RunInner(a));
      t.calls == s.calls && t.deferred == s.deferred && a in t.loop.tasks && t.loop.tasks[a].stage == Retracted
  {
    hide Inv, LoopInv, Next, RunTask, RunEffect, Settle, Doomed, Runnable;
    CallHasTask(s, a);
    DoomedIsRunnable(s.loop.tasks[a].stage);
    NextRunInner(s, a);
    RunTaskEffect(s.loop, a);
    SettledDoomed(s, RunTask(s.loop, a), a);
  }

  lemma RetractedLeaves(s: State, a: Id)
    requires Inv(s) && a in s.calls && s.calls[a].phase == Retracting
    requires a in s.loop.tasks && s.loop.tasks[a].stage == Retracted
    ensures var t := Next(s, RetractResume(a));
      t.calls == s.calls - {a} && t.deferred == s.deferred && t.loop == s.loop
  {
    hide Inv;
    CallHasTask(s, a);
  }

  // ------------------------------------------------------------------ a free key

  /** The key has no lock, or a free one in whose queue everybody has been cancelled. */
  ghost predicate FreeKey(s: State, k: Key) {
    k in s.locks ==>
      && s.locks[k] in s.loop.objs && !s.loop.objs[s.locks[k]].locked
      && forall x | x in s.loop.objs[s.locks[k]].waiters ::
           x in s.loop.tasks && s.loop.tasks[x].stage.Queued? && s.loop.tasks[x].stage.future == Cancelled
  }

  /**
   * An acquire without a timeout gets a free key at once and no other.  With a timeout its inner task and the wait
   * come first, and the outcome is the same.
   */
  lemma FreeKeyIsGrantedIff(es: seq<Event>, a: Id, k: Key, timed: bool)
    requires Enabled(Run(es), Start(a, k, timed))
    ensures var steps := if timed then [Start(a, k, true), RunInner(a), Resume(a)] else [Start(a, k, false)];
      var t := RunFrom(Run(es), steps);
      (Holds(t, a, k) <==> FreeKey(Run(es), k)) && OthersHold(Run(es), t, a)
  {
    hide Run, RunFrom, Next, OthersHold;
    var s := Run(es);
    if timed {
      RunThree(s, Start(a, k, true), RunInner(a), Resume(a));
      TimedGrant(s, a, k);
    } else {
      RunOne(s, Start(a, k, false));
      DirectGrant(s, a, k);
    }
  }

  /** The state right after the call has entered, and its task having run there. */
  lemma EnteredTask(s: State, a: Id, k: Key, timed: bool)
    requires Inv(s) && Enabled(s, Start(a, k, timed))
    ensures var t := Enter(s, a, k, timed);
      a in t.calls && t.calls == s.calls[a := t.calls[a]] && t.calls[a].key == k
      && t.calls[a].phase == (if timed then Waiting(false) else Direct)
      && a in t.loop.tasks && t.loop.tasks[a].stage == Fresh(false) && t.loop.tasks[a].lock in t.loop.objs
      && RunTask(t.loop, a).tasks.Keys == t.loop.tasks.Keys
      && RunTask(t.loop, a).tasks[a].stage == (if FreeKey(s, k) then Acquired else Queued(Pending, false))
  {
    hide Inv, RunTask, FreeKey, AllCancelled;
    KeyHasLock(s, k);
    FreeAfterEnter(s, a, k, timed);
    FreshRuns(Enter(s, a, k, timed).loop, a);
  }

  lemma FreeAfterEnter(s: State, a: Id, k: Key, timed: bool)
    requires Inv(s) && Enabled(s, Start(a, k, timed))
    ensures var c := Enter(s, a, k, timed).loop;
      && a in c.tasks && c.tasks[a].lock in c.objs
      && (FreeKey(s, k) <==> !c.objs[c.tasks[a].lock].locked && AllCancelled(c, c.objs[c.tasks[a].lock].waiters))
  {
    KeyHasLock(s, k);
    if k in s.locks { OldTasks(s, k); }
    hide Inv;
    var c := Enter(s, a, k, timed).loop;
    if k in s.locks {
      var w := s.loop.objs[s.locks[k]].waiters;
      assert c.objs == s.loop.objs && c.tasks[a].lock == s.locks[k];
      AllCancelledIn(c, w);
    }
  }

  lemma AllCancelledIn(c: Loop, w: seq<Id>)
    ensures AllCancelled(c, w) <==>
      forall x | x in w :: x in c.tasks && c.tasks[x].stage.Queued? && c.tasks[x].stage.future == Cancelled
  {
    if AllCancelled(c, w) {
      forall x | x in w ensures x in c.tasks && c.tasks[x].stage.Queued? && c.tasks[x].stage.future == Cancelled {
        var i :| 0 <= i < |w| && w[i] == x;
      }
    }
  }

  lemma FreshRuns(c: Loop, a: Id)
    requires a in c.tasks && c.tasks[a].stage == Fresh(false) && c.tasks[a].lock in c.objs
    ensures var lock := c.objs[c.tasks[a].lock];
      RunTask(c, a).tasks.Keys == c.tasks.Keys
      && RunTask(c, a).tasks[a].stage
         == (if !lock.locked && AllCancelled(c, lock.waiters) then Acquired else Queued(Pending, false))
  {
    hide AllCancelled;
  }

  lemma OldTasks(s: State, k: Key)
    requires Inv(s) && k in s.locks && s.locks[k] in s.loop.objs
    ensures forall x | x in s.loop.objs[s.locks[k]].waiters :: x in s.loop.tasks
  {
    var w := s.loop.objs[s.locks[k]].waiters;
    assert QueueOk(s.loop, s.locks[k]);
    forall i | 0 <= i < |w| ensures w[i] in s.loop.tasks {
      assert IsQueued(s.loop, s.locks[k], w[i]);
    }
  }

  lemma DirectGrant(s: State, a: Id, k: Key)
    requires Inv(s) && Enabled(s, Start(a, k, false))
    ensures var t := Next(s, Start(a, k, false));
      (Holds(t, a, k) <==> FreeKey(s, k)) && OthersHold(s, t, a)
  {
    hide Inv, Enter, RunTask, FreeKey;
    KeyHasLock(s, k);
    EnteredTask(s, a, k, false);
    var t := Next(s, Start(a, k, false));
    assert t.calls == s.calls[a := t.calls[a]];
    SameCallsHold(s, t, a);
  }

  lemma TimedGrant(s: State, a: Id, k: Key)
    requires Inv(s) && Enabled(s, Start(a, k, true))
    ensures var t := Next(Next(Next(s, Start(a, k, true)), RunInner(a)), Resume(a));
      (Holds(t, a, k) <==> FreeKey(s, k)) && OthersHold(s, t, a)
  {
    hide Inv, Enter, RunTask, FreeKey, Settle, ResumeStep, OthersHold;
    KeyHasLock(s, k);
    EnteredTask(s, a, k, true);
    var t1 := Next(s, Start(a, k, true));
    assert t1 == Enter(s, a, k, true);
    var t2 := Next(t1, RunInner(a));
    NextRunInner(t1, a);
    WaitingSettles(t1.(loop := RunTask(t1.loop, a)), a);
    assert t2.calls == t1.calls;
    SameCallsHold(s, t2, a);
    var t3 := Next(t2, Resume(a));
    if FreeKey(s, k) { ResumeHolds(t2, a); } else { QueuedTimesOut(t2, a, k); }
    ChainHold(s, t2, t3, a);
  }

  lemma QueuedTimesOut(s: State, a: Id, k: Key)
    requires Inv(s) && a in s.calls && s.calls[a].phase == Waiting(false)
    requires a in s.loop.tasks && s.loop.tasks[a].stage.Queued?
    ensures !Holds(Next(s, Resume(a)), a, k) && OthersHold(s, Next(s, Resume(a)), a)
  {
    hide Inv, Next;
    TimerFires(s, a);
    SameCallsHold(s, Next(s, Resume(a)), a);
  }

  lemma ChainHold(s: State, t: State, u: State, a: Id)
    requires OthersHold(s, t, a) && OthersHold(t, u, a)
    ensures OthersHold(s, u, a)
  {
  }

  lemma WaitingSettles(s: State, a: Id)
    requires a in s.loop.tasks && a in s.calls && s.calls[a].phase != Direct
    ensures Settle(s, a) == s
  {
  }

  /** Whoever does not get the key goes to the end of the queue of its lock, and nobody in front is overtaken. */
  lemma OthersQueueLast(es: seq<Event>, a: Id, k: Key)
    requires Enabled(Run(es), Start(a, k, false)) && !FreeKey(Run(es), k)
    ensures var s, t := Run(es), Next(Run(es), Start(a, k, false));
      && a in t.calls && t.calls[a].phase == Direct
      && k in s.locks && s.locks[k] in s.loop.objs && s.locks[k] in t.loop.objs
      && t.loop.objs[s.locks[k]] == s.loop.objs[s.locks[k]].(waiters := s.loop.objs[s.locks[k]].waiters + [a])
      && forall x | x in s.loop.tasks :: x in t.loop.tasks && t.loop.tasks[x] == s.loop.tasks[x]
  {
    hide Run, Inv, Enter, RunTask, FreeKey;
    var s := Run(es);
    KeyHasLock(s, k);
    EnteredTask(s, a, k, false);
    KeyOfUnfree(s, k);
    QueuesLast(s, a, k);
  }

  lemma KeyOfUnfree(s: State, k: Key)
    requires !FreeKey(s, k)
    ensures k in s.locks
  {
  }

  lemma QueuesLast(s: State, a: Id, k: Key)
    requires k in s.locks && s.locks[k] in s.loop.objs && a !in s.loop.tasks
    requires a in Enter(s, a, k, false).loop.tasks
    requires Enter(s, a, k, false).loop.tasks[a].lock in Enter(s, a, k, false).loop.objs
    requires RunTask(Enter(s, a, k, false).loop, a).tasks[a].stage == Queued(Pending, false)
    ensures var lock := s.loop.objs[s.locks[k]];
      var c := RunTask(Enter(s, a, k, false).loop, a);
      && c.objs == s.loop.objs[s.locks[k] := lock.(waiters := lock.waiters + [a])]
      && forall x | x in s.loop.tasks :: x in c.tasks && c.tasks[x] == s.loop.tasks[x]
  {
  }

  // ------------------------------------------------------------------ a cancelled caller

  /** A cancelled caller is gone at its next step; its inner task is left to the callback, and nobody else notices. */
  lemma CancelledCallerLeaves(es: seq<Event>, a: Id)
    requires a in Run(es).calls && Run(es).calls[a].phase.Waiting?
    ensures var t := RunFrom(Run(es), [RequestCancel(a), CancelResume(a)]);
      t.calls.Keys == Run(es).calls.Keys - {a} && t.deferred == Run(es).deferred + {a} && OthersHold(Run(es), t, a)
  {
    hide Run, RunFrom, Inv;
    var s := Run(es);
    RunTwo(s, RequestCancel(a), CancelResume(a));
    CallHasTask(s, a);
    var t := Next(s, RequestCancel(a));
    assert t.calls == s.calls[a := s.calls[a].(phase := Waiting(true))] && t.deferred == s.deferred;
    CallHasTask(t, a);
    var u := Next(t, CancelResume(a));
    assert u.calls == t.calls - {a};
    SameCallsHold(s, u, a);
  }

  /** The callback of a task that acquired frees the lock; of one that did not, it leaves every lock as it is. */
  lemma CallbackFreesLock(es: seq<Event>, a: Id, l: LockId)
    requires Enabled(Run(es), Callback(a))
    ensures var s, t := Run(es), Next(Run(es), Callback(a));
      t.calls == s.calls && t.deferred == s.deferred - {a}
      && (Locked(t, l) <==> Locked(s, l) && !(s.loop.tasks[a].stage == Acquired && s.loop.tasks[a].lock == l))
  {
    hide Run, Inv;
    var s := Run(es);
    CallHasTask(s, a);
    CallbackEnds(s, a);
    FreesOne(s, a, l);
  }

  lemma FreesOne(s: State, a: Id, l: LockId)
    requires a in s.loop.tasks && s.loop.tasks[a].lock in s.loop.objs
    ensures Locked(ReleaseIfAcquired(s, a), l)
      <==> Locked(s, l) && !(s.loop.tasks[a].stage == Acquired && s.loop.tasks[a].lock == l)
  {
  }

  /** The end of a body frees the lock of its key and no other, and the last user of a key takes the key along. */
  lemma ReleaseFreesKey(es: seq<Event>, h: Id, k: Key, l: LockId)
    requires Holds(Run(es), h, k)
    ensures var s, t := Run(es), Next(Run(es), Release(h));
      t.calls == s.calls - {h} && t.deferred == s.deferred && k in s.locks
      && (Locked(t, l) <==> Locked(s, l) && l != s.locks[k])
      && ((k in t.locks && k in t.refs) <==> exists b :: b != h && b in s.calls && s.calls[b].key == k)
  {
    hide Run, Inv, Next, RefsOk, TableOk;
    var s := Run(es);
    var t := Next(s, Release(h));
    ReleaseParts(s, h);
    FreesOne(s, h, l);
    assert t.loop == ReleaseIfAcquired(s, h).loop;
    hide ReleaseIfAcquired, Locked;
    KeyIsUsed(t, k);
    if b :| b != h && b in s.calls && s.calls[b].key == k { assert b in t.calls && t.calls[b].key == k; }
  }

  lemma KeyIsUsed(s: State, k: Key)
    requires RefsOk(s) && TableOk(s)
    ensures k in s.refs <==> exists b :: b in s.calls && s.calls[b].key == k
    ensures k in s.refs ==> k in s.locks
  {
    if b :| b in s.calls && s.calls[b].key == k { assert b in Users(s.calls, k); }
    if k in s.refs { var b :| b in Users(s.calls, k); }
  }

  lemma ReleaseParts(s: State, h: Id)
    requires Inv(s) && h in s.calls && s.calls[h].phase == Holding
    ensures var k := s.calls[h].key; var t := Next(s, Release(h));
      k in s.locks && h in s.loop.tasks && s.loop.tasks[h].lock == s.locks[k] && s.locks[k] in s.loop.objs
      && s.loop.tasks[h].stage == Acquired && t.loop == ReleaseIfAcquired(s, h).loop
      && t.calls == s.calls - {h} && t.deferred == s.deferred && RefsOk(t) && TableOk(t)
  {
    HoldingFacts(s, h);
    InvTables(Next(s, Release(h)));
    CallHasTask(s, h);
    NextRelease(s, h);
    hide Inv, Next, ReleaseIfAcquired, RefsOk, TableOk, Drop;
    OnlyLoop(s, h);
    DropKeepsLoop(ReleaseIfAcquired(s, h), h);
  }

  lemma NextRelease(s: State, h: Id)
    requires Inv(s) && h in s.calls && s.calls[h].phase == Holding
    requires h in s.loop.tasks && s.loop.tasks[h].lock in s.loop.objs
    ensures h in ReleaseIfAcquired(s, h).calls && Next(s, Release(h)) == Drop(ReleaseIfAcquired(s, h), h)
  {
    hide Inv, ReleaseIfAcquired, Drop, StartStep, RunInnerStep, CallbackStep, ReleaseStep, RetractResumeStep;
    OnlyLoop(s, h);
    HolderReleases(s, h);
  }

  lemma HoldingFacts(s: State, h: Id)
    requires Inv(s) && h in s.calls && s.calls[h].phase == Holding
    ensures h in s.loop.tasks && s.loop.tasks[h].stage == Acquired
    ensures s.calls[h].key in s.locks && s.locks[s.calls[h].key] == s.loop.tasks[h].lock
  {
    assert TaskOk(s, h);
  }

  lemma OnlyLoop(s: State, a: Id)
    requires a in s.loop.tasks && s.loop.tasks[a].lock in s.loop.objs
    ensures ReleaseIfAcquired(s, a) == s.(loop := ReleaseIfAcquired(s, a).loop)
  {
  }

  // ------------------------------------------------------------------ a released key

  /** `a` is the first in the queue of the lock of `k`, undisturbed, and has neither been cancelled nor timed out. */
  ghost predicate FirstInLine(s: State, a: Id, k: Key) {
    && a in s.calls && s.calls[a].key == k && s.calls[a].phase in {Waiting(false), Direct}
    && a in s.loop.tasks && s.loop.tasks[a].stage == Queued(Pending, false)
    && k in s.locks && s.locks[k] in s.loop.objs
    && s.loop.objs[s.locks[k]].waiters != [] && s.loop.objs[s.locks[k]].waiters[0] == a
  }

  /** `a` holds the key, the call of `h` is over, and everybody else holds what they held. */
  ghost predicate HandedOver(s: State, t: State, h: Id, a: Id, k: Key) {
    Holds(t, a, k) && h !in t.calls && forall b, j | b != a && b != h :: Holds(s, b, j) <==> Holds(t, b, j)
  }

  /** The release of a key hands it to the first in line. */
  lemma ReleaseHandsOver(es: seq<Event>, h: Id, a: Id, k: Key)
    requires Holds(Run(es), h, k) && FirstInLine(Run(es), a, k)
    ensures var s := Run(es);
      var t := RunFrom(s, [Release(h), RunInner(a)] + (if s.calls[a].phase == Direct then [] else [Resume(a)]));
      HandedOver(s, t, h, a, k)
  {
    hide Run, RunFrom, Next, FirstInLine, Holds, HandedOver, Inv;
    var s := Run(es);
    FirstFacts(s, h, a, k);
    var t1, t2 := Next(s, Release(h)), Next(Next(s, Release(h)), RunInner(a));
    Wakes(s, h, a, k);
    WokenRuns(t1, a);
    if s.calls[a].phase == Direct {
      assert [Release(h), RunInner(a)] + [] == [Release(h), RunInner(a)];
      RunTwo(s, Release(h), RunInner(a));
      HoldsByCalls(s, t2, h, a, k);
    } else {
      assert [Release(h), RunInner(a)] + [Resume(a)] == [Release(h), RunInner(a), Resume(a)];
      RunThree(s, Release(h), RunInner(a), Resume(a));
      ResumeCalls(t2, a);
      HoldsByCalls(s, Next(t2, Resume(a)), h, a, k);
    }
  }

  lemma FirstFacts(s: State, h: Id, a: Id, k: Key)
    requires Inv(s) && Holds(s, h, k) && FirstInLine(s, a, k)
    ensures a in s.calls && s.calls[a].key == k && s.calls[a].phase in {Waiting(false), Direct}
    ensures h in s.calls && h != a && Enabled(s, Release(h)) && a in s.loop.tasks && s.loop.tasks[a].lock in s.loop.objs
  {
    hide Inv;
    CallHasTask(s, a);
  }

  lemma HoldsByCalls(s: State, t: State, h: Id, a: Id, k: Key)
    requires h in s.calls && a in s.calls && h != a && s.calls[a].key == k
    requires t.calls == (s.calls - {h})[a := s.calls[a].(phase := Holding)]
    ensures HandedOver(s, t, h, a, k)
  {
  }

  lemma Wakes(s: State, h: Id, a: Id, k: Key)
    requires Inv(s) && Holds(s, h, k) && FirstInLine(s, a, k)
    ensures var t := Next(s, Release(h));
      t.calls == s.calls - {h} && a in t.loop.tasks && t.loop.tasks[a].stage == Queued(Woken, false)
  {
    hide Inv, ReleaseLock, Drop;
    assert Enabled(s, Release(h)) by { FirstFacts(s, h, a, k); }
    ReleaseFindsLock(s, h);
    HolderReleases(s, h);
    var l := s.loop.tasks[h].lock;
    FirstWakes(s.loop, l, a);
    DropKeepsLoop(ReleaseIfAcquired(s, h), h);
  }

  lemma FirstWakes(c: Loop, l: LockId, a: Id)
    requires l in c.objs && c.objs[l].waiters != [] && c.objs[l].waiters[0] == a
    requires a in c.tasks && c.tasks[a].stage == Queued(Pending, false)
    ensures a in ReleaseLock(c, l).tasks && ReleaseLock(c, l).tasks[a].stage == Queued(Woken, false)
  {
  }

  lemma DropKeepsLoop(s: State, a: Id)
    requires a in s.calls
    ensures Drop(s, a).calls == s.calls - {a} && Drop(s, a).loop == s.loop && Drop(s, a).deferred == s.deferred
  {
  }

  lemma WokenRuns(s: State, a: Id)
    requires Inv(s) && a in s.calls && a in s.loop.tasks && s.loop.tasks[a].stage == Queued(Woken, false)
    ensures var t := Next(s, RunInner(a));
      a in t.loop.tasks && t.loop.tasks[a].stage == Acquired
      && t.calls == if s.calls[a].phase == Direct then s.calls[a := s.calls[a].(phase := Holding)] else s.calls
  {
    hide Inv;
    CallHasTask(s, a);
  }

  lemma ResumeCalls(s: State, a: Id)
    requires Inv(s) && a in s.calls && s.calls[a].phase == Waiting(false)
    requires a in s.loop.tasks && s.loop.tasks[a].stage == Acquired
    ensures Next(s, Resume(a)).calls == s.calls[a := s.calls[a].(phase := Holding)]
  {
    hide Inv;
  }
}
