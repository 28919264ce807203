/** From every reachable state the named-lock table can come to rest. */
module NamedLockQuiet {
  import opened AsyncLock
  import opened NamedLocks
  import opened NamedLockTheorems
  import opened NamedLockKeys

  lemma {:induction false} RunConcat(s: State, es: seq<Event>, fs: seq<Event>)
    requires Inv(s)
    ensures RunFrom(s, es + fs) == RunFrom(RunFrom(s, es), fs)
    decreases |es|
  {
    hide Inv, Next;
    if es == [] {
      assert es + fs == fs;
    } else {
      assert (es + fs)[1..] == es[1..] + fs;
      RunConcat(Next(s, es[0]), es[1..], fs);
    }
  }

  lemma RunOne(s: State, e: Event)
    requires Inv(s)
    ensures RunFrom(s, [e]) == Next(s, e)
  {
    hide Inv, Next;
    assert [e][1..] == [];
  }

  lemma RunTwo(s: State, e: Event, f: Event)
    requires Inv(s)
    ensures RunFrom(s, [e, f]) == Next(Next(s, e), f)
  {
    hide Inv, Next;
    assert [e, f] == [e] + [f];
    RunConcat(s, [e], [f]);
    RunOne(s, e);
    RunOne(Next(s, e), f);
  }

  // ------------------------------------------------------------------ a doomed task ends with its next step

  lemma DoomedRuns(s: State, a: Id)
    requires Inv(s) && a in s.loop.tasks && Doomed(s.loop.tasks[a].stage) && s.loop.tasks[a].stage != Retracted
    ensures Enabled(s, RunInner(a))
    ensures var t := Next(s, RunInner(a));
      a in t.loop.tasks && t.loop.tasks[a].stage == Retracted && t.deferred == s.deferred
      && t.calls.Keys == (if a in s.calls && s.calls[a].phase == Direct then s.calls.Keys - {a} else s.calls.Keys)
      && (a in s.calls && s.calls[a].phase != Direct ==> t.calls[a] == s.calls[a])
  {
    hide Inv, LoopInv, Next, RunTask, RunEffect, Settle, Doomed, Runnable;
    CallHasTask(s, a);
    DoomedIsRunnable(s.loop.tasks[a].stage);
    NextRunInner(s, a);
    RunTaskEffect(s.loop, a);
    SettledDoomed(s, RunTask(s.loop, a), a);
  }

  lemma DoomedIsRunnable(t: Stage)
    requires Doomed(t) && t != Retracted
    ensures Runnable(t)
  {
  }

  lemma NextRunInner(s: State, a: Id)
    requires Inv(s) && a in s.loop.tasks && Runnable(s.loop.tasks[a].stage)
    requires s.loop.tasks[a].lock in s.loop.objs
    ensures Next(s, RunInner(a)) == RunInnerStep(s, a) && LoopInv(s.loop)
  {
    assert LoopInv(s.loop);
    hide Inv, LoopInv, RunInnerStep;
  }

  lemma SettledDoomed(s: State, d: Loop, a: Id)
    requires a in s.loop.tasks && s.loop.tasks[a].lock in s.loop.objs && Doomed(s.loop.tasks[a].stage)
    requires RunEffect(s.loop, d, a, s.loop.tasks[a].lock)
    ensures var t := Settle(s.(loop := d), a);
      t.loop == d && a in d.tasks && d.tasks[a].stage == Retracted && t.deferred == s.deferred
      && t.calls == (if a in s.calls && s.calls[a].phase == Direct then s.calls - {a} else s.calls)
  {
  }

  // ------------------------------------------------------------------ one call, one callback

  /** Cancelling the caller's task and letting it go on ends the call. */
  lemma CloseCall(s: State, a: Id) returns (es: seq<Event>)
    requires Inv(s) && a in s.calls
    ensures RunFrom(s, es).calls.Keys == s.calls.Keys - {a} && RunFrom(s, es).deferred <= s.deferred + {a}
  {
    hide Inv, Next, RunFrom;
    match s.calls[a].phase {
      case Holding => es := [Release(a)]; RunOne(s, Release(a)); ReleaseEnds(s, a);
      case Waiting(cancelled) => es := CloseWaiting(s, a);
      case Retracting => es := CloseRetracting(s, a);
      case Direct => es := CloseDirect(s, a);
    }
  }

  lemma ReleaseEnds(s: State, a: Id)
    requires Inv(s) && Enabled(s, Release(a))
    ensures Next(s, Release(a)).calls.Keys == s.calls.Keys - {a} && Next(s, Release(a)).deferred == s.deferred
  {
    hide Inv;
    HolderReleases(s, a);
  }

  lemma CloseWaiting(s: State, a: Id) returns (es: seq<Event>)
    requires Inv(s) && a in s.calls && s.calls[a].phase.Waiting?
    ensures RunFrom(s, es).calls.Keys == s.calls.Keys - {a} && RunFrom(s, es).deferred <= s.deferred + {a}
  {
    hide Inv;
    CallHasTask(s, a);
    es := [RequestCancel(a), CancelResume(a)];
    RunTwo(s, es[0], es[1]);
    var t := Next(s, RequestCancel(a));
    assert t.calls.Keys == s.calls.Keys && t.calls[a].phase == Waiting(true) && t.deferred == s.deferred;
    CallHasTask(t, a);
  }

  lemma CloseRetracting(s: State, a: Id) returns (es: seq<Event>)
    requires Inv(s) && a in s.calls && s.calls[a].phase == Retracting
    ensures RunFrom(s, es).calls.Keys == s.calls.Keys - {a} && RunFrom(s, es).deferred <= s.deferred + {a}
  {
    RetractingIsDoomed(s, a);
    hide Inv;
    if s.loop.tasks[a].stage == Retracted {
      es := [RetractResume(a)];
      RunOne(s, es[0]);
      RetractEnds(s, a);
    } else {
      es := [RunInner(a), RetractResume(a)];
      DoomedRuns(s, a);
      RunTwo(s, es[0], es[1]);
      RetractEnds(Next(s, RunInner(a)), a);
    }
  }

  lemma RetractingIsDoomed(s: State, a: Id)
    requires Inv(s) && a in s.calls && s.calls[a].phase == Retracting
    ensures a in s.loop.tasks && Doomed(s.loop.tasks[a].stage)
  {
    assert TaskOk(s, a);
  }

  lemma RetractEnds(s: State, a: Id)
    requires Inv(s) && a in s.calls && s.calls[a].phase == Retracting
    requires a in s.loop.tasks && s.loop.tasks[a].stage == Retracted
    ensures Next(s, RetractResume(a)).calls.Keys == s.calls.Keys - {a}
    ensures Next(s, RetractResume(a)).deferred == s.deferred
  {
    hide Inv;
    CallHasTask(s, a);
  }

  lemma CloseDirect(s: State, a: Id) returns (es: seq<Event>)
    requires Inv(s) && a in s.calls && s.calls[a].phase == Direct
    ensures RunFrom(s, es).calls.Keys == s.calls.Keys - {a} && RunFrom(s, es).deferred <= s.deferred + {a}
  {
    es := [RequestCancel(a), RunInner(a)];
    DirectIsDoomed(s, a);
    hide Inv;
    RunTwo(s, es[0], es[1]);
    DoomedRuns(Next(s, RequestCancel(a)), a);
  }

  lemma DirectIsDoomed(s: State, a: Id)
    requires Inv(s) && a in s.calls && s.calls[a].phase == Direct
    ensures var t := Next(s, RequestCancel(a));
      a in t.loop.tasks && Doomed(t.loop.tasks[a].stage) && t.loop.tasks[a].stage != Retracted
      && t.calls == s.calls && t.deferred == s.deferred
  {
    CallHasTask(s, a);
    DirectStage(s, a);
    NextCancel(s, a);
    hide Inv, Next, CancelTask;
    CancelTaskEffect(s.loop, a);
    CancelledIsQueued(s.loop, a);
  }

  lemma DirectStage(s: State, a: Id)
    requires Inv(s) && a in s.calls && s.calls[a].phase == Direct
    ensures a in s.loop.tasks && s.loop.tasks[a].stage != Acquired && s.loop.tasks[a].stage != Retracted
  {
    assert TaskOk(s, a);
  }

  lemma NextCancel(s: State, a: Id)
    requires Inv(s) && a in s.calls && s.calls[a].phase == Direct && a in s.loop.tasks
    ensures Next(s, RequestCancel(a)) == s.(loop := CancelTask(s.loop, a))
  {
    hide Inv, CancelTask;
  }

  lemma CancelledIsQueued(c: Loop, a: Id)
    requires a in c.tasks && c.tasks[a].stage != Retracted
    ensures CancelTask(c, a).tasks[a].stage != Retracted
  {
  }

  /** A pending callback runs as soon as its task has ended. */
  lemma RunCallback(s: State, a: Id) returns (es: seq<Event>)
    requires Inv(s) && a in s.deferred
    ensures RunFrom(s, es).calls.Keys == s.calls.Keys && RunFrom(s, es).deferred == s.deferred - {a}
  {
    hide Inv, Next, Doomed, Runnable, RunFrom;
    DeferredIsOver(s, a);
    DeferredStage(s, a);
    if s.loop.tasks[a].stage == Acquired || s.loop.tasks[a].stage == Retracted {
      es := [Callback(a)];
      RunOne(s, es[0]);
      CallbackEnds(s, a);
    } else {
      es := [RunInner(a), Callback(a)];
      DoomedRuns(s, a);
      RunTwo(s, es[0], es[1]);
      CallbackEnds(Next(s, RunInner(a)), a);
    }
  }

  lemma DeferredStage(s: State, a: Id)
    requires Inv(s) && a in s.deferred
    ensures a in s.loop.tasks && (Doomed(s.loop.tasks[a].stage) || s.loop.tasks[a].stage == Acquired)
  {
    assert a !in s.calls && TaskOk(s, a);
  }

  lemma CallbackEnds(s: State, a: Id)
    requires Inv(s) && Enabled(s, Callback(a))
    ensures Next(s, Callback(a)).calls == s.calls && Next(s, Callback(a)).deferred == s.deferred - {a}
  {
    hide Inv;
    CallHasTask(s, a);
  }

  // ------------------------------------------------------------------ rest

  /** Some continuation of every reachable state ends with no call open and no callback pending. */
  lemma {:induction false} QuietIsReachable(s: State) returns (es: seq<Event>)
    requires Inv(s)
    ensures RunFrom(s, es).calls == map[] && RunFrom(s, es).deferred == {}
    decreases |s.calls.Keys|, |s.deferred|
  {
    hide Inv;
    if s.calls.Keys != {} {
      var a :| a in s.calls.Keys;
      var first := CloseCall(s, a);
      var t := RunFrom(s, first);
      var rest := QuietIsReachable(t);
      es := first + rest;
      RunConcat(s, first, rest);
    } else if s.deferred != {} {
      var a :| a in s.deferred;
      var first := RunCallback(s, a);
      var rest := QuietIsReachable(RunFrom(s, first));
      es := first + rest;
      RunConcat(s, first, rest);
    } else {
      es := [];
    }
  }

  /** From there nothing is locked: the theorem on quiet states is never empty. */
  lemma EveryRunCanComeToRest(es: seq<Event>) returns (more: seq<Event>)
    ensures Run(es + more).calls == map[] && Run(es + more).deferred == {}
    ensures Run(es + more).refs == map[] && forall l :: !Locked(Run(es + more), l)
  {
    hide Inv;
    EmptyInv();
    more := QuietIsReachable(Run(es));
    RunConcat(EMPTY, es, more);
    forall l ensures !Locked(Run(es + more), l) { QuietMeansUnlocked(es + more, l); }
    QuietMeansUnlocked(es + more, 0);
  }
}
