/** Which keys the lock table keeps, and when it keeps one that nobody refers to. */
module NamedLockKeys {
  import opened AsyncLock
  import opened NamedLocks
  import opened NamedLockTheorems

  /** The caller of `e` resumes cancelled or timed out, or its own `lock.acquire()` runs after a cancel. */
  predicate GivesUp(s: State, e: Event) {
    Enabled(s, e)
    && (e.CancelResume? || e.RetractResume?
        || (e.RunInner? && e.a in s.calls && s.calls[e.a].phase == Direct && Doomed(s.loop.tasks[e.a].stage)))
  }

  /** `_decref` reaches zero while the lock is locked: the guard that keeps a key in `_locks`. */
  predicate Strands(s: State, e: Event) {
    GivesUp(s, e) && s.calls[e.a].key in s.refs && s.refs[s.calls[e.a].key] == 1 && Locked(s, s.calls[e.a].lock)
  }

  /** The key whose inner acquire had completed when its cancelled caller gave up. */
  function LateKeys(s: State, e: Event): set<Key>
    requires Inv(s)
  {
    if e.CancelResume? && Enabled(s, e) && s.loop.tasks[e.a].stage == Acquired then {s.calls[e.a].key} else {}
  }

  function LateKeysOf(s: State, es: seq<Event>): set<Key>
    requires Inv(s)
    decreases |es|
  {
    hide Inv;
    if es == [] then {} else LateKeys(s, es[0]) + LateKeysOf(Next(s, es[0]), es[1..])
  }

  /** The same for the run of `es`. */
  function RunLateKeys(es: seq<Event>): set<Key> {
    EmptyInv();
    LateKeysOf(EMPTY, es)
  }

  ghost predicate SameKeys(s: State) { s.locks.Keys == s.refs.Keys }

  lemma DropKeys(s: State, a: Id)
    requires RefsOk(s) && TableOk(s) && a in s.calls
    ensures var k := s.calls[a].key; k in s.refs && k in s.locks && s.refs[k] >= 1
    ensures var k := s.calls[a].key; var t := Drop(s, a);
      if s.refs[k] > 1 then t.refs.Keys == s.refs.Keys && t.locks == s.locks
      else if Locked(s, s.calls[a].lock) then t.refs.Keys == s.refs.Keys - {k} && t.locks == s.locks
      else t.refs.Keys == s.refs.Keys - {k} && t.locks.Keys == s.locks.Keys - {k}
  {
    assert a in Users(s.calls, s.calls[a].key);
  }

  /** What a step does to the two key sets. */
  ghost predicate KeysMove(s: State, t: State, k: Key, gone: bool, kept: bool) {
    && t.refs.Keys == (if gone then s.refs.Keys - {k} else s.refs.Keys)
    && t.locks.Keys == (if gone && !kept then s.locks.Keys - {k} else s.locks.Keys)
  }

  /** Starting a call adds its key to both tables. */
  lemma StartKeys(s: State, a: Id, k: Key, timed: bool)
    requires Inv(s) && Enabled(s, Start(a, k, timed))
    ensures StartStep(s, a, k, timed).refs.Keys == s.refs.Keys + {k}
    ensures StartStep(s, a, k, timed).locks.Keys == s.locks.Keys + {k}
  {
    hide Inv;
    EnterKeepsInv(s, a, k, timed);
    var s1 := Enter(s, a, k, timed);
    assert s1.refs.Keys == s.refs.Keys + {k} && s1.locks.Keys == s.locks.Keys + {k};
    CallHasTask(s1, a);
    if !timed { FreshDirectStays(s1, a); }
  }

  lemma FreshDirectStays(s: State, a: Id)
    requires a in s.loop.tasks && s.loop.tasks[a].stage == Fresh(false) && s.loop.tasks[a].lock in s.loop.objs
    ensures RunInnerStep(s, a).refs == s.refs && RunInnerStep(s, a).locks == s.locks
  {
  }

  /** A direct caller that runs keeps its key or gives up on a lock it does not own. */
  lemma RunInnerKeys(s: State, a: Id)
    requires Inv(s) && Enabled(s, RunInner(a))
    ensures s.loop.tasks[a].lock in s.loop.objs
    ensures var t := RunInnerStep(s, a);
      if a in s.calls && a !in t.calls then
        var k := s.calls[a].key;
        k in s.refs && KeysMove(s, t, k, s.refs[k] == 1, Locked(s, s.calls[a].lock))
      else t.refs == s.refs && t.locks == s.locks
  {
    RunTaskEffect(s.loop, a);
    var s1 := s.(loop := RunTask(s.loop, a));
    RunInnerTable(s, s1, a);
  }

  lemma RunInnerTable(s: State, s1: State, a: Id)
    requires TopInv(s) && a in s.loop.tasks && s.loop.tasks[a].lock in s.loop.objs
    requires s1 == s.(loop := s1.loop) && RunEffect(s.loop, s1.loop, a, s.loop.tasks[a].lock)
    ensures var t := Settle(s1, a);
      if a in s.calls && a !in t.calls then
        var k := s.calls[a].key;
        k in s.refs && KeysMove(s, t, k, s.refs[k] == 1, Locked(s, s.calls[a].lock))
      else t.refs == s.refs && t.locks == s.locks
  {
    if a in s.calls && s.calls[a].phase == Direct && s1.loop.tasks[a].stage == Retracted {
      SameTableKeeps(s, s1);
      DropKeys(s1, a);
    }
  }

  /** Every step keeps the key sets equal unless it strands a key. */
  lemma StepKeys(s: State, e: Event)
    requires Inv(s) && Enabled(s, e)
    ensures var t := Step(s, e);
      && (e.Start? ==> t.refs.Keys == s.refs.Keys + {e.key} && t.locks.Keys == s.locks.Keys + {e.key})
      && (!e.Start? && (e.a !in s.calls || e.a in t.calls) ==> t.refs == s.refs && t.locks == s.locks)
      && (!e.Start? && e.a in s.calls && e.a !in t.calls ==>
            var k := s.calls[e.a].key;
            k in s.refs && KeysMove(s, t, k, s.refs[k] == 1, !e.Release? && Locked(s, s.calls[e.a].lock)))
  {
    hide Inv;
    match e
    case Start(a, k, timed) => StartKeys(s, a, k, timed);
    case RunInner(a) => RunInnerKeys(s, a);
    case Resume(a) => ResumeKeys(s, a);
    case RequestCancel(a) => CallHasTask(s, a);
    case CancelResume(a) => CancelResumeKeys(s, a);
    case RetractResume(a) => RetractKeys(s, a);
    case Callback(a) => CallbackKeys(s, a);
    case Release(a) => ReleaseKeys(s, a);
  }

  lemma ResumeKeys(s: State, a: Id)
    requires Inv(s) && Enabled(s, Resume(a))
    ensures a in s.loop.tasks && a in ResumeStep(s, a).calls
    ensures ResumeStep(s, a).refs == s.refs && ResumeStep(s, a).locks == s.locks
  {
    hide Inv;
    NotRetracted(s, a);
  }

  lemma NotRetracted(s: State, a: Id)
    requires Inv(s) && a in s.calls && s.calls[a].phase == Waiting(false)
    ensures a in s.loop.tasks && s.loop.tasks[a].stage != Retracted
  {
    assert TaskOk(s, a);
  }

  lemma CancelResumeKeys(s: State, a: Id)
    requires Inv(s) && Enabled(s, CancelResume(a))
    ensures a in s.loop.tasks && s.calls[a].key in s.refs && a !in CancelResumeStep(s, a).calls
    ensures KeysMove(s, CancelResumeStep(s, a), s.calls[a].key, s.refs[s.calls[a].key] == 1, Locked(s, s.calls[a].lock))
  {
    hide Inv, RefsOk, TableOk, CancelTask;
    InvTables(s);
    CallHasTask(s, a);
    var s1 := s.(loop := CancelTask(s.loop, a));
    CancelTaskEffect(s.loop, a);
    SameTableKeeps(s, s1);
    DropKeys(s1, a);
  }

  lemma InvTables(s: State)
    requires Inv(s)
    ensures RefsOk(s) && TableOk(s)
  {
  }

  lemma RetractKeys(s: State, a: Id)
    requires Inv(s) && Enabled(s, RetractResume(a))
    ensures s.loop.tasks[a].lock in s.loop.objs && s.calls[a].key in s.refs && a !in RetractResumeStep(s, a).calls
    ensures var k := s.calls[a].key;
      KeysMove(s, RetractResumeStep(s, a), k, s.refs[k] == 1, Locked(s, s.calls[a].lock))
  {
    RetractResumeTop(s, a);
    DropKeys(s, a);
  }

  lemma CallbackKeys(s: State, a: Id)
    requires Inv(s) && Enabled(s, Callback(a))
    ensures a !in s.calls && s.loop.tasks[a].lock in s.loop.objs
    ensures CallbackStep(s, a).refs == s.refs && CallbackStep(s, a).locks == s.locks
  {
    hide Inv;
    CallHasTask(s, a);
    DeferredIsOver(s, a);
  }

  lemma DeferredIsOver(s: State, a: Id)
    requires Inv(s) && a in s.deferred
    ensures a !in s.calls
  {
  }

  lemma ReleaseKeys(s: State, a: Id)
    requires Inv(s) && Enabled(s, Release(a))
    ensures s.calls[a].key in s.refs && a !in ReleaseStep(s, a).calls
    ensures KeysMove(s, ReleaseStep(s, a), s.calls[a].key, s.refs[s.calls[a].key] == 1, false)
  {
    ReleaseFindsLock(s, a);
    FreedLoop(s, a);
    var s1 := ReleaseOf(s, s.loop.tasks[a].lock);
    SameTableKeeps(s, s1);
    DropKeys(s1, a);
  }

  /** These are the steps, other than a release, in which a call ends. */
  lemma GivesUpIff(s: State, e: Event)
    requires Inv(s) && Enabled(s, e)
    ensures GivesUp(s, e) <==> e.a in s.calls && e.a !in Step(s, e).calls && !e.Release?
  {
    hide Inv;
    match e
    case Start(a, k, timed) => StartIsNew(s, e);
    case RunInner(a) => RunInnerEnds(s, a);
    case Resume(a) => ResumeKeys(s, a);
    case RequestCancel(a) => CallHasTask(s, a);
    case CancelResume(a) => CancelResumeKeys(s, a);
    case RetractResume(a) => RetractKeys(s, a);
    case Callback(a) => CallHasTask(s, a); DeferredIsOver(s, a);
    case Release(a) =>
  }

  lemma RunInnerEnds(s: State, a: Id)
    requires Inv(s) && Enabled(s, RunInner(a))
    ensures s.loop.tasks[a].lock in s.loop.objs
    ensures a in s.calls ==>
      (a !in RunInnerStep(s, a).calls <==> s.calls[a].phase == Direct && Doomed(s.loop.tasks[a].stage))
  {
    CallHasTask(s, a);
    RunTaskEffect(s.loop, a);
    assert TaskOk(s, a);
    hide Inv, RunTask, RunEffect, Settle, Runnable;
    if a in s.calls { RanEnds(s, RunTask(s.loop, a), a); }
  }

  lemma RanEnds(s: State, d: Loop, a: Id)
    requires a in s.calls && a in s.loop.tasks && s.loop.tasks[a].lock in s.loop.objs
    requires Runnable(s.loop.tasks[a].stage) && PhaseOk(s.calls[a].phase, s.loop.tasks[a].stage)
    requires RunEffect(s.loop, d, a, s.loop.tasks[a].lock)
    ensures a !in Settle(s.(loop := d), a).calls
      <==> s.calls[a].phase == Direct && Doomed(s.loop.tasks[a].stage)
  {
  }

  /** Exactly the stranding steps leave a key in `_locks` that is not in `_refs`. */
  lemma KeysStayEqualIff(s: State, e: Event)
    requires Inv(s) && SameKeys(s)
    ensures SameKeys(Next(s, e)) <==> !Strands(s, e)
  {
    if Enabled(s, e) {
      StepKeys(s, e);
      StartIsNew(s, e);
      GivesUpIff(s, e);
      KeysCase(s, Step(s, e), e);
    }
  }

  lemma StartIsNew(s: State, e: Event)
    requires Inv(s) && Enabled(s, e)
    ensures e.Start? ==> e.a !in s.calls
    ensures e.a in s.calls ==> s.calls[e.a].key in s.locks && s.calls[e.a].key in s.refs
  {
    if e.a in s.calls { assert e.a in Users(s.calls, s.calls[e.a].key); }
  }

  lemma KeysCase(s: State, t: State, e: Event)
    requires SameKeys(s) && (e.Start? ==> e.a !in s.calls)
    requires e.Start? ==> t.refs.Keys == s.refs.Keys + {e.key} && t.locks.Keys == s.locks.Keys + {e.key}
    requires !e.Start? && (e.a !in s.calls || e.a in t.calls) ==> t.refs == s.refs && t.locks == s.locks
    requires !e.Start? && e.a in s.calls && e.a !in t.calls ==>
      s.calls[e.a].key in s.refs &&
      KeysMove(s, t, s.calls[e.a].key, s.refs[s.calls[e.a].key] == 1, !e.Release? && Locked(s, s.calls[e.a].lock))
    ensures SameKeys(t) <==> !(e.a in s.calls && e.a !in t.calls && !e.Release?
                               && s.refs[s.calls[e.a].key] == 1 && Locked(s, s.calls[e.a].lock))
  {
  }

  // ------------------------------------------------------------------ over runs

  /** Every unreferenced key, and the key of every owning callback, is in `late`. */
  ghost predicate ExtrasIn(s: State, late: set<Key>) {
    && s.locks.Keys - s.refs.Keys <= late
    && (forall a | a in s.deferred && Owns(s, a) :: KeyOf(s, a) in late)
  }

  ghost function KeyOf(s: State, a: Id): Key {
    if a in s.loop.tasks && s.loop.tasks[a].lock in s.loop.objs then s.loop.objs[s.loop.tasks[a].lock].key else ""
  }

  lemma SoleUser(s: State, a: Id, b: Id)
    requires RefsOk(s) && a in s.calls && b in s.calls && s.calls[a].key == s.calls[b].key
    requires s.calls[a].key in s.refs && s.refs[s.calls[a].key] == 1
    ensures a == b
  {
    var k := s.calls[a].key;
    if a != b { assert {a, b} <= Users(s.calls, k); LargeSubset({a, b}, Users(s.calls, k)); }
  }

  lemma LargeSubset(small: set<Id>, large: set<Id>)
    requires small <= large
    ensures |small| <= |large|
  {
    assert large == small + (large - small);
  }

  /** A stranded key is locked by an acquire that completed as its caller was cancelled. */
  lemma StrandedKeyIsLate(s: State, e: Event, late: set<Key>)
    requires Inv(s) && Strands(s, e) && ExtrasIn(s, late)
    ensures s.calls[e.a].key in late + LateKeys(s, e)
  {
    hide Inv, Step;
    var a, l := e.a, s.calls[e.a].lock;
    LockedIsOwned(s, l);
    var b :| OwnsLock(s, b, l);
    OwnerKey(s, a, b);
    if b in s.calls {
      OwnerIsUser(s, a, b);
      WhoGivesUp(s, e);
    }
  }

  lemma WhoGivesUp(s: State, e: Event)
    requires GivesUp(s, e)
    ensures e.CancelResume? || s.calls[e.a].phase in {Direct, Retracting}
  {
  }

  lemma OwnerKey(s: State, a: Id, b: Id)
    requires Inv(s) && a in s.calls && OwnsLock(s, b, s.calls[a].lock)
    ensures KeyOf(s, b) == s.calls[a].key
    ensures b in s.calls ==> s.calls[b].key == s.calls[a].key
  {
  }

  lemma OwnerIsUser(s: State, a: Id, b: Id)
    requires Inv(s) && a in s.calls && b in s.calls && s.calls[b].key == s.calls[a].key && Owns(s, b)
    requires s.calls[a].key in s.refs && s.refs[s.calls[a].key] == 1
    ensures b == a && s.calls[a].phase != Direct && s.calls[a].phase != Retracting
  {
    SoleUser(s, a, b);
    assert TaskOk(s, a);
  }

  lemma DeferredGrow(s: State, e: Event)
    requires Inv(s) && Enabled(s, e)
    ensures Step(s, e).deferred <= s.deferred + (if e.CancelResume? then {e.a} else {})
  {
    hide Inv;
    match e
    case Start(a, k, timed) => EnterKeepsInv(s, a, k, timed); CallHasTask(Enter(s, a, k, timed), a);
    case RunInner(a) => CallHasTask(s, a);
    case Resume(a) => CallHasTask(s, a);
    case RequestCancel(a) => CallHasTask(s, a);
    case CancelResume(a) => CallHasTask(s, a);
    case RetractResume(a) => CallHasTask(s, a);
    case Callback(a) => CallHasTask(s, a);
    case Release(a) => HolderReleases(s, a);
  }

  lemma DeferredDoomed(s: State, a: Id)
    requires Inv(s) && (a in s.deferred || (a in s.calls && s.calls[a].phase == Waiting(true)))
    ensures a in s.loop.tasks && s.loop.tasks[a].lock in s.loop.objs
    ensures a in s.calls ==> KeyOf(s, a) == s.calls[a].key
    ensures a in s.deferred && !Owns(s, a) ==> Doomed(s.loop.tasks[a].stage)
  {
    assert TaskOk(s, a);
  }

  /** A callback that owns a lock after the step owned it before, or its call just gave up. */
  lemma DeferredStep(s: State, e: Event, late: set<Key>)
    requires Inv(s) && Enabled(s, e) && ExtrasIn(s, late)
    ensures forall a | a in Step(s, e).deferred && Owns(Step(s, e), a) :: KeyOf(Step(s, e), a) in late + LateKeys(s, e)
  {
    hide Inv;
    var t := Step(s, e);
    StepEvolves(s, e);
    DeferredGrow(s, e);
    forall a | a in t.deferred && Owns(t, a) ensures KeyOf(t, a) in late + LateKeys(s, e) {
      DeferredDoomed(s, a);
      assert KeyOf(t, a) == KeyOf(s, a);
      if a !in s.deferred { CancelLeavesDoomed(s, a); }
    }
  }

  lemma CancelLeavesDoomed(s: State, a: Id)
    requires Inv(s) && Enabled(s, CancelResume(a))
    ensures a in s.loop.tasks && a in Step(s, CancelResume(a)).loop.tasks
    ensures s.loop.tasks[a].stage == Acquired || Doomed(Step(s, CancelResume(a)).loop.tasks[a].stage)
  {
    hide Inv;
    CallHasTask(s, a);
    CancelTaskEffect(s.loop, a);
  }

  lemma NextExtras(s: State, e: Event, late: set<Key>)
    requires Inv(s) && ExtrasIn(s, late)
    ensures ExtrasIn(Next(s, e), late + LateKeys(s, e))
  {
    hide Inv, LateKeys;
    if Enabled(s, e) {
      var t := Step(s, e);
      DeferredStep(s, e, late);
      StepKeys(s, e);
      StartIsNew(s, e);
      GivesUpIff(s, e);
      if Strands(s, e) { StrandedKeyIsLate(s, e, late); }
      assert t.locks.Keys - t.refs.Keys <= late + LateKeys(s, e) by { KeysDiff(s, t, e, late + LateKeys(s, e)); }
    }
  }

  lemma KeysDiff(s: State, t: State, e: Event, late: set<Key>)
    requires s.locks.Keys - s.refs.Keys <= late && (e.Start? ==> e.a !in s.calls)
    requires e.Start? ==> t.refs.Keys == s.refs.Keys + {e.key} && t.locks.Keys == s.locks.Keys + {e.key}
    requires !e.Start? && (e.a !in s.calls || e.a in t.calls) ==> t.refs == s.refs && t.locks == s.locks
    requires !e.Start? && e.a in s.calls && e.a !in t.calls ==>
      s.calls[e.a].key in s.refs &&
      KeysMove(s, t, s.calls[e.a].key, s.refs[s.calls[e.a].key] == 1, !e.Release? && Locked(s, s.calls[e.a].lock))
    requires (!e.Start? && !e.Release? && e.a in s.calls && e.a !in t.calls && s.refs[s.calls[e.a].key] == 1
              && Locked(s, s.calls[e.a].lock)) ==> s.calls[e.a].key in late
    ensures t.locks.Keys - t.refs.Keys <= late
  {
  }

  lemma {:induction false} RunExtras(s: State, es: seq<Event>, late: set<Key>)
    requires Inv(s) && ExtrasIn(s, late)
    ensures ExtrasIn(RunFrom(s, es), late + LateKeysOf(s, es))
    decreases |es|
  {
    hide Inv, LateKeys, ExtrasIn;
    if es == [] {
      assert late + LateKeysOf(s, es) == late;
    } else {
      NextExtras(s, es[0], late);
      RunExtras(Next(s, es[0]), es[1..], late + LateKeys(s, es[0]));
      assert late + LateKeys(s, es[0]) + LateKeysOf(Next(s, es[0]), es[1..]) == late + LateKeysOf(s, es);
    }
  }

  /** The lock of `k` is unlocked, or a pending callback owns it. */
  ghost predicate FreeOrDeferred(s: State, k: Key) {
    k in s.locks && (Locked(s, s.locks[k]) ==> exists a :: a in s.deferred && OwnsLock(s, a, s.locks[k]))
  }

  /** A key is kept without references only if an inner acquire of it completed as its caller
      was cancelled; such a key is locked by that pending callback or left unlocked by it. */
  lemma ExtraKeysAreLate(es: seq<Event>, k: Key)
    requires k in Run(es).locks && k !in Run(es).refs
    ensures k in RunLateKeys(es) && FreeOrDeferred(Run(es), k)
  {
    hide Inv;
    EmptyInv();
    RunExtras(EMPTY, es, {});
    var s := Run(es);
    LockedIsOwned(s, s.locks[k]);
    UnreferencedOwner(s, k);
  }

  lemma UnreferencedOwner(s: State, k: Key)
    requires Inv(s) && k in s.locks && k !in s.refs
    ensures forall a | OwnsLock(s, a, s.locks[k]) :: a in s.deferred
  {
    forall a | OwnsLock(s, a, s.locks[k]) ensures a in s.deferred {
      NotCalled(s, a, k);
    }
  }

  lemma NotCalled(s: State, a: Id, k: Key)
    requires Inv(s) && k in s.locks && k !in s.refs && OwnsLock(s, a, s.locks[k])
    ensures a !in s.calls
  {
    assert a !in Users(s.calls, k);
  }

  /** Without such a cancellation the two tables always have the same keys. */
  lemma NoLateCancelSameKeys(es: seq<Event>)
    requires RunLateKeys(es) == {}
    ensures SameKeys(Run(es))
  {
    hide Inv;
    var s := Run(es);
    forall k ensures k in s.locks <==> k in s.refs {
      if k in s.locks && k !in s.refs { ExtraKeysAreLate(es, k); }
      RefsCountCalls(es, k);
    }
  }

  /** The class comment promises that a key goes as soon as nobody holds or awaits it.  This run
      ends with every call over and every callback run, yet the key is still in `_locks`:
      the inner acquire completed just before its cancelled caller resumed. */
  lemma CancelledAcquireLeavesKey(k: Key)
    ensures var s := Run([Start(0, k, true), RunInner(0), RequestCancel(0), CancelResume(0), Callback(0)]);
      s.calls == map[] && s.deferred == {} && s.refs == map[] && k in s.locks && !Locked(s, s.locks[k])
  {
    hide Inv;
    EmptyInv();
    var es := [Start(0, k, true), RunInner(0), RequestCancel(0), CancelResume(0), Callback(0)];
    var s2 := LateAcquire(k);
    var s3 := Next(s2, es[2]);
    var s4 := Next(s3, es[3]);
    assert s4.locks == map[k := 0] && s4.refs == map[] && s4.calls == map[] && s4.deferred == {0};
    var s5 := Next(s4, es[4]);
    assert s5.deferred == {} && s5.loop.objs == map[0 := Lock(k, false, [])];
    hide Next;
    assert es == [es[0]] + ([es[1]] + ([es[2]] + ([es[3]] + ([es[4]] + []))));
    RunCons(EMPTY, es[0], [es[1]] + ([es[2]] + ([es[3]] + ([es[4]] + []))));
    RunCons(Next(EMPTY, es[0]), es[1], [es[2]] + ([es[3]] + ([es[4]] + [])));
    RunCons(s2, es[2], [es[3]] + ([es[4]] + []));
    RunCons(s3, es[3], [es[4]] + []);
    RunCons(s4, es[4], []);
  }

  /** The inner acquire of the only call has completed and the caller has not resumed. */
  lemma LateAcquire(k: Key) returns (s2: State)
    ensures Inv(EMPTY) && s2 == Next(Next(EMPTY, Start(0, k, true)), RunInner(0))
    ensures s2 == State(map[k := 0], map[k := 1], map[0 := Call(k, 0, Waiting(false))],
                        Loop(map[0 := Lock(k, true, [])], map[0 := Task(0, Acquired)]), {}, 1)
  {
    hide Inv;
    EmptyInv();
    var s1 := Next(EMPTY, Start(0, k, true));
    assert s1 == State(map[k := 0], map[k := 1], map[0 := Call(k, 0, Waiting(false))],
                       Loop(map[0 := Lock(k, false, [])], map[0 := Task(0, Fresh(false))]), {}, 1);
    s2 := Next(s1, RunInner(0));
    assert s2.loop == Loop(map[0 := Lock(k, true, [])], map[0 := Task(0, Acquired)]);
  }

  lemma RunCons(s: State, e: Event, es: seq<Event>)
    requires Inv(s)
    ensures RunFrom(s, [e] + es) == RunFrom(Next(s, e), es)
  {
    hide Inv;
    assert ([e] + es)[1..] == es;
  }
}
