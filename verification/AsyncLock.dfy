/** A model of `asyncio.Lock` and of the tasks that run its `acquire` coroutine.

    A task is identified by the `acquire` call it serves.  Cancelling a task
    follows the event loop: a pending future is cancelled, a task whose future
    is already done is marked so that its next step raises. */
module AsyncLock {

  type Id = nat
  type LockId = nat
  type Key = string

  /** State of the future that a queued task waits on. */
  datatype Future = Pending | Woken | Cancelled

  datatype Stage =
    | Fresh(cancelled: bool)                      // task created, first step not run
    | Queued(future: Future, mustCancel: bool)    // suspended inside `acquire`
    | Acquired                                    // `acquire` returned True
    | Retracted                                   // `acquire` raised CancelledError

  datatype Task = Task(lock: LockId, stage: Stage)

  /** `key` records which table key the lock was created for. */
  datatype Lock = Lock(key: Key, locked: bool, waiters: seq<Id>)

  datatype Loop = Loop(objs: map<LockId, Lock>, tasks: map<Id, Task>)

  function SetStage(c: Loop, a: Id, stage: Stage): Loop
    requires a in c.tasks
  {
    c.(tasks := c.tasks[a := c.tasks[a].(stage := stage)])
  }

  function SetLock(c: Loop, l: LockId, lock: Lock): Loop {
    c.(objs := c.objs[l := lock])
  }

  function Remove(w: seq<Id>, a: Id): seq<Id> {
    if w == [] then [] else if w[0] == a then w[1..] else [w[0]] + Remove(w[1..], a)
  }

  predicate AllCancelled(c: Loop, w: seq<Id>) {
    forall i | 0 <= i < |w| :: w[i] in c.tasks && c.tasks[w[i]].stage.Queued? && c.tasks[w[i]].stage.future == Cancelled
  }

  /** Sets the result of the first waiter's future unless it is already done. */
  function WakeFirst(c: Loop, l: LockId): Loop
    requires l in c.objs
  {
    var w := c.objs[l].waiters;
    if w != [] && w[0] in c.tasks && c.tasks[w[0]].stage.Queued? && c.tasks[w[0]].stage.future == Pending then
      SetStage(c, w[0], Queued(Woken, c.tasks[w[0]].stage.mustCancel))
    else c
  }

  /** `Lock.release` on a locked lock. */
  function ReleaseLock(c: Loop, l: LockId): Loop
    requires l in c.objs
  {
    WakeFirst(SetLock(c, l, c.objs[l].(locked := false)), l)
  }

  /** `Task.cancel`. */
  function CancelTask(c: Loop, a: Id): Loop
    requires a in c.tasks
  {
    match c.tasks[a].stage
    case Fresh(_) => SetStage(c, a, Fresh(true))
    case Queued(Pending, m) => SetStage(c, a, Queued(Cancelled, m))
    case Queued(Woken, _) => SetStage(c, a, Queued(Woken, true))
    case Queued(Cancelled, _) => c
    case Acquired => c
    case Retracted => c
  }

  /** The loop may run the task's next step. */
  predicate Runnable(t: Stage) {
    t.Fresh? || (t.Queued? && t.future != Pending)
  }

  /** One step of the task: from its start to its first suspension, or from its wake-up to its end. */
  function RunTask(c: Loop, a: Id): Loop
    requires a in c.tasks && c.tasks[a].lock in c.objs
  {
    var l := c.tasks[a].lock;
    var lock := c.objs[l];
    match c.tasks[a].stage
    case Fresh(true) => SetStage(c, a, Retracted)
    case Fresh(false) =>
      if !lock.locked && AllCancelled(c, lock.waiters) then
        SetStage(SetLock(c, l, lock.(locked := true)), a, Acquired)
      else
        SetStage(SetLock(c, l, lock.(waiters := lock.waiters + [a])), a, Queued(Pending, false))
    case Queued(Pending, _) => c
    case Queued(Woken, false) =>
      SetStage(SetLock(c, l, lock.(locked := true, waiters := Remove(lock.waiters, a))), a, Acquired)
    case Queued(_, _) =>
      var c1 := SetStage(SetLock(c, l, lock.(waiters := Remove(lock.waiters, a))), a, Retracted);
      if lock.locked then c1 else WakeFirst(c1, l)
    case Acquired => c
    case Retracted => c
  }

  /** The task has been told to stop (or already stopped) without having acquired. */
  predicate Doomed(t: Stage) {
    || t == Fresh(true)
    || (t.Queued? && (t.future == Cancelled || (t.future == Woken && t.mustCancel)))
    || t == Retracted
  }

  /** Waiting, and not told to stop. */
  predicate Live(t: Stage) {
    t == Fresh(false) || (t.Queued? && t.future != Cancelled && !t.mustCancel)
  }

  // ------------------------------------------------------------------ invariant

  ghost predicate IsQueued(c: Loop, l: LockId, a: Id) {
    a in c.tasks && c.tasks[a].lock == l && c.tasks[a].stage.Queued?
  }

  /** The deque holds exactly the suspended tasks of this lock, once each. */
  ghost predicate QueueOk(c: Loop, l: LockId)
    requires l in c.objs
  {
    var w := c.objs[l].waiters;
    && (forall i, j | 0 <= i < j < |w| :: w[i] != w[j])
    && (forall i | 0 <= i < |w| :: IsQueued(c, l, w[i]))
    && (forall a | IsQueued(c, l, a) :: a in w)
  }

  /** Only the head of the deque can have been woken, and only while the lock is free. */
  ghost predicate HandOffOk(c: Loop, l: LockId)
    requires l in c.objs && QueueOk(c, l)
  {
    var w := c.objs[l].waiters;
    && (forall i | 0 <= i < |w| && c.tasks[w[i]].stage.future == Woken :: i == 0 && !c.objs[l].locked)
    && (forall i | 0 <= i < |w| && c.tasks[w[i]].stage.future == Pending :: !c.tasks[w[i]].stage.mustCancel)
  }

  /** A free lock with waiters has a head that is about to run: no wake-up is lost. */
  ghost predicate WakeOk(c: Loop, l: LockId)
    requires l in c.objs && QueueOk(c, l)
  {
    var w := c.objs[l].waiters;
    !c.objs[l].locked && w != [] ==> c.tasks[w[0]].stage.future != Pending
  }

  ghost predicate LoopInv(c: Loop) {
    && (forall a | a in c.tasks :: c.tasks[a].lock in c.objs)
    && (forall l | l in c.objs :: QueueOk(c, l) && HandOffOk(c, l) && WakeOk(c, l))
  }

  /** As `LoopInv`, but `l` may be free with a head that has not been woken yet. */
  ghost predicate LoopInvBut(c: Loop, l: LockId) {
    && (forall a | a in c.tasks :: c.tasks[a].lock in c.objs)
    && (forall k | k in c.objs :: QueueOk(c, k) && HandOffOk(c, k) && (k != l ==> WakeOk(c, k)))
  }

  // ------------------------------------------------------------------ lemmas

  lemma {:induction false} RemoveProps(w: seq<Id>, a: Id)
    requires forall i, j | 0 <= i < j < |w| :: w[i] != w[j]
    ensures var r := Remove(w, a);
      && (forall x :: x in r <==> x in w && x != a)
      && (forall i, j | 0 <= i < j < |r| :: r[i] != r[j])
      && (w != [] && w[0] != a ==> r != [] && r[0] == w[0])
  {
    if w != [] && w[0] != a {
      RemoveProps(w[1..], a);
      var r := Remove(w[1..], a);
      assert forall x :: x in w <==> x == w[0] || x in w[1..];
      assert w[0] !in w[1..];
    } else if w != [] {
      assert forall x :: x in w <==> x == w[0] || x in w[1..];
      assert w[0] !in w[1..];
    }
  }

  /** Only tasks of lock `l` and the lock `l` itself differ. */
  ghost predicate SameElsewhere(c: Loop, d: Loop, l: LockId) {
    && c.objs.Keys == d.objs.Keys
    && c.tasks.Keys == d.tasks.Keys
    && (forall k | k in c.objs && k != l :: d.objs[k] == c.objs[k])
    && (forall x | x in c.tasks ::
          d.tasks[x].lock == c.tasks[x].lock && (c.tasks[x].lock != l ==> d.tasks[x] == c.tasks[x]))
  }

  lemma FrameLock(c: Loop, d: Loop, l: LockId, k: LockId)
    requires SameElsewhere(c, d, l) && k in c.objs && k != l
    requires QueueOk(c, k) && HandOffOk(c, k)
    ensures QueueOk(d, k) && HandOffOk(d, k)
    ensures WakeOk(c, k) ==> WakeOk(d, k)
  {
    assert forall x :: IsQueued(c, k, x) <==> IsQueued(d, k, x);
  }

  /** A change confined to lock `l` keeps the invariant if it keeps `l`'s part of it. */
  lemma LocalChange(c: Loop, d: Loop, l: LockId)
    requires LoopInv(c) && l in c.objs && SameElsewhere(c, d, l)
    requires QueueOk(d, l) && HandOffOk(d, l)
    ensures LoopInvBut(d, l)
    ensures WakeOk(d, l) ==> LoopInv(d)
  {
    forall k | k in d.objs ensures QueueOk(d, k) && HandOffOk(d, k) && (k != l ==> WakeOk(d, k)) {
      if k != l { FrameLock(c, d, l, k); }
    }
  }

  lemma WakeFirstKeeps(c: Loop, l: LockId)
    requires l in c.objs && LoopInvBut(c, l) && !c.objs[l].locked
    ensures LoopInv(WakeFirst(c, l))
  {
    var d := WakeFirst(c, l);
    var w := c.objs[l].waiters;
    assert QueueOk(c, l) && HandOffOk(c, l);
    if w != [] { assert IsQueued(c, l, w[0]); }
    assert SameElsewhere(c, d, l);
    forall k | k in d.objs ensures QueueOk(d, k) && HandOffOk(d, k) && WakeOk(d, k) {
      if k != l {
        FrameLock(c, d, l, k);
      } else {
        assert forall x :: IsQueued(c, l, x) <==> IsQueued(d, l, x);
      }
    }
  }

  /** Replacing one queued future by a done one that is not a wake-up. */
  lemma CancelTaskKeeps(c: Loop, a: Id)
    requires LoopInv(c) && a in c.tasks
    ensures LoopInv(CancelTask(c, a))
  {
    hide QueueOk, HandOffOk, WakeOk;
    var d := CancelTask(c, a);
    var l := c.tasks[a].lock;
    assert QueueOk(c, l) && HandOffOk(c, l) && WakeOk(c, l);
    CancelledQueue(c, a, l);
    assert SameElsewhere(c, d, l);
    LocalChange(c, d, l);
  }

  lemma CancelledQueue(c: Loop, a: Id, l: LockId)
    requires a in c.tasks && c.tasks[a].lock == l && l in c.objs
    requires QueueOk(c, l) && HandOffOk(c, l) && WakeOk(c, l)
    ensures var d := CancelTask(c, a);
      d.objs == c.objs && QueueOk(d, l) && HandOffOk(d, l) && WakeOk(d, l)
  {
    var d := CancelTask(c, a);
    assert forall x :: IsQueued(c, l, x) <==> IsQueued(d, l, x);
    assert QueueOk(d, l);
  }

  lemma ReleaseLockKeeps(c: Loop, l: LockId)
    requires LoopInv(c) && l in c.objs && c.objs[l].locked
    ensures LoopInv(ReleaseLock(c, l))
  {
    var d := SetLock(c, l, c.objs[l].(locked := false));
    assert QueueOk(c, l) && HandOffOk(c, l);
    assert forall x :: IsQueued(c, l, x) <==> IsQueued(d, l, x);
    assert QueueOk(d, l) && HandOffOk(d, l);
    LocalChange(c, d, l);
    WakeFirstKeeps(d, l);
  }

  /** A starting task either ends, takes the free lock, or joins the end of the deque. */
  lemma RunFreshKeeps(c: Loop, a: Id)
    requires LoopInv(c) && a in c.tasks && c.tasks[a].stage.Fresh?
    ensures LoopInv(RunTask(c, a))
  {
    var d := RunTask(c, a);
    var l := c.tasks[a].lock;
    if d.tasks[a].stage.Queued? { JoinQueue(c, d, l, a); } else { SkipQueue(c, d, l, a); }
    LocalChange(c, d, l);
  }

  lemma SkipQueue(c: Loop, d: Loop, l: LockId, a: Id)
    requires LoopInv(c) && a in c.tasks && c.tasks[a].lock == l && c.tasks[a].stage.Fresh?
    requires a in d.tasks && !d.tasks[a].stage.Queued? && d.tasks == c.tasks[a := d.tasks[a]] && d.tasks[a].lock == l
    requires l in d.objs && d.objs == c.objs[l := d.objs[l]] && d.objs[l].waiters == c.objs[l].waiters
    requires d.objs[l].locked == c.objs[l].locked || (d.objs[l].locked && AllCancelled(c, c.objs[l].waiters))
    ensures SameElsewhere(c, d, l) && QueueOk(d, l) && HandOffOk(d, l) && WakeOk(d, l)
  {
    var w := c.objs[l].waiters;
    assert QueueOk(c, l) && HandOffOk(c, l) && WakeOk(c, l);
    assert forall i | 0 <= i < |w| :: IsQueued(c, l, w[i]) && w[i] != a;
    assert forall x :: IsQueued(c, l, x) <==> IsQueued(d, l, x);
  }

  lemma JoinQueue(c: Loop, d: Loop, l: LockId, a: Id)
    requires LoopInv(c) && a in c.tasks && c.tasks[a] == Task(l, Fresh(false))
    requires c.objs[l].locked || !AllCancelled(c, c.objs[l].waiters)
    requires d.tasks == c.tasks[a := Task(l, Queued(Pending, false))]
    requires d.objs == c.objs[l := c.objs[l].(waiters := c.objs[l].waiters + [a])]
    ensures SameElsewhere(c, d, l) && QueueOk(d, l) && HandOffOk(d, l) && WakeOk(d, l)
  {
    assert QueueOk(c, l) && HandOffOk(c, l) && WakeOk(c, l);
    JoinOneQueue(c, d, l, a);
  }

  lemma JoinOneQueue(c: Loop, d: Loop, l: LockId, a: Id)
    requires l in c.objs && QueueOk(c, l) && HandOffOk(c, l) && WakeOk(c, l)
    requires a in c.tasks && c.tasks[a] == Task(l, Fresh(false))
    requires c.objs[l].locked || !AllCancelled(c, c.objs[l].waiters)
    requires d.tasks == c.tasks[a := Task(l, Queued(Pending, false))]
    requires d.objs == c.objs[l := c.objs[l].(waiters := c.objs[l].waiters + [a])]
    ensures QueueOk(d, l) && HandOffOk(d, l) && WakeOk(d, l)
  {
    var w := c.objs[l].waiters;
    var v := w + [a];
    assert !IsQueued(c, l, a) && a !in w;
    assert forall i | 0 <= i < |w| :: w[i] in w && v[i] == w[i] && IsQueued(c, l, w[i]);
    assert forall x | x != a :: IsQueued(c, l, x) <==> IsQueued(d, l, x);
    assert QueueOk(d, l);
  }

  lemma RunQueuedKeeps(c: Loop, a: Id)
    requires LoopInv(c) && a in c.tasks && c.tasks[a].stage.Queued? && Runnable(c.tasks[a].stage)
    ensures LoopInv(RunTask(c, a))
  {
    var l := c.tasks[a].lock;
    var lock := c.objs[l];
    assert QueueOk(c, l) && HandOffOk(c, l) && WakeOk(c, l) && IsQueued(c, l, a);
    var d := if c.tasks[a].stage == Queued(Woken, false) then RunTask(c, a)
             else SetStage(SetLock(c, l, lock.(waiters := Remove(lock.waiters, a))), a, Retracted);
    QueueAfterRemove(c, d, l, a);
    assert SameElsewhere(c, d, l);
    LocalChange(c, d, l);
    if !d.objs[l].locked { WakeFirstKeeps(d, l); }
  }

  /** The deque part of `RunQueuedKeeps` for the lock the task was queued on. */
  lemma QueueAfterRemove(c: Loop, d: Loop, l: LockId, a: Id)
    requires l in c.objs && l in d.objs && QueueOk(c, l) && HandOffOk(c, l) && IsQueued(c, l, a)
    requires d.objs[l].waiters == Remove(c.objs[l].waiters, a)
    requires a in d.tasks && !d.tasks[a].stage.Queued?
    requires forall x | x != a :: (x in c.tasks <==> x in d.tasks) && (x in c.tasks ==> c.tasks[x] == d.tasks[x])
    requires d.objs[l].locked ==> c.objs[l].locked || c.tasks[a].stage.future == Woken
    ensures QueueOk(d, l) && HandOffOk(d, l)
  {
    var w, r := c.objs[l].waiters, d.objs[l].waiters;
    RemoveProps(w, a);
    forall i | 0 <= i < |r| ensures IsQueued(d, l, r[i]) {
      assert r[i] in r;
      assert IsQueued(c, l, r[i]);
    }
    forall x | IsQueued(d, l, x) ensures x in r {
      assert IsQueued(c, l, x);
    }
    forall i | 0 <= i < |r|
      ensures d.tasks[r[i]].stage.future == Woken ==> i == 0 && !d.objs[l].locked
      ensures d.tasks[r[i]].stage.future == Pending ==> !d.tasks[r[i]].stage.mustCancel
    {
      assert r[i] in r;
      var j :| 0 <= j < |w| && w[j] == r[i];
      var n :| 0 <= n < |w| && w[n] == a;
      if d.tasks[r[i]].stage.future == Woken {
        assert j == 0;
        assert r[0] == w[0];
      }
    }
  }

  lemma RunTaskKeeps(c: Loop, a: Id)
    requires LoopInv(c) && a in c.tasks && Runnable(c.tasks[a].stage)
    ensures LoopInv(RunTask(c, a))
  {
    if c.tasks[a].stage.Fresh? { RunFreshKeeps(c, a); } else { RunQueuedKeeps(c, a); }
  }

  // ------------------------------------------------------------------ effects

  ghost predicate SameShape(c: Loop, d: Loop) {
    && d.tasks.Keys == c.tasks.Keys
    && d.objs.Keys == c.objs.Keys
    && (forall l | l in c.objs :: d.objs[l].key == c.objs[l].key)
    && (forall x | x in c.tasks :: d.tasks[x].lock == c.tasks[x].lock)
  }

  ghost predicate SameOrWoken(c: Loop, d: Loop, x: Id) {
    x in c.tasks && x in d.tasks &&
    (d.tasks[x] == c.tasks[x]
     || (c.tasks[x].stage == Queued(Pending, false) && d.tasks[x].stage == Queued(Woken, false)))
  }

  /** Apart from `a`, a task is unchanged or was woken from an undisturbed wait. */
  ghost predicate OthersKept(c: Loop, d: Loop, a: Id) {
    SameShape(c, d) && forall x | x in c.tasks && x != a :: SameOrWoken(c, d, x)
  }

  lemma WakeFirstEffect(c: Loop, l: LockId)
    requires l in c.objs && QueueOk(c, l) && HandOffOk(c, l)
    ensures SameShape(c, WakeFirst(c, l)) && WakeFirst(c, l).objs == c.objs
    ensures forall x | x in c.tasks :: SameOrWoken(c, WakeFirst(c, l), x)
  {
    var w := c.objs[l].waiters;
    if w != [] { assert IsQueued(c, l, w[0]); }
  }

  lemma ReleaseLockEffect(c: Loop, l: LockId)
    requires LoopInv(c) && l in c.objs && c.objs[l].locked
    ensures SameShape(c, ReleaseLock(c, l)) && !ReleaseLock(c, l).objs[l].locked
    ensures forall k | k in c.objs && k != l :: ReleaseLock(c, l).objs[k] == c.objs[k]
    ensures forall x | x in c.tasks :: SameOrWoken(c, ReleaseLock(c, l), x)
  {
    var d := SetLock(c, l, c.objs[l].(locked := false));
    assert QueueOk(c, l) && HandOffOk(c, l);
    FreeLock(c, d, l);
    var e := ReleaseLock(c, l);
    assert e == WakeFirst(d, l);
    hide LoopInv, QueueOk, HandOffOk, WakeFirst, ReleaseLock;
    WakeFirstEffect(d, l);
    assert forall x | x in c.tasks :: SameOrWoken(d, e, x);
  }

  lemma FreeLock(c: Loop, d: Loop, l: LockId)
    requires l in c.objs && QueueOk(c, l) && HandOffOk(c, l) && d == SetLock(c, l, c.objs[l].(locked := false))
    ensures QueueOk(d, l) && HandOffOk(d, l)
  {
    assert forall x :: IsQueued(c, l, x) <==> IsQueued(d, l, x);
  }

  /** What running a task does to its own stage and to its lock. */
  ghost predicate Ran(c: Loop, d: Loop, a: Id, l: LockId)
    requires a in c.tasks && a in d.tasks && l in c.objs && l in d.objs
  {
    var t, u := c.tasks[a].stage, d.tasks[a].stage;
    && (u == Acquired ==> Live(t) && !c.objs[l].locked && d.objs[l].locked)
    && (u != Acquired ==> d.objs[l].locked == c.objs[l].locked)
    && (Doomed(t) ==> u == Retracted)
    && (Live(t) ==> u in {Acquired, Queued(Pending, false)})
  }

  ghost predicate RunEffect(c: Loop, d: Loop, a: Id, l: LockId)
    requires a in c.tasks && l in c.objs
  {
    && OthersKept(c, d, a)
    && (forall k | k in c.objs && k != l :: d.objs[k] == c.objs[k])
    && Ran(c, d, a, l)
  }

  /** A task that runs acquires a free lock and locks it, or changes no lock's state. */
  lemma RunTaskEffect(c: Loop, a: Id)
    requires LoopInv(c) && a in c.tasks && Runnable(c.tasks[a].stage)
    ensures RunEffect(c, RunTask(c, a), a, c.tasks[a].lock)
  {
    var l := c.tasks[a].lock;
    assert QueueOk(c, l) && HandOffOk(c, l);
    if c.tasks[a].stage.Queued? { RunQueuedEffect(c, a, l); } else { RunFreshEffect(c, a, l); }
  }

  lemma RunFreshEffect(c: Loop, a: Id, l: LockId)
    requires a in c.tasks && c.tasks[a].stage.Fresh? && l in c.objs && c.tasks[a].lock == l
    ensures RunEffect(c, RunTask(c, a), a, l)
  {
  }

  lemma RunQueuedEffect(c: Loop, a: Id, l: LockId)
    requires a in c.tasks && c.tasks[a].stage.Queued? && Runnable(c.tasks[a].stage)
    requires l in c.objs && c.tasks[a].lock == l && QueueOk(c, l) && HandOffOk(c, l)
    ensures RunEffect(c, RunTask(c, a), a, l)
  {
    assert IsQueued(c, l, a);
    if c.tasks[a].stage == Queued(Woken, false) {
      hide QueueOk, HandOffOk;
      assert !c.objs[l].locked by { WokenIsFree(c, a, l); }
    } else {
      hide HandOffOk, QueueOk;
      RetractEffect(c, a, l);
    }
  }

  lemma WokenIsFree(c: Loop, a: Id, l: LockId)
    requires l in c.objs && QueueOk(c, l) && HandOffOk(c, l) && IsQueued(c, l, a)
    requires c.tasks[a].stage.future == Woken
    ensures !c.objs[l].locked
  {
    assert a in c.objs[l].waiters;
  }

  lemma RetractEffect(c: Loop, a: Id, l: LockId)
    requires a in c.tasks && c.tasks[a].stage.Queued? && Runnable(c.tasks[a].stage)
    requires c.tasks[a].stage != Queued(Woken, false)
    requires l in c.objs && c.tasks[a].lock == l && QueueOk(c, l) && HandOffOk(c, l)
    ensures RunEffect(c, RunTask(c, a), a, l)
  {
    hide QueueOk, HandOffOk, WakeFirst, Remove;
    var lock := c.objs[l];
    var d := SetStage(SetLock(c, l, lock.(waiters := Remove(lock.waiters, a))), a, Retracted);
    assert RunTask(c, a) == if lock.locked then d else WakeFirst(d, l);
    hide RunTask;
    if !lock.locked {
      QueueAfterRemove(c, d, l, a);
      WakeFirstEffect(d, l);
      assert forall x | x in d.tasks :: SameOrWoken(d, WakeFirst(d, l), x);
    }
  }

  lemma CancelTaskEffect(c: Loop, a: Id)
    requires a in c.tasks
    ensures var d := CancelTask(c, a);
      && d.objs == c.objs && SameShape(c, d)
      && (forall x | x in c.tasks && x != a :: d.tasks[x] == c.tasks[x])
      && (c.tasks[a].stage == Acquired ==> d == c)
      && (c.tasks[a].stage != Acquired ==> Doomed(d.tasks[a].stage))
  {
  }

  lemma NewLockKeeps(c: Loop, l: LockId, k: Key)
    requires LoopInv(c) && l !in c.objs
    ensures LoopInv(SetLock(c, l, Lock(k, false, [])))
  {
    var d := SetLock(c, l, Lock(k, false, []));
    assert forall x :: !IsQueued(d, l, x);
    forall j | j in d.objs ensures QueueOk(d, j) && HandOffOk(d, j) && WakeOk(d, j) {
      if j != l { SameQueue(c, d, j); }
    }
  }

  lemma NewTaskKeeps(c: Loop, a: Id, l: LockId)
    requires LoopInv(c) && l in c.objs && a !in c.tasks
    ensures LoopInv(c.(tasks := c.tasks[a := Task(l, Fresh(false))]))
  {
    var d := c.(tasks := c.tasks[a := Task(l, Fresh(false))]);
    forall j | j in d.objs ensures QueueOk(d, j) && HandOffOk(d, j) && WakeOk(d, j) {
      SameQueue(c, d, j);
    }
  }

  lemma SameQueue(c: Loop, d: Loop, j: LockId)
    requires j in c.objs && j in d.objs && d.objs[j] == c.objs[j]
    requires QueueOk(c, j) && HandOffOk(c, j) && WakeOk(c, j)
    requires c.tasks.Keys <= d.tasks.Keys && forall x | x in c.tasks :: d.tasks[x] == c.tasks[x]
    requires forall x | x in d.tasks && x !in c.tasks :: !d.tasks[x].stage.Queued?
    ensures QueueOk(d, j) && HandOffOk(d, j) && WakeOk(d, j)
  {
    assert forall x :: IsQueued(c, j, x) <==> IsQueued(d, j, x);
  }
}
