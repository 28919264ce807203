/** `async_main_repo_file_lock`: a worker thread that polls a file lock for a task that may
    be cancelled at any point.  Any number of contexts and outsiders contend for one lock. */
module FileLock {
  import opened Options

  type Id = nat

  datatype Holder = Ours(c: Id) | Outsider

  /** The thread that runs `_enter`. */
  datatype Thread =
    | Unstarted   // submitted, not picked up
    | Trying      // about to call `flock`
    | Missed      // `flock` failed; about to look at the abort flag and the deadline
    | Sleeping
    | Won         // holds the lock, has not entered the guard section
    | Undoing     // saw the cancellation: about to undo
    | Returned
    | Raised
    | Skipped     // its future was cancelled before it started

  /** The coroutine. */
  datatype Coroutine =
    | Awaiting(cancelRequested: bool)   // suspended on the `_enter` thread
    | Body
    | Exiting                           // suspended on the release job
    | Over

  /** The release submitted by the coroutine: the helper thread or the normal exit. */
  datatype Job = NoJob | Submitted | Done

  /** `cancelled` and `acquired` are the `state` flags; the counters record what happened. */
  datatype Context = Context(
    thread: Thread, coroutine: Coroutine, cancelled: bool, acquired: bool, job: Job,
    wins: nat, releases: nat, lateMisses: nat)

  const OPENED := Context(Unstarted, Awaiting(false), false, false, NoJob, 0, 0, 0)

  /** A context together with the lock file it shares with everybody else. */
  datatype View = View(ctx: Context, owner: Option<Holder>)

  datatype Event =
    | StartThread | SkipThread
    | Try                      // one `flock` call
    | TryFails                 // `flock` raises an error that is not retried
    | Check(expired: bool)     // abort flag, then deadline
    | Wake
    | ThreadGuard              // the thread's guard section
    | Undo                     // `cm.__exit__` in the thread
    | RequestCancel
    | Resume                   // the await returns or raises the thread's error
    | CancelHandler            // the `except CancelledError` block
    | EndBody
    | RunJob                   // the submitted `cm.__exit__`
    | Leave                    // the exit await returns or is cancelled

  predicate Enabled(c: Context, e: Event) {
    match e
    case StartThread => c.thread == Unstarted
    case SkipThread => c.thread == Unstarted && c.coroutine in {Awaiting(true), Over}
    case Try => c.thread == Trying
    case TryFails => c.thread == Trying
    case Check(_) => c.thread == Missed
    case Wake => c.thread == Sleeping
    case ThreadGuard => c.thread == Won
    case Undo => c.thread == Undoing
    case RequestCancel => c.coroutine == Awaiting(false)
    case Resume => c.coroutine == Awaiting(false) && c.thread in {Returned, Raised}
    case CancelHandler => c.coroutine == Awaiting(true)
    case EndBody => c.coroutine == Body
    case RunJob => c.job == Submitted
    case Leave => c.coroutine == Exiting
  }

  /** `flock(LOCK_UN)` through this context's file. */
  function Unlock(v: View, me: Id): View {
    View(v.ctx.(releases := v.ctx.releases + 1), if v.owner == Some(Ours(me)) then None else v.owner)
  }

  function SetThread(v: View, t: Thread): View { v.(ctx := v.ctx.(thread := t)) }

  function TryStep(v: View, me: Id): View {
    if v.owner == None then
      View(v.ctx.(thread := Won, wins := v.ctx.wins + 1), Some(Ours(me)))
    else
      v.(ctx := v.ctx.(thread := Missed, lateMisses := v.ctx.lateMisses + (if v.ctx.cancelled then 1 else 0)))
  }

  function CheckStep(v: View, expired: bool): View {
    SetThread(v, if v.ctx.cancelled || expired then Raised else Sleeping)
  }

  function ThreadGuardStep(v: View): View {
    if v.ctx.cancelled then SetThread(v, Undoing)
    else v.(ctx := v.ctx.(acquired := true, thread := Returned))
  }

  function CancelHandlerStep(v: View): View {
    v.(ctx := v.ctx.(cancelled := true, acquired := false, coroutine := Over,
                     job := if v.ctx.acquired then Submitted else v.ctx.job))
  }

  function Step(v: View, me: Id, e: Event): View {
    match e
    case StartThread => SetThread(v, Trying)
    case SkipThread => SetThread(v, Skipped)
    case Try => TryStep(v, me)
    case TryFails => SetThread(v, Raised)
    case Check(expired) => CheckStep(v, expired)
    case Wake => SetThread(v, Trying)
    case ThreadGuard => ThreadGuardStep(v)
    case Undo => SetThread(Unlock(v, me), Raised)
    case RequestCancel => v.(ctx := v.ctx.(coroutine := Awaiting(true)))
    case Resume => v.(ctx := v.ctx.(coroutine := if v.ctx.thread == Returned then Body else Over))
    case CancelHandler => CancelHandlerStep(v)
    case EndBody => v.(ctx := v.ctx.(coroutine := Exiting, job := Submitted))
    case RunJob => Unlock(v.(ctx := v.ctx.(job := Done)), me)
    case Leave => v.(ctx := v.ctx.(coroutine := Over))
  }

  // ------------------------------------------------------------------ invariant of one context

  /** What the program counters say about the flags and the counters. */
  predicate ContextOk(c: Context) {
    && (c.cancelled ==> c.coroutine == Over)
    && (c.lateMisses <= 1 && (c.lateMisses == 1 ==> c.cancelled && c.thread in {Missed, Raised}))
    && match c.thread
       case Unstarted => Fresh(c) && (c.coroutine.Over? ==> c.cancelled)
       case Trying => Fresh(c) && (c.coroutine.Over? ==> c.cancelled)
       case Missed => Fresh(c) && (c.coroutine.Over? ==> c.cancelled)
       case Sleeping => Fresh(c) && (c.coroutine.Over? ==> c.cancelled)
       case Skipped => Fresh(c)
       case Won => Pending(c) && (c.coroutine.Over? ==> c.cancelled)
       case Undoing => Pending(c) && c.cancelled
       case Raised => c.job == NoJob && c.wins == c.releases <= 1 && NotIn(c)
       case Returned => c.wins == 1 && ReturnedOk(c)
  }

  predicate NotIn(c: Context) { !c.acquired && c.coroutine != Body && c.coroutine != Exiting }

  predicate Fresh(c: Context) { c.wins == 0 && c.releases == 0 && c.job == NoJob && NotIn(c) }

  predicate Pending(c: Context) { c.wins == 1 && c.releases == 0 && c.job == NoJob && NotIn(c) }

  predicate ReturnedOk(c: Context) {
    match c.coroutine
    case Awaiting(_) => c.acquired && c.releases == 0 && c.job == NoJob
    case Body => c.releases == 0 && c.job == NoJob
    case _ => (c.job == Submitted && c.releases == 0) || (c.job == Done && c.releases == 1)
  }

  /** A won lock that has not been released. */
  predicate Outstanding(c: Context) { c.wins == c.releases + 1 }

  lemma StepKeepsContext(v: View, me: Id, e: Event)
    requires ContextOk(v.ctx) && Enabled(v.ctx, e)
    ensures ContextOk(Step(v, me, e).ctx)
  {
  }

  /** The lock file changes hands only as this context's outstanding win says. */
  lemma StepKeepsOwner(v: View, me: Id, e: Event)
    requires ContextOk(v.ctx) && Enabled(v.ctx, e)
    requires v.owner == Some(Ours(me)) <==> Outstanding(v.ctx)
    ensures var w := Step(v, me, e);
      && (w.owner == Some(Ours(me)) <==> Outstanding(w.ctx))
      && (w.owner != v.owner ==> v.owner in {None, Some(Ours(me))} && w.owner in {None, Some(Ours(me))})
  {
  }
}
