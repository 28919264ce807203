/** The closures of `async_main_repo_file_lock` over their shared `state`, as a class.

    All contexts of one repository share the `LockFile` object. */
module FileLockContext {
  import opened FileLock
  import opened Options

  class LockFile {
    var owner: Option<Holder>

    constructor ()
      ensures owner == None
    {
      owner := None;
    }
  }

  class MergeLock {
    const me: Id
    const file: LockFile
    var thread: Thread
    var coroutine: Coroutine
    var cancelled: bool
    var acquired: bool
    var job: Job
    ghost var wins: nat
    ghost var releases: nat
    ghost var lateMisses: nat

    ghost function Ctx(): Context
      reads this
    {
      Context(thread, coroutine, cancelled, acquired, job, wins, releases, lateMisses)
    }

    ghost function Now(): View
      reads this, file
    {
      View(Ctx(), file.owner)
    }

    ghost predicate Valid()
      reads this, file
    {
      ContextOk(Ctx()) && (file.owner == Some(Ours(me)) <==> Outstanding(Ctx()))
    }

    /** A context with an id that does not hold the file. */
    constructor (me: Id, file: LockFile)
      requires file.owner != Some(Ours(me))
      ensures Valid() && Ctx() == OPENED && this.me == me && this.file == file
    {
      this.me, this.file := me, file;
      thread, coroutine, cancelled, acquired, job := Unstarted, Awaiting(false), false, false, NoJob;
      wins, releases, lateMisses := 0, 0, 0;
    }

    /** A context in its body, or about to enter it, holds the file. */
    lemma BodyHoldsFile()
      requires Valid() && (coroutine == Body || (coroutine == Awaiting(false) && thread == Returned))
      ensures file.owner == Some(Ours(me))
    {
      assert ContextOk(Ctx());
    }

    /** One pass of the polling loop: `flock` without blocking. */
    method TryFlock()
      requires Valid() && Enabled(Ctx(), Try)
      modifies this, file
      ensures Valid() && Now() == Step(old(Now()), me, Try)
      ensures old(file.owner) == None ==> file.owner == Some(Ours(me)) && thread == Won
      ensures old(file.owner) != None ==> file.owner == old(file.owner) && thread == Missed
    {
      StepKeepsContext(Now(), me, Try);
      StepKeepsOwner(Now(), me, Try);
      if file.owner == None {
        file.owner := Some(Ours(me));
        thread := Won;
        wins := wins + 1;
      } else {
        thread := Missed;
        if cancelled { lateMisses := lateMisses + 1; }
      }
    }

    /** The checks between two attempts. */
    method CheckAbort(expired: bool)
      requires Valid() && Enabled(Ctx(), Check(expired))
      modifies this
      ensures Valid() && Now() == Step(old(Now()), me, Check(expired))
      ensures thread == if cancelled || expired then Raised else Sleeping
    {
      if cancelled {
        thread := Raised;
      } else if expired {
        thread := Raised;
      } else {
        thread := Sleeping;
      }
    }

    /** `_enter` after `cm.__enter__()`: the guard section. */
    method EnterGuard()
      requires Valid() && Enabled(Ctx(), ThreadGuard)
      modifies this
      ensures Valid() && Now() == Step(old(Now()), me, ThreadGuard)
      ensures thread == (if cancelled then Undoing else Returned) && acquired == !cancelled
    {
      var mustRelease;
      if cancelled {
        mustRelease := true;
      } else {
        acquired := true;
        mustRelease := false;
      }
      thread := if mustRelease then Undoing else Returned;
    }

    /** `cm.__exit__`: unlock through this context's file. */
    method ExitLock()
      requires file.owner == Some(Ours(me))
      modifies file, this`releases
      ensures file.owner == None && releases == old(releases) + 1
    {
      file.owner := None;
      releases := releases + 1;
    }

    method UndoInThread()
      requires Valid() && Enabled(Ctx(), Undo)
      modifies this, file
      ensures Valid() && Now() == Step(old(Now()), me, Undo)
    {
      StepKeepsContext(Now(), me, Undo);
      ExitLock();
      thread := Raised;
    }

    /** The `except CancelledError` block. */
    method HandleCancel()
      requires Valid() && Enabled(Ctx(), CancelHandler)
      modifies this
      ensures Valid() && Now() == Step(old(Now()), me, CancelHandler)
      ensures cancelled && !acquired && coroutine == Over && job == if old(acquired) then Submitted else old(job)
    {
      StepKeepsContext(Now(), me, CancelHandler);
      StepKeepsOwner(Now(), me, CancelHandler);
      cancelled := true;
      var acquiredBeforeCancel := acquired;
      acquired := false;
      if acquiredBeforeCancel {
        job := Submitted;
      }
      coroutine := Over;
    }

    /** The `finally` block submits the release. */
    method LeaveBody()
      requires Valid() && Enabled(Ctx(), EndBody)
      modifies this
      ensures Valid() && Now() == Step(old(Now()), me, EndBody)
    {
      coroutine := Exiting;
      job := Submitted;
    }

    /** The helper thread or the exit thread. */
    method RunRelease()
      requires Valid() && Enabled(Ctx(), RunJob)
      modifies this, file
      ensures Valid() && Now() == Step(old(Now()), me, RunJob)
    {
      StepKeepsContext(Now(), me, RunJob);
      job := Done;
      ExitLock();
    }

    /** The steps that only move a program counter. */
    method Advance(e: Event)
      requires Valid() && Enabled(Ctx(), e)
      requires e in {StartThread, SkipThread, TryFails, Wake, RequestCancel, Resume, Leave}
      modifies this
      ensures Valid() && Now() == Step(old(Now()), me, e)
    {
      StepKeepsContext(Now(), me, e);
      match e {
        case StartThread => thread := Trying;
        case Wake => thread := Trying;
        case SkipThread => thread := Skipped;
        case TryFails => thread := Raised;
        case RequestCancel => coroutine := Awaiting(true);
        case Resume => coroutine := if thread == Returned then Body else Over;
        case Leave => coroutine := Over;
      }
    }
  }
}
