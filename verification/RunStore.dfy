/** The decision handlers as methods on the stored rows. */
module RunStore {
  import opened Options
  import opened Texts
  import opened RunReview

  class Runs {
    var rows: map<string, Run>
    /** Runs with a complaint task in this process. */
    var complaints: set<string>

    constructor ()
      ensures rows == map[] && complaints == {}
    {
      rows, complaints := map[], {};
    }

    /** The row a handler works on, or why it refuses the caller. */
    function Owned(id: string, user: string): (e: Option<Error>)
      reads this
      ensures e == None <==> id in rows && rows[id].user == user
      ensures e == Some(NotFound) <==> id !in rows
      ensures e == Some(Forbidden) <==> id in rows && rows[id].user != user
    {
      if id !in rows then Some(NotFound) else if rows[id].user != user then Some(Forbidden) else None
    }

    method RunUpdate(id: string, run: Run)
      modifies this`rows
      ensures rows == old(rows)[id := run]
    {
      rows := rows[id := run];
    }

    method WritePreserved(id: string, run: Run, agents: set<string>) returns (written: Run)
      modifies this`rows
      ensures written == run.(preserved := agents) && rows == old(rows)[id := written]
    {
      written := run.(preserved := agents);
      RunUpdate(id, written);
    }

    /** `merge_pending`; `ok` is what the merge command answers. */
    method MergePending(id: string, user: string, agent: string, ok: bool, now: int) returns (e: Option<Error>)
      modifies this`rows
      ensures e == None <==> old(Owned(id, user)) == None && CanDecide(old(rows)[id], agent)
      ensures e in {Some(NotFound), Some(Forbidden)} <==> old(Owned(id, user)) == e != None
      ensures e == Some(NotAwaitingReview) <==>
        old(Owned(id, user)) == None && old(rows)[id].status !in MERGE_DECISION_ALLOWED
      ensures e != None ==> e.value in {NotFound, Forbidden, NotAwaitingReview, MergeNotPending}
      ensures e == None ==>
        rows == old(rows)[id := Decide(old(rows)[id], if ok then Merged(agent) else MergeFailed(agent), now)]
      ensures e != None ==> rows == old(rows)
    {
      hide Decide, ReadPreserved, Without, Consumed, ParsePostReview, RawPostReview, MarkComplaint;
      e := Owned(id, user);
      if e != None { return; }
      var run := rows[id];
      if run.status !in MERGE_DECISION_ALLOWED { return Some(NotAwaitingReview); }
      if agent !in PendingAgents(run) { return Some(MergeNotPending); }
      DecideCases(run, if ok then Merged(agent) else MergeFailed(agent), now);
      run := DropPending(run, agent);
      RunUpdate(id, run);
      var preserved := ReadPreserved(run.preserved);
      if ok { preserved := preserved - {agent}; } else { preserved := preserved + {agent}; }
      run := WritePreserved(id, run, preserved);
      if run.pending == None {
        var parsed := ParsePostReview(RawPostReview(run));
        run := Consumed(run);
        if parsed != None {
          run := run.(status := parsed.value, finishedAt := Stamp(run.finishedAt, now));
          RunUpdate(id, run);
        } else if run.status == AwaitingUserReview {
          RunUpdate(id, MarkComplaint(run, if ok then Completed else CompletedWithConflicts, now));
        }
      }
    }

    /** `dismiss_pending_merge` */
    method DismissPendingMerge(id: string, user: string, agent: string, now: int) returns (e: Option<Error>)
      modifies this`rows
      ensures e == None <==> old(Owned(id, user)) == None && CanDecide(old(rows)[id], agent)
      ensures e in {Some(NotFound), Some(Forbidden)} <==> old(Owned(id, user)) == e != None
      ensures e == Some(NotAwaitingReview) <==>
        (old(Owned(id, user)) == None
         && (old(rows)[id].status !in MERGE_DECISION_ALLOWED || PendingAgents(old(rows)[id]) == []))
      ensures e != None ==> e.value in {NotFound, Forbidden, NotAwaitingReview, MergeNotPending}
      ensures e == None ==> rows == old(rows)[id := Decide(old(rows)[id], Dismissed(agent), now)]
      ensures e == Some(MergeNotPending) ==>
        id in old(rows) && PendingAgents(old(rows)[id]) != [] && agent !in PendingAgents(old(rows)[id])
      ensures e != None ==> rows == old(rows)
    {
      hide Decide, ReadPreserved, Without, Consumed, ParsePostReview, RawPostReview, MarkComplaint;
      e := Owned(id, user);
      if e != None { return; }
      var run := rows[id];
      if run.status !in MERGE_DECISION_ALLOWED { return Some(NotAwaitingReview); }
      if PendingAgents(run) == [] { return Some(NotAwaitingReview); }
      if agent !in PendingAgents(run) { return Some(MergeNotPending); }
      DecideCases(run, Dismissed(agent), now);
      run := DropPending(run, agent);
      run := WritePreserved(id, run, ReadPreserved(run.preserved) - {agent});
      if run.pending == None {
        var parsed := ParsePostReview(RawPostReview(run));
        run := Consumed(run);
        if parsed != None {
          run := run.(status := parsed.value, finishedAt := Stamp(run.finishedAt, now));
          RunUpdate(id, run);
        } else if run.status == AwaitingUserReview {
          RunUpdate(id, MarkComplaint(run, Completed, now));
        } else {
          RunUpdate(id, run);
        }
      } else {
        RunUpdate(id, run);
      }
    }

    static function DropPending(run: Run, agent: string): Run {
      var left := Without(PendingAgents(run), agent);
      run.(pending := if left == [] then None else Some(left))
    }

    /** `abort_run`, with the tail cleanup left out. */
    method Abort(id: string, user: string, now: int) returns (e: Option<Error>)
      modifies this`rows
      ensures e == None <==> old(Owned(id, user)) == None && old(rows)[id].status in TERMINATE_ALLOWED
      ensures e in {Some(NotFound), Some(Forbidden)} <==> old(Owned(id, user)) == e != None
      ensures e != None ==> e.value in {NotFound, Forbidden, RunNotRunning}
      ensures rows == if e == None then old(rows)[id := AbortRun(old(rows)[id], now)] else old(rows)
    {
      e := Owned(id, user);
      if e != None { return; }
      var run := rows[id];
      if run.status !in TERMINATE_ALLOWED { return Some(RunNotRunning); }
      RunUpdate(id, AbortRun(run, now));
    }

    /** `submit_user_complaint`; the scheduler may refuse the task for reasons of its own. */
    method SubmitComplaint(id: string, user: string, message: string, start: Start) returns (e: Option<Error>)
      modifies this
      ensures e == None <==>
        (old(Owned(id, user)) == None && old(rows)[id].status == AwaitingUserComplaint
         && Strip(message) != "" && id !in old(complaints) && start == Started)
      ensures e in {Some(NotFound), Some(Forbidden)} <==> old(Owned(id, user)) == e != None
      ensures e == Some(NotAwaitingComplaint) <==>
        old(Owned(id, user)) == None && old(rows)[id].status != AwaitingUserComplaint
      ensures e == Some(InvalidComplaint) <==>
        old(Owned(id, user)) == None && old(rows)[id].status == AwaitingUserComplaint && Strip(message) == ""
      ensures e == Some(ComplaintStartFailed) ==> start == Refused
      ensures e == Some(ComplaintAlreadyRunning) ==> id in old(complaints)
      ensures rows == if e == None then old(rows)[id := old(rows)[id].(status := ComplaintProcessing)] else old(rows)
      ensures complaints == if e == None then old(complaints) + {id} else old(complaints)
    {
      e := Owned(id, user);
      if e != None { return; }
      var run := rows[id];
      if run.status != AwaitingUserComplaint { return Some(NotAwaitingComplaint); }
      if Strip(message) == "" { return Some(InvalidComplaint); }
      if id in complaints { return Some(ComplaintAlreadyRunning); }
      run := run.(status := ComplaintProcessing);
      RunUpdate(id, run);
      if start == Refused {
        run := run.(status := AwaitingUserComplaint);
        RunUpdate(id, run);
        assert rows == old(rows);
        return Some(ComplaintStartFailed);
      }
      complaints := complaints + {id};
    }

    /** `skip_user_complaint`; the inner "already running" answer cannot come after the check before it. */
    method SkipComplaint(id: string, user: string, start: Start) returns (e: Option<Error>)
      modifies this
      ensures e == None <==>
        (old(Owned(id, user)) == None && old(rows)[id].status == AwaitingUserComplaint
         && id !in old(complaints) && start == Started)
      ensures e in {Some(NotFound), Some(Forbidden)} <==> old(Owned(id, user)) == e != None
      ensures e == Some(NotAwaitingComplaint) <==>
        (old(Owned(id, user)) == None && old(rows)[id].status != AwaitingUserComplaint
         && (old(rows)[id].status == ComplaintProcessing ==> id !in old(complaints)))
      ensures e == Some(ComplaintStartFailed) ==> start == Refused
      ensures e == Some(ComplaintAlreadyRunning) ==> id in old(complaints)
      ensures rows == if e == None then old(rows)[id := old(rows)[id].(status := ComplaintProcessing)] else old(rows)
      ensures complaints == if e == None then old(complaints) + {id} else old(complaints)
    {
      e := Owned(id, user);
      if e != None { return; }
      var run := rows[id];
      if run.status == ComplaintProcessing && id in complaints { return Some(ComplaintAlreadyRunning); }
      if run.status != AwaitingUserComplaint { return Some(NotAwaitingComplaint); }
      if id in complaints { return Some(ComplaintAlreadyRunning); }
      run := run.(status := ComplaintProcessing);
      RunUpdate(id, run);
      if start == Refused {
        run := run.(status := AwaitingUserComplaint);
        RunUpdate(id, run);
        assert rows == old(rows);
        return Some(ComplaintStartFailed);
      }
      complaints := complaints + {id};
    }

    /** `_sweep_orphaned_runs` over the listed runs, once the process has lost its tasks. */
    method SweepOrphanedRuns(listed: seq<string>, now: int) returns (orphaned: nat)
      requires forall id :: id in listed <==> id in rows && rows[id].status in ACTIVE_DRIVING
      requires forall i, j | 0 <= i < j < |listed| :: listed[i] != listed[j]
      modifies this`rows
      ensures rows == Swept(old(rows), now) && orphaned == |listed|
    {
      orphaned := 0;
      ghost var start := rows;
      while orphaned < |listed|
        invariant orphaned <= |listed| && rows.Keys == start.Keys
        invariant forall id | id in listed[..orphaned] :: rows[id] == Orphan(start[id], now)
        invariant forall id | id in rows && id !in listed[..orphaned] :: rows[id] == start[id]
      {
        var id := listed[orphaned];
        assert id in listed && id !in listed[..orphaned];
        RunUpdate(id, Orphan(rows[id], now));
        assert listed[..orphaned + 1] == listed[..orphaned] + [id];
        orphaned := orphaned + 1;
      }
      assert listed[..orphaned] == listed;
    }
  }

  /** The row that a decision stores, by the branches of the handlers. */
  lemma DecideCases(run: Run, d: Decision, now: int)
    ensures var r := Resolved(run, d);
      var c := Consumed(r);
      Decide(run, d, now) ==
        if r.pending.Some? then r
        else if ParsePostReview(RawPostReview(r)).Some? then
          c.(status := ParsePostReview(RawPostReview(r)).value, finishedAt := Stamp(c.finishedAt, now))
        else if c.status == AwaitingUserReview then MarkComplaint(c, ReviewStatus(d), now)
        else if d.Dismissed? then c
        else r
  {
    hide Strip, ReadPreserved, Without, ParsePostReview;
  }

  /** Every active-driving row orphaned, every other row as it was. */
  function Swept(rows: map<string, Run>, now: int): map<string, Run> {
    map id | id in rows :: if rows[id].status in ACTIVE_DRIVING then Orphan(rows[id], now) else rows[id]
  }

  /**
   * After the sweep no run is active: those that were are orphaned, with a finish time, and keep everything else.
   * The runs that survive a restart and the finished ones are untouched.
   */
  lemma SweepReconciles(rows: map<string, Run>, now: int)
    ensures Swept(rows, now).Keys == rows.Keys
    ensures forall id | id in rows :: Swept(rows, now)[id].status !in ACTIVE_DRIVING
    ensures forall id | id in rows && rows[id].status in ACTIVE_DRIVING ::
      Swept(rows, now)[id] == rows[id].(status := Orphaned,
        finishedAt := if rows[id].finishedAt.Some? then rows[id].finishedAt else Some(now))
    ensures forall id | id in rows && (rows[id].status in PRESERVED || rows[id].status in TERMINAL) ::
      Swept(rows, now)[id] == rows[id]
    ensures Swept(Swept(rows, now), now) == Swept(rows, now)
  {
    forall id | id in rows { StatusClasses(rows[id].status); }
  }
}
