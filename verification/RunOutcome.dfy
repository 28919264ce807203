/** What each decision and each step of a complaint task makes of the stored row, field by field. */
module RunOutcome {
  import opened Options
  import opened Texts
  import opened RunReview
  import opened ComplaintTask
  import opened RunHistory

  // ------------------------------------------------------------------ stored values

  /** The value a status is stored under. */
  function Value(s: Status): string {
    match s
    case Pending => "pending"
    case Compiling => "compiling"
    case Running => "running"
    case AwaitingExternal => "awaiting_external"
    case AwaitingUserCheckpoint => "awaiting_user_checkpoint"
    case Paused => "paused"
    case AwaitingUserReview => "awaiting_user_review"
    case AwaitingUserComplaint => "awaiting_user_complaint"
    case ComplaintProcessing => "complaint_processing"
    case ComplaintFailed => "complaint_failed"
    case Completed => "completed"
    case CompletedWithConflicts => "completed_with_conflicts"
    case Failed => "failed"
    case Aborted => "aborted"
    case Orphaned => "orphaned"
  }

  /** A marker is honoured exactly if it is the value of one of three terminal statuses, and names that status. */
  lemma PostReviewIff(raw: string, s: Status)
    ensures ParsePostReview(raw) == Some(s) <==> raw == Value(s) && s in {ComplaintFailed, Failed, Aborted}
  {
  }

  /** Finished, or waiting without a process: the class of a status, by its value. */
  lemma ClassByValue(s: Status)
    ensures s in TERMINAL <==>
      Value(s) in {"completed", "completed_with_conflicts", "complaint_failed", "failed", "aborted", "orphaned"}
    ensures s in PRESERVED <==> Value(s) in {"paused", "awaiting_user_review", "awaiting_user_complaint"}
  {
  }

  /** Which statuses a user may abort, and in which a merge is decided. */
  lemma AllowedByValue(s: Status)
    ensures s in TERMINATE_ALLOWED <==>
      Value(s) in {"running", "awaiting_external", "awaiting_user_checkpoint", "paused"}
    ensures s in MERGE_DECISION_ALLOWED <==> Value(s) in {"awaiting_user_review", "failed", "aborted"}
  {
  }

  // ------------------------------------------------------------------ one decision

  /** A finish time that is set stays. */
  predicate Stamped(before: Option<int>, after: Option<int>, now: int) {
    after == if before.Some? then before else Some(now)
  }

  /** The stored marker, as it is read. */
  function Marker(run: Run): string { Strip(if run.postReview.Some? then run.postReview.value else "") }

  /** The decision concerns the only agent that is left. */
  predicate IsLast(run: Run, d: RunReview.Decision) {
    run.pending.Some? && forall a | a in run.pending.value :: a == d.agent
  }

  /** A decision takes its agent off the list and settles its worktree; with others left, that is all. */
  lemma DecisionResolves(run: Run, d: RunReview.Decision, now: int)
    requires CanDecide(run, d.agent)
    ensures var end := Decide(run, d, now);
      && end.user == run.user
      && (IsLast(run, d) <==> end.pending == None)
      && (end.pending.Some? ==>
            (run.pending.Some? && multiset(end.pending.value) == multiset(run.pending.value)[d.agent := 0]))
      && (d.agent in end.preserved <==> d.MergeFailed?)
      && (forall x | x != d.agent ::
            x in end.preserved <==> x != "" && exists a | a in run.preserved :: Strip(a) == x)
      && (!IsLast(run, d) ==> end == run.(pending := end.pending, preserved := end.preserved))
  {
    hide Strip, Decide, ReadPreserved;
    DecideResolves(run, d, now);
    WithoutCounts(PendingAgents(run), d.agent);
    WithoutIsEmptyIff(PendingAgents(run), d.agent);
    ReadPreservedIs(run.preserved);
    ResolvedKeeps(run, d, now);
  }

  lemma ResolvedKeeps(run: Run, d: RunReview.Decision, now: int)
    ensures Decide(run, d, now).user == run.user
    ensures var r := Resolved(run, d); r == run.(pending := r.pending, preserved := r.preserved)
  {
    hide Strip, ReadPreserved, ParsePostReview;
  }

  lemma ReadPreservedIs(stored: set<string>)
    ensures forall x :: x in ReadPreserved(stored) <==> x != "" && exists a | a in stored :: Strip(a) == x
  {
    hide Strip;
  }

  lemma {:induction false} WithoutCounts(agents: seq<string>, agent: string)
    ensures multiset(RunReview.Without(agents, agent)) == multiset(agents)[agent := 0]
  {
    if agents != [] {
      var rest := agents[1..];
      WithoutCounts(rest, agent);
      assert agents == [agents[0]] + rest;
      assert multiset(agents) == multiset{agents[0]} + multiset(rest);
    }
  }

  lemma WithoutIsEmptyIff(agents: seq<string>, agent: string)
    ensures RunReview.Without(agents, agent) == [] <==> forall a | a in agents :: a == agent
  {
    hide RunReview.Without;
    var left := RunReview.Without(agents, agent);
    if left == [] {
      forall a | a in agents ensures a == agent { assert a !in left; }
    }
  }

  /**
   * The last decision: a recorded terminal status takes effect; otherwise a run in review waits for a complaint, with
   * conflicts exactly if this merge failed, and a failed or aborted run stays as it is.
   */
  lemma LastDecisionFields(run: Run, d: RunReview.Decision, now: int)
    requires CanDecide(run, d.agent) && IsLast(run, d)
    ensures var end := Decide(run, d, now);
      if Marker(run) in {"complaint_failed", "failed", "aborted"} then
        Value(end.status) == Marker(run) && end.postReview == None && end.postComplaint == run.postComplaint
        && Stamped(run.finishedAt, end.finishedAt, now)
      else if run.status == AwaitingUserReview then
        end.status == AwaitingUserComplaint && end.postReview == None
        && end.postComplaint == Some(if d.MergeFailed? then CompletedWithConflicts else Completed)
        && Stamped(run.finishedAt, end.finishedAt, now)
      else
        end.status == run.status && end.postComplaint == run.postComplaint && end.finishedAt == run.finishedAt
        && end.postReview == if d.Dismissed? && Marker(run) != "" then None else run.postReview
  {
    hide Strip, ReadPreserved, Value;
    WithoutIsEmptyIff(PendingAgents(run), d.agent);
    var r := Resolved(run, d);
    assert r.pending == None;
    MarkerNames(Marker(run));
    assert RawPostReview(r) == Marker(run);
    hide Resolved, ParsePostReview, CanDecide, IsLast;
  }

  lemma MarkerNames(raw: string)
    ensures ParsePostReview(raw).Some? <==> raw in {"complaint_failed", "failed", "aborted"}
    ensures ParsePostReview(raw).Some? ==> Value(ParsePostReview(raw).value) == raw && raw != ""
  {
  }

  // ------------------------------------------------------------------ the other actions on a run

  /** An aborted run has lost its merges and its markers, and has its finish time. */
  lemma AbortFields(w: World, now: int)
    ensures var t := Act(w, Abort(now));
      if w.run.status in {Running, AwaitingExternal, AwaitingUserCheckpoint, Paused} then
        t == w.(run := Run(w.run.user, Aborted, None, None, None, w.run.preserved, t.run.finishedAt))
        && Stamped(w.run.finishedAt, t.run.finishedAt, now)
      else t == w
  {
  }

  /** A restart, or a drain that finds nothing driving the run, orphans exactly the runs that needed a process. */
  lemma OrphanedIff(w: World, now: int)
    ensures var t := Act(w, Restart(now));
      && t.task == NoTask && (w.run.status in PRESERVED + TERMINAL ==> t.run == w.run)
      && (w.run.status in ACTIVE_DRIVING ==>
            t.run == w.run.(status := Orphaned, finishedAt := t.run.finishedAt)
            && Stamped(w.run.finishedAt, t.run.finishedAt, now))
    ensures Act(w, DrainOrphans(now)) == if w.task == NoTask then Act(w, Restart(now)) else w
  {
    StatusClasses(w.run.status);
  }

  /** A paused run survives a restart and is resumed after it; nothing else is resumed. */
  lemma PausedSurvivesRestart(w: World, now: int)
    ensures var t := ActAll(w, [Restart(now), Continue]);
      && (w.run.status == Paused ==> t == World(w.run.(status := Running), NoTask))
      && (w.run.status != Paused ==> t == Act(w, Restart(now)))
  {
    hide ActAll;
    ActTwo(w, Restart(now), Continue);
  }

  // ------------------------------------------------------------------ the complaint task

  lemma ActThreeTasks(w: World, e: ComplaintTask.Event, f: ComplaintTask.Event, g: ComplaintTask.Event)
    ensures ActAll(w, [TaskStep(e), TaskStep(f), TaskStep(g)])
      == Act(Act(Act(w, TaskStep(e)), TaskStep(f)), TaskStep(g))
  {
    hide Act, ActAll;
    ActThree(w, TaskStep(e), TaskStep(f), TaskStep(g));
  }

  lemma ActFourTasks(w: World, a: Action, e: ComplaintTask.Event, f: ComplaintTask.Event, g: ComplaintTask.Event)
    ensures ActAll(w, [a, TaskStep(e), TaskStep(f), TaskStep(g)])
      == Act(Act(Act(Act(w, a), TaskStep(e)), TaskStep(f)), TaskStep(g))
  {
    hide Act;
    assert [a, TaskStep(e), TaskStep(f), TaskStep(g)][1..] == [TaskStep(e), TaskStep(f), TaskStep(g)];
    ActThreeTasks(Act(w, a), e, f, g);
  }

  /**
   * A complaint is taken up exactly for a run that waits for one and has no task. Left alone, its phase then stores the
   * post-complaint status and a finish time, and the cleanup after it changes nothing.
   */
  lemma ComplaintPhaseEnds(w: World, now: int)
    requires Inv(w)
    ensures Act(w, Complain(Refused)) == w
    ensures w.run.status != AwaitingUserComplaint || w.task != NoTask ==> Act(w, Complain(Started)) == w
    ensures w.run.status == AwaitingUserComplaint && w.task == NoTask ==>
      var t := ActAll(w, [Complain(Started), TaskStep(Starts), TaskStep(Finishes(now)), TaskStep(Ends)]);
      && t.task == NoTask && t.run == w.run.(status := t.run.status, finishedAt := t.run.finishedAt)
      && Some(t.run.status) == w.run.postComplaint && Stamped(w.run.finishedAt, t.run.finishedAt, now)
  {
    hide ActAll;
    ActFourTasks(w, Complain(Started), Starts, Finishes(now), Ends);
  }

  /**
   * In the phase or in the cleanup after it: an exception ends the run as a failed complaint, a cancel as aborted, and
   * a drain puts it back to waiting for a complaint, without a finish time.
   */
  lemma InterruptedPhase(w: World, now: int)
    requires Inv(w) && w.task in {Working, Tail}
    ensures var t := ActAll(w, [TaskStep(Raises), TaskStep(Handles(now)), TaskStep(Ends)]);
      t == World(w.run.(status := ComplaintFailed, finishedAt := t.run.finishedAt), NoTask)
      && Stamped(w.run.finishedAt, t.run.finishedAt, now)
    ensures var t := ActAll(w, [TaskStep(Cancel(false)), TaskStep(Handles(now)), TaskStep(Ends)]);
      t == World(w.run.(status := Aborted, finishedAt := t.run.finishedAt), NoTask)
      && Stamped(w.run.finishedAt, t.run.finishedAt, now)
    ensures ActAll(w, [TaskStep(Cancel(true)), TaskStep(Handles(now))])
      == World(w.run.(status := AwaitingUserComplaint, finishedAt := None), NoTask)
  {
    hide ActAll, Inv;
    ActThreeTasks(w, Raises, Handles(now), Ends);
    ActThreeTasks(w, Cancel(false), Handles(now), Ends);
    ActTwo(w, TaskStep(Cancel(true)), TaskStep(Handles(now)));
  }

  /** A second cancel, while a handler is at work, ends the task and leaves the row as it was. */
  lemma SecondCancelKeepsRow(w: World, first: ComplaintTask.Event, again: bool)
    requires w.task in {Working, Tail} && first in {Raises, Cancel(false), Cancel(true)}
    ensures ActAll(w, [TaskStep(first), TaskStep(Cancel(again))]) == World(w.run, NoTask)
  {
    hide ActAll;
    ActTwo(w, TaskStep(first), TaskStep(Cancel(again)));
  }
}
