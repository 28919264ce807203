/** The user's decisions on a finished run: merge review, complaint, abort. */
module RunReview {
  import opened Options
  import opened Texts

  datatype Status =
    | Pending | Compiling | Running | AwaitingExternal | AwaitingUserCheckpoint | Paused
    | AwaitingUserReview | AwaitingUserComplaint | ComplaintProcessing
    | ComplaintFailed | Completed | CompletedWithConflicts | Failed | Aborted | Orphaned

  const TERMINAL := {Completed, CompletedWithConflicts, ComplaintFailed, Failed, Aborted, Orphaned}
  const PRESERVED := {Paused, AwaitingUserReview, AwaitingUserComplaint}
  const ACTIVE_DRIVING := {Pending, Compiling, Running, AwaitingExternal, AwaitingUserCheckpoint, ComplaintProcessing}
  const TERMINATE_ALLOWED := {Running, AwaitingExternal, AwaitingUserCheckpoint, Paused}
  const MERGE_DECISION_ALLOWED := {AwaitingUserReview, Failed, Aborted}

  /** The three classes cover every status and do not overlap. */
  lemma StatusClasses(s: Status)
    ensures s in TERMINAL || s in PRESERVED || s in ACTIVE_DRIVING
    ensures TERMINAL !! PRESERVED !! ACTIVE_DRIVING
  {
  }

  /**
   * A run row. `postReview`, `postComplaint` and `preserved` are the entries of `run.inputs` that the decisions
   * read and write; `preserved` is empty when its entry is absent, and the order of the stored list is dropped.
   */
  datatype Run = Run(
    user: string,
    status: Status,
    pending: Option<seq<string>>,
    postReview: Option<string>,
    postComplaint: Option<Status>,
    preserved: set<string>,
    finishedAt: Option<int>)

  datatype Error = NotFound | Forbidden | RunNotRunning | NotAwaitingReview | MergeNotPending
    | NotAwaitingComplaint | InvalidComplaint | ComplaintAlreadyRunning | ComplaintStartFailed

  function PendingAgents(run: Run): seq<string> {
    match run.pending case Some(p) => p case None => []
  }

  function Without(agents: seq<string>, agent: string): (r: seq<string>)
    ensures forall a :: a in r <==> a in agents && a != agent
    ensures r != [] ==> r[0] in agents && r[0] != agent
  {
    if agents == [] then [] else (if agents[0] == agent then [] else [agents[0]]) + Without(agents[1..], agent)
  }

  function Stamp(finishedAt: Option<int>, now: int): Option<int> {
    if finishedAt == None then Some(now) else finishedAt
  }

  /** `_read_preserved_worktree_agent_ids` */
  function ReadPreserved(stored: set<string>): set<string> {
    set a | a in stored && Strip(a) != "" :: Strip(a)
  }

  /** The terminal statuses that may follow a review, by their stored value. */
  function ParsePostReview(raw: string): Option<Status> {
    if raw == "complaint_failed" then Some(ComplaintFailed)
    else if raw == "failed" then Some(Failed)
    else if raw == "aborted" then Some(Aborted)
    else None
  }

  function RawPostReview(run: Run): string {
    Strip(match run.postReview case Some(t) => t case None => "")
  }

  /** `_consume_post_review_terminal_status`: the marker goes whenever it is not blank, parsed or not. */
  function Consumed(run: Run): Run {
    if RawPostReview(run) == "" then run else run.(postReview := None)
  }

  /** `_mark_awaiting_user_complaint` */
  function MarkComplaint(run: Run, finalStatus: Status, now: int): Run {
    run.(postReview := None, postComplaint := Some(finalStatus), status := AwaitingUserComplaint,
         finishedAt := Stamp(run.finishedAt, now))
  }

  // ------------------------------------------------------------------ merge decisions

  datatype Decision = Merged(agent: string) | MergeFailed(agent: string) | Dismissed(agent: string)

  predicate CanDecide(run: Run, agent: string) {
    run.status in MERGE_DECISION_ALLOWED && agent in PendingAgents(run)
  }

  /** The status for after the complaint phase, when this decision ends the review. */
  function ReviewStatus(d: Decision): Status {
    if d.MergeFailed? then CompletedWithConflicts else Completed
  }

  /** The row with the agent's entry resolved, before the end of the review is looked at. */
  function Resolved(run: Run, d: Decision): Run {
    var left := Without(PendingAgents(run), d.agent);
    var kept := ReadPreserved(run.preserved);
    run.(pending := if left == [] then None else Some(left),
         preserved := if d.MergeFailed? then kept + {d.agent} else kept - {d.agent})
  }

  /** The stored row after a decision. */
  function Decide(run: Run, d: Decision, now: int): Run {
    var r := Resolved(run, d);
    if r.pending.Some? then r
    else
      match ParsePostReview(RawPostReview(r))
      case Some(t) => Consumed(r).(status := t, finishedAt := Stamp(r.finishedAt, now))
      case None =>
        if r.status == AwaitingUserReview then MarkComplaint(Consumed(r), ReviewStatus(d), now)
        else if d.Dismissed? then Consumed(r) // the merge handler does not store the dropped marker here
        else r
  }

  // ------------------------------------------------------------------ abort and complaint

  function AbortRun(run: Run, now: int): Run {
    run.(status := Aborted, pending := None, postReview := None, postComplaint := None,
         finishedAt := Stamp(run.finishedAt, now))
  }

  function Orphan(run: Run, now: int): Run {
    run.(status := Orphaned, finishedAt := Stamp(run.finishedAt, now))
  }

  /** Starting the complaint task either takes effect or puts the status back. */
  datatype Start = Started | Refused
}
