/** The task behind a complaint: it works, stores the final row, and only then cleans up and ends. */
module ComplaintTask {
  import opened Options
  import opened RunReview

  /** Where the task of a run is suspended. A cancel is delivered at such a point. */
  datatype Task =
    | NoTask
    | Queued                   // created, its first step not run
    | Working                  // inside the complaint phase
    | Tail                     // final row stored, terminal cleanup awaited
    | Cancelling(drain: bool)  // the `CancelledError` handler shuts the sessions down
    | Failing                  // the `Exception` handler shuts the sessions down
    | HandlerTail              // a handler has stored its row and awaits the terminal cleanup

  datatype Event =
    | Starts
    | Finishes(now: int)  // `_finish_after_complaint_phase` up to its await
    | Raises              // the phase, or the cleanup after it, raises
    | Cancel(drain: bool) // `drain`: the scheduler is draining when the handler looks
    | Handles(now: int)   // a handler stores its row
    | Ends

  /** A run and its complaint task in this process. */
  datatype World = World(run: Run, task: Task)

  predicate Enabled(t: Task, e: Event) {
    match e
    case Starts => t == Queued
    case Finishes(_) => t == Working
    case Raises => t == Working || t == Tail
    case Cancel(_) => t != NoTask
    case Handles(_) => t.Cancelling? || t == Failing
    case Ends => t == Tail || t == HandlerTail
  }

  /** `_post_complaint_terminal_status` */
  function PostComplaintStatus(run: Run): Status {
    if run.postComplaint == Some(CompletedWithConflicts) then CompletedWithConflicts else Completed
  }

  function StoreTerminal(run: Run, status: Status, now: int): Run {
    run.(status := status, finishedAt := Stamp(run.finishedAt, now))
  }

  /** What the drain handler stores over whatever the row says. */
  function Revert(run: Run): Run { run.(status := AwaitingUserComplaint, finishedAt := None) }

  function Step(w: World, e: Event): World
    requires Enabled(w.task, e)
  {
    match e
    case Starts => w.(task := Working)
    case Finishes(now) => World(StoreTerminal(w.run, PostComplaintStatus(w.run), now), Tail)
    case Raises => w.(task := Failing)
    case Cancel(drain) =>
      // a cancel before the first step, or inside a handler, is caught by nobody
      w.(task := if w.task == Working || w.task == Tail then Cancelling(drain) else NoTask)
    case Handles(now) =>
      if w.task == Failing then World(StoreTerminal(w.run, ComplaintFailed, now), HandlerTail)
      else if w.task.drain then World(Revert(w.run), NoTask)
      else World(StoreTerminal(w.run, Aborted, now), HandlerTail)
    case Ends => w.(task := NoTask)
  }

  // ------------------------------------------------------------------ task and row

  /** What the row of a run can be while its task is where it is. */
  predicate Agree(w: World) {
    var s := w.run.status;
    match w.task
    case NoTask => true
    case Queued => s == ComplaintProcessing
    case Working => s == ComplaintProcessing
    case Tail => s in {Completed, CompletedWithConflicts}
    case Cancelling(_) => s in {ComplaintProcessing, Completed, CompletedWithConflicts}
    case Failing => s in {ComplaintProcessing, Completed, CompletedWithConflicts}
    case HandlerTail => s in {Aborted, ComplaintFailed}
  }

  /** A run that waits for a complaint, or has a task, has nothing left to merge and knows its final status. */
  predicate ReviewOver(w: World) {
    w.task != NoTask || w.run.status in {AwaitingUserComplaint, ComplaintProcessing} ==>
      w.run.pending == None && w.run.postReview == None
      && w.run.postComplaint in {Some(Completed), Some(CompletedWithConflicts)}
  }

  predicate Inv(w: World) {
    Agree(w) && ReviewOver(w) && (w.run.status in TERMINAL ==> w.run.finishedAt.Some?)
  }

  lemma StepKeepsInv(w: World, e: Event)
    requires Inv(w) && Enabled(w.task, e)
    ensures Inv(Step(w, e))
  {
  }

  /** A run in complaint processing that no task will end. */
  predicate Stuck(w: World) { w.run.status == ComplaintProcessing && w.task == NoTask }

  /** The cancel hits a task whose run is still in processing, before its first step or inside a handler. */
  predicate Strands(w: World, e: Event) {
    e.Cancel? && w.run.status == ComplaintProcessing && w.task != NoTask && w.task != Working
  }

  lemma StuckIff(w: World, e: Event)
    requires Inv(w) && Enabled(w.task, e)
    ensures Stuck(Step(w, e)) <==> Strands(w, e)
  {
  }

  /** The drain handler comes to its write. */
  predicate Reverts(w: World, e: Event) { e.Handles? && w.task == Cancelling(true) }

  /** A stored terminal status and finish time outlive a step of the task unless the drain handler writes. */
  lemma TerminalStepIff(w: World, e: Event)
    requires Inv(w) && Enabled(w.task, e) && w.run.status in TERMINAL
    ensures Step(w, e).run.status in TERMINAL <==> !Reverts(w, e)
    ensures Step(w, e).run.finishedAt == w.run.finishedAt <==> !Reverts(w, e)
  {
  }

  predicate CanRun(w: World, events: seq<Event>)
    decreases |events|
  {
    events == [] || (Enabled(w.task, events[0]) && CanRun(Step(w, events[0]), events[1..]))
  }

  function RunAll(w: World, events: seq<Event>): World
    requires CanRun(w, events)
    decreases |events|
  {
    if events == [] then w else RunAll(Step(w, events[0]), events[1..])
  }

  /** Steps until a task that is left alone is over. */
  function Rank(t: Task): nat {
    match t
    case NoTask => 0
    case Queued => 3
    case Working => 2
    case Cancelling(drain) => if drain then 1 else 2
    case Failing => 2
    case Tail => 1
    case HandlerTail => 1
  }

  /** Left alone, the task ends its run in at most three steps; a drained one reverts it. */
  lemma {:induction false} TaskEndsRun(w: World, now: int) returns (events: seq<Event>)
    requires Inv(w) && w.task != NoTask
    ensures |events| == Rank(w.task) && CanRun(w, events) && RunAll(w, events).task == NoTask
    ensures if w.task == Cancelling(true) then RunAll(w, events).run == Revert(w.run)
            else RunAll(w, events).run.status in TERMINAL
    decreases Rank(w.task)
  {
    var e := match w.task
      case Queued => Starts
      case Working => Finishes(now)
      case Cancelling(_) => Handles(now)
      case Failing => Handles(now)
      case _ => Ends;
    var next := Step(w, e);
    StepKeepsInv(w, e);
    var rest := [];
    if next.task != NoTask { rest := TaskEndsRun(next, now); }
    events := [e] + rest;
    assert events[1..] == rest;
  }
}
