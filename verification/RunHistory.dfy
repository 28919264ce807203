/** What holds of one run over every sequence of decisions, aborts, complaints and restarts. */
module RunHistory {
  import opened Options
  import opened Texts
  import opened RunReview
  import opened ComplaintTask

  datatype Action =
    | Decision(d: RunReview.Decision, now: int)
    | Abort(now: int)
    | Continue            // the resumed controller reports `running`
    | Complain(start: Start) // submit or skip
    | TaskStep(e: ComplaintTask.Event)
    | DrainOrphans(now: int) // the drain finds an active run that nothing drives
    | Restart(now: int)

  /** A refused action changes nothing. */
  function Act(w: World, a: Action): World {
    var run := w.run;
    match a
    case Decision(d, now) => if CanDecide(run, d.agent) then w.(run := Decide(run, d, now)) else w
    case Abort(now) => if run.status in TERMINATE_ALLOWED then w.(run := AbortRun(run, now)) else w
    case Continue => if run.status == Paused then w.(run := run.(status := Running)) else w
    case Complain(start) =>
      if run.status == AwaitingUserComplaint && w.task == NoTask && start == Started
      then World(run.(status := ComplaintProcessing), Queued) else w
    case TaskStep(e) => if Enabled(w.task, e) then Step(w, e) else w
    case DrainOrphans(now) =>
      if run.status in ACTIVE_DRIVING && w.task == NoTask then w.(run := Orphan(run, now)) else w
    case Restart(now) => World(if run.status in ACTIVE_DRIVING then Orphan(run, now) else run, NoTask)
  }

  function ActAll(w: World, actions: seq<Action>): World
    decreases |actions|
  {
    if actions == [] then w else ActAll(Act(w, actions[0]), actions[1..])
  }

  lemma ActKeepsInv(w: World, a: Action)
    requires Inv(w)
    ensures Inv(Act(w, a))
  {
    hide Strip, ReadPreserved;
    if a.TaskStep? && Enabled(w.task, a.e) { StepKeepsInv(w, a.e); }
  }

  // ------------------------------------------------------------------ no run is stuck

  /** Along the run some cancel hits the task before its first step or inside a handler, the run in processing. */
  predicate Stranded(w: World, actions: seq<Action>)
    decreases |actions|
  {
    actions != []
    && ((actions[0].TaskStep? && Strands(w, actions[0].e)) || Stranded(Act(w, actions[0]), actions[1..]))
  }

  predicate NeverStuck(w: World, actions: seq<Action>)
    decreases |actions|
  {
    !Stuck(w) && (actions == [] || NeverStuck(Act(w, actions[0]), actions[1..]))
  }

  /** A run is at some point in complaint processing without a task if and only if such a cancel comes. */
  lemma {:induction false} NoStuckComplaintIff(w: World, actions: seq<Action>)
    requires Inv(w) && !Stuck(w)
    ensures NeverStuck(w, actions) <==> !Stranded(w, actions)
    ensures Inv(ActAll(w, actions))
    decreases |actions|
  {
    hide Act, Inv, Strands, Stuck;
    if actions != [] {
      ActKeepsInv(w, actions[0]);
      StuckAfterIff(w, actions[0]);
      if Stuck(Act(w, actions[0])) {
        ActAllKeepsInv(Act(w, actions[0]), actions[1..]);
      } else {
        NoStuckComplaintIff(Act(w, actions[0]), actions[1..]);
      }
    }
  }

  lemma StuckAfterIff(w: World, a: Action)
    requires Inv(w) && !Stuck(w)
    ensures Stuck(Act(w, a)) <==> a.TaskStep? && Strands(w, a.e)
  {
    hide Strip, ReadPreserved;
    if a.TaskStep? && Enabled(w.task, a.e) { StuckIff(w, a.e); }
  }

  lemma {:induction false} ActAllKeepsInv(w: World, actions: seq<Action>)
    requires Inv(w)
    ensures Inv(ActAll(w, actions))
    decreases |actions|
  {
    hide Act, Inv;
    if actions != [] {
      ActKeepsInv(w, actions[0]);
      ActAllKeepsInv(Act(w, actions[0]), actions[1..]);
    }
  }

  /** A cancel that comes before the first step of the task leaves the run in processing with nobody to end it. */
  lemma EarlyCancelStrandsRun(w: World, drain: bool)
    requires w.run.status == AwaitingUserComplaint && w.task == NoTask
    ensures Stuck(ActAll(w, [Complain(Started), TaskStep(Cancel(drain))]))
  {
    hide ActAll;
    ActTwo(w, Complain(Started), TaskStep(Cancel(drain)));
  }

  // ------------------------------------------------------------------ terminal runs

  /** Along the run the drain handler comes to its write. */
  predicate DrainWrites(w: World, actions: seq<Action>)
    decreases |actions|
  {
    actions != []
    && ((actions[0].TaskStep? && Reverts(w, actions[0].e)) || DrainWrites(Act(w, actions[0]), actions[1..]))
  }

  /** The run is terminal with that finish time all along. */
  predicate StaysFinished(w: World, actions: seq<Action>, finishedAt: Option<int>)
    decreases |actions|
  {
    w.run.status in TERMINAL && w.run.finishedAt == finishedAt
    && (actions == [] || StaysFinished(Act(w, actions[0]), actions[1..], finishedAt))
  }

  /** A terminal run stays terminal and keeps its finish time if and only if no drain handler writes over it. */
  lemma {:induction false} TerminalIsFinalIff(w: World, actions: seq<Action>)
    requires Inv(w) && w.run.status in TERMINAL
    ensures StaysFinished(w, actions, w.run.finishedAt) <==> !DrainWrites(w, actions)
    decreases |actions|
  {
    hide Act, Inv, Reverts;
    if actions != [] {
      ActKeepsInv(w, actions[0]);
      FinishedActIff(w, actions[0]);
      if Act(w, actions[0]).run.status in TERMINAL { TerminalIsFinalIff(Act(w, actions[0]), actions[1..]); }
    }
  }

  lemma FinishedActIff(w: World, a: Action)
    requires Inv(w) && w.run.status in TERMINAL
    ensures Act(w, a).run.status in TERMINAL <==> !(a.TaskStep? && Reverts(w, a.e))
    ensures Act(w, a).run.status in TERMINAL ==> Act(w, a).run.finishedAt == w.run.finishedAt
  {
    hide Strip, ReadPreserved;
    if a.TaskStep? && Enabled(w.task, a.e) { TerminalStepIff(w, a.e); }
  }

  /**
   * A terminal run without a task stays terminal and keeps its finish time under every sequence of actions; only
   * a failed or aborted one with merges left to decide can change at all.
   */
  lemma {:induction false} SettledIsFinal(w: World, actions: seq<Action>)
    requires Inv(w) && w.run.status in TERMINAL && w.task == NoTask
    ensures ActAll(w, actions).run.status in TERMINAL && ActAll(w, actions).task == NoTask
    ensures ActAll(w, actions).run.finishedAt == w.run.finishedAt
    ensures w.run.status !in {Failed, Aborted} || PendingAgents(w.run) == [] ==> ActAll(w, actions) == w
    decreases |actions|
  {
    hide Act, Inv;
    if actions != [] {
      ActKeepsInv(w, actions[0]);
      SettledStep(w, actions[0]);
      assert actions[1..] == [] ==> ActAll(w, actions) == Act(w, actions[0]);
      SettledIsFinal(Act(w, actions[0]), actions[1..]);
    }
  }

  lemma SettledStep(w: World, a: Action)
    requires Inv(w) && w.run.status in TERMINAL && w.task == NoTask
    ensures Act(w, a).run.status in TERMINAL && Act(w, a).run.finishedAt == w.run.finishedAt
    ensures Act(w, a).task == NoTask
    ensures w.run.status !in {Failed, Aborted} || PendingAgents(w.run) == [] ==> Act(w, a) == w
  {
    hide Strip, ReadPreserved;
  }

  lemma ActTwo(w: World, a: Action, b: Action)
    ensures ActAll(w, [a, b]) == Act(Act(w, a), b)
  {
    hide Act;
    assert [a, b][1..] == [b] && [b][1..] == [];
    assert ActAll(Act(w, a), [b]) == ActAll(Act(Act(w, a), b), [b][1..]);
  }

  lemma ActThree(w: World, a: Action, b: Action, c: Action)
    ensures ActAll(w, [a, b, c]) == Act(Act(Act(w, a), b), c)
  {
    hide Act;
    assert [a, b, c][1..] == [b, c];
    ActTwo(Act(w, a), b, c);
  }

  /** A run that waited for a complaint, its complaint phase finished and its cleanup awaited. */
  lemma AfterFinish(w: World, now: int)
    requires w.run.status == AwaitingUserComplaint && w.task == NoTask
    ensures ActAll(w, [Complain(Started), TaskStep(Starts), TaskStep(Finishes(now))])
         == World(StoreTerminal(w.run, PostComplaintStatus(w.run), now), Tail)
  {
    hide ActAll;
    ActThree(w, Complain(Started), TaskStep(Starts), TaskStep(Finishes(now)));
  }

  /** A completed run becomes a waiting one and loses its finish time: the drain cancels its cleanup. */
  lemma DrainRevertsCompletedRun(w: World, now: int)
    requires w.run.status == AwaitingUserComplaint && w.task == NoTask
    ensures var finished := ActAll(w, [Complain(Started), TaskStep(Starts), TaskStep(Finishes(now))]);
      finished.run.status in {Completed, CompletedWithConflicts}
      && ActAll(finished, [TaskStep(Cancel(true)), TaskStep(Handles(now))])
         == World(w.run.(finishedAt := None), NoTask)
  {
    hide ActAll;
    AfterFinish(w, now);
    var finished := World(StoreTerminal(w.run, PostComplaintStatus(w.run), now), Tail);
    ActTwo(finished, TaskStep(Cancel(true)), TaskStep(Handles(now)));
  }

  predicate HandlerWrites(w: World, a: Action) { a.TaskStep? && a.e.Handles? && Enabled(w.task, a.e) }

  predicate SomeHandlerWrites(w: World, actions: seq<Action>)
    decreases |actions|
  {
    actions != [] && (HandlerWrites(w, actions[0]) || SomeHandlerWrites(Act(w, actions[0]), actions[1..]))
  }

  predicate KeepsRow(w: World, actions: seq<Action>, run: Run)
    decreases |actions|
  {
    w.run == run && (actions == [] || KeepsRow(Act(w, actions[0]), actions[1..], run))
  }

  /** The row of a completed run never changes if and only if no handler of its task comes to its write. */
  lemma {:induction false} CompletedStaysIff(w: World, actions: seq<Action>)
    requires Inv(w) && w.run.status in {Completed, CompletedWithConflicts}
    ensures KeepsRow(w, actions, w.run) <==> !SomeHandlerWrites(w, actions)
    decreases |actions|
  {
    hide Act, Inv, HandlerWrites;
    if actions != [] {
      ActKeepsInv(w, actions[0]);
      CompletedActIff(w, actions[0]);
      if Act(w, actions[0]).run == w.run { CompletedStaysIff(Act(w, actions[0]), actions[1..]); }
    }
  }

  lemma CompletedActIff(w: World, a: Action)
    requires Inv(w) && w.run.status in {Completed, CompletedWithConflicts}
    ensures Act(w, a).run == w.run <==> !HandlerWrites(w, a)
  {
    hide Strip, ReadPreserved;
  }

  /** A completed run becomes a failed complaint when its cleanup raises, and an aborted one when it is cancelled. */
  lemma CleanupOverwritesCompletedRun(w: World, now: int)
    requires Inv(w) && w.task == Tail
    ensures ActAll(w, [TaskStep(Raises), TaskStep(Handles(now))]).run == w.run.(status := ComplaintFailed)
    ensures ActAll(w, [TaskStep(Cancel(false)), TaskStep(Handles(now))]).run == w.run.(status := Aborted)
  {
    hide ActAll;
    ActTwo(w, TaskStep(Raises), TaskStep(Handles(now)));
    ActTwo(w, TaskStep(Cancel(false)), TaskStep(Handles(now)));
  }

  /** An aborted run has nothing left to merge and no marker, and no sequence of actions changes it any more. */
  lemma AbortIsForever(w: World, now: int, actions: seq<Action>)
    requires Inv(w) && w.run.status in TERMINATE_ALLOWED
    ensures var end := ActAll(Act(w, Abort(now)), actions);
      end == Act(w, Abort(now)) && end.run.status == Aborted && end.run.pending == None
      && end.run.postReview == None && end.run.postComplaint == None
      && end.run.preserved == w.run.preserved && end.run.user == w.run.user
  {
    hide ActAll;
    ActKeepsInv(w, Abort(now));
    SettledIsFinal(Act(w, Abort(now)), actions);
  }

  // ------------------------------------------------------------------ a whole review

  /** Every decision is accepted at its turn. */
  predicate AllAccepted(run: Run, ds: seq<(RunReview.Decision, int)>)
    decreases |ds|
  {
    ds == [] || (CanDecide(run, ds[0].0.agent) && AllAccepted(Decide(run, ds[0].0, ds[0].1), ds[1..]))
  }

  function DecideAll(run: Run, ds: seq<(RunReview.Decision, int)>): Run
    decreases |ds|
  {
    if ds == [] then run else DecideAll(Decide(run, ds[0].0, ds[0].1), ds[1..])
  }

  predicate Decided(ds: seq<(RunReview.Decision, int)>, agent: string) {
    exists i | 0 <= i < |ds| :: ds[i].0.agent == agent
  }

  lemma DecideResolves(run: Run, d: RunReview.Decision, now: int)
    ensures Decide(run, d, now).pending == Resolved(run, d).pending
    ensures Decide(run, d, now).preserved == Resolved(run, d).preserved
    ensures Resolved(run, d).pending.Some? ==> Decide(run, d, now) == Resolved(run, d)
  {
    hide Strip, ReadPreserved;
  }

  /** The agents still pending are those not yet decided, so no agent is ever decided twice. */
  lemma {:induction false} PendingAreUndecided(run: Run, ds: seq<(RunReview.Decision, int)>, agent: string)
    requires AllAccepted(run, ds)
    ensures agent in PendingAgents(DecideAll(run, ds)) <==> agent in PendingAgents(run) && !Decided(ds, agent)
    ensures forall i, j | 0 <= i < j < |ds| :: ds[i].0.agent != ds[j].0.agent
    decreases |ds|
  {
    hide Decide, Strip, ReadPreserved, CanDecide;
    if ds != [] {
      var d, now := ds[0].0, ds[0].1;
      DecideResolves(run, d, now);
      var next := Decide(run, d, now);
      PendingAreUndecided(next, ds[1..], agent);
      assert forall i | 1 <= i < |ds| :: ds[i] == ds[1..][i - 1];
      assert Decided(ds, agent) <==> d.agent == agent || Decided(ds[1..], agent);
      forall j | 1 <= j < |ds| ensures ds[j].0.agent != d.agent {
        AcceptedWasPending(next, ds[1..], j - 1);
      }
    }
  }

  lemma {:induction false} AcceptedWasPending(run: Run, ds: seq<(RunReview.Decision, int)>, i: nat)
    requires AllAccepted(run, ds) && i < |ds|
    ensures ds[i].0.agent in PendingAgents(run)
    decreases |ds|
  {
    hide Decide, Strip, ReadPreserved;
    if i > 0 {
      DecideResolves(run, ds[0].0, ds[0].1);
      AcceptedWasPending(Decide(run, ds[0].0, ds[0].1), ds[1..], i - 1);
    }
  }

  /**
   * However the pending merges of a run in review are decided, deciding the last one ends the review: in the
   * terminal status recorded for it if one is, and otherwise waiting for a complaint with the post-complaint
   * status set by that last decision alone. The recorded marker is gone in both cases.
   */
  lemma {:induction false} ReviewEnds(run: Run, ds: seq<(RunReview.Decision, int)>)
    requires run.status == AwaitingUserReview && ds != [] && AllAccepted(run, ds)
    requires forall agent | agent in PendingAgents(run) :: Decided(ds, agent)
    ensures var end := DecideAll(run, ds);
      end.pending == None && end.postReview == None && end.finishedAt.Some?
      && match ParsePostReview(RawPostReview(run))
         case Some(t) => end.status == t && end.postComplaint == run.postComplaint
         case None =>
           end.status == AwaitingUserComplaint && end.postComplaint == Some(ReviewStatus(ds[|ds| - 1].0))
    decreases |ds|
  {
    hide Strip, ReadPreserved, PendingAgents, Decide, Resolved, RawPostReview, ParsePostReview, ReviewStatus, CanDecide;
    var d, now := ds[0].0, ds[0].1;
    DecideResolves(run, d, now);
    var next := Decide(run, d, now);
    if |ds| == 1 {
      assert DecideAll(next, ds[1..]) == next;
      assert forall agent | agent in PendingAgents(run) :: Decided(ds, agent) && agent == d.agent;
      SoleDecisionEmpties(run, d);
      LastDecision(run, d, now);
    } else {
      StillInReview(run, d);
      assert AllAccepted(next, ds[1..]) && ds[1..] != [];
      assert next.pending.Some? by { AcceptedWasPending(next, ds[1..], 0); PendingIsSome(next, ds[1].0.agent); }
      forall agent | agent in PendingAgents(next) ensures Decided(ds[1..], agent) {
        LeftAreDecided(run, ds, agent);
      }
      ReviewEnds(next, ds[1..]);
    }
  }

  lemma LastDecision(run: Run, d: RunReview.Decision, now: int)
    requires run.status == AwaitingUserReview && Resolved(run, d).pending == None
    ensures var end := Decide(run, d, now);
      end.pending == None && end.postReview == None && end.finishedAt.Some?
      && match ParsePostReview(RawPostReview(run))
         case Some(t) => end.status == t && end.postComplaint == run.postComplaint
         case None => end.status == AwaitingUserComplaint && end.postComplaint == Some(ReviewStatus(d))
  {
    hide Strip, ReadPreserved, PendingAgents;
  }

  lemma StillInReview(run: Run, d: RunReview.Decision)
    ensures var r := Resolved(run, d);
      r.status == run.status && r.postComplaint == run.postComplaint && RawPostReview(r) == RawPostReview(run)
  {
    hide Strip, ReadPreserved, PendingAgents;
  }

  lemma PendingIsSome(run: Run, agent: string)
    requires agent in PendingAgents(run)
    ensures run.pending.Some?
  {
  }

  lemma SoleDecisionEmpties(run: Run, d: RunReview.Decision)
    requires forall agent | agent in PendingAgents(run) :: agent == d.agent
    ensures Resolved(run, d).pending == None
  {
    hide ReadPreserved;
  }

  lemma LeftAreDecided(run: Run, ds: seq<(RunReview.Decision, int)>, agent: string)
    requires ds != [] && agent in PendingAgents(Resolved(run, ds[0].0))
    requires agent in PendingAgents(run) ==> Decided(ds, agent)
    ensures Decided(ds[1..], agent)
  {
    hide ReadPreserved;
    var i :| 0 <= i < |ds| && ds[i].0.agent == agent;
    assert ds[1..][i - 1] == ds[i];
  }

  /** After the complaint phase is done, conflicts are reported exactly when the last decision was a failed merge. */
  lemma ConflictsAreTheLastDecision(run: Run, ds: seq<(RunReview.Decision, int)>, now: int)
    requires run.status == AwaitingUserReview && ds != [] && AllAccepted(run, ds)
    requires forall agent | agent in PendingAgents(run) :: Decided(ds, agent)
    requires ParsePostReview(RawPostReview(run)) == None
    ensures ActAll(World(DecideAll(run, ds), NoTask), [Complain(Started), TaskStep(Starts), TaskStep(Finishes(now))])
      .run.status == (if ds[|ds| - 1].0.MergeFailed? then CompletedWithConflicts else Completed)
  {
    hide Strip, ReadPreserved, DecideAll, AllAccepted, Decide, ActAll;
    ReviewEnds(run, ds);
    AfterFinish(World(DecideAll(run, ds), NoTask), now);
  }

  /** A failed merge that is not the last decision is forgotten: the run ends completed, without conflicts. */
  lemma EarlierFailureIsForgotten(now: int)
    ensures var run := Run("user", AwaitingUserReview, Some(["a", "b"]), None, None, {}, Some(0));
      var ds := [(MergeFailed("a"), now), (Merged("b"), now)];
      AllAccepted(run, ds)
      && ActAll(World(DecideAll(run, ds), NoTask), [Complain(Started), TaskStep(Starts), TaskStep(Finishes(now))])
         .run.status == Completed
  {
    var run := Run("user", AwaitingUserReview, Some(["a", "b"]), None, None, {}, Some(0));
    var ds := [(MergeFailed("a"), now), (Merged("b"), now)];
    assert ["a", "b"][1..] == ["b"];
    assert Without(["a", "b"], "a") == ["b"];
    var next := Decide(run, ds[0].0, now);
    DecideResolves(run, ds[0].0, now);
    assert next.pending == Some(["b"]) && next.status == AwaitingUserReview;
    assert ds[1..] == [(Merged("b"), now)] && ds[1..][1..] == [];
    assert AllAccepted(next, ds[1..]);
    forall agent | agent in PendingAgents(run) ensures Decided(ds, agent) {
      assert ds[0].0.agent == "a" && ds[1].0.agent == "b";
    }
    assert ParsePostReview(RawPostReview(run)) == None by { EmptyIsNoStatus(); }
    ConflictsAreTheLastDecision(run, ds, now);
  }

  lemma EmptyIsNoStatus()
    ensures Strip("") == "" && ParsePostReview("") == None
  {
  }

  // ------------------------------------------------------------------ preserved worktrees

  /** Whether the last decision that concerns this id kept its worktree. */
  function LastWord(ds: seq<(RunReview.Decision, int)>, id: string): Option<bool> {
    if ds == [] then None
    else
      var d := ds[|ds| - 1].0;
      if d.MergeFailed? && Strip(d.agent) == id then Some(true)
      else if !d.MergeFailed? && d.agent == id then Some(false)
      else LastWord(ds[..|ds| - 1], id)
  }

  function PreserveAll(stored: set<string>, ds: seq<(RunReview.Decision, int)>): set<string> {
    if ds == [] then stored
    else
      var d := ds[|ds| - 1].0;
      var kept := ReadPreserved(PreserveAll(stored, ds[..|ds| - 1]));
      if d.MergeFailed? then kept + {d.agent} else kept - {d.agent}
  }

  lemma {:induction false} PreservedOfDecisions(run: Run, ds: seq<(RunReview.Decision, int)>)
    ensures DecideAll(run, ds).preserved == PreserveAll(run.preserved, ds)
  {
    hide Decide, Strip, ReadPreserved;
    if ds != [] {
      DecideAllSnoc(run, ds);
      var front := ds[..|ds| - 1];
      PreservedOfDecisions(run, front);
      DecideResolves(DecideAll(run, front), ds[|ds| - 1].0, ds[|ds| - 1].1);
    }
  }

  lemma {:induction false} DecideAllSnoc(run: Run, ds: seq<(RunReview.Decision, int)>)
    requires ds != []
    ensures DecideAll(run, ds) == Decide(DecideAll(run, ds[..|ds| - 1]), ds[|ds| - 1].0, ds[|ds| - 1].1)
    decreases |ds|
  {
    hide Decide;
    if |ds| > 1 {
      DecideAllSnoc(Decide(run, ds[0].0, ds[0].1), ds[1..]);
      assert ds[1..][..|ds| - 2] == ds[..|ds| - 1][1..];
    } else {
      assert ds[1..] == [] && ds[..0] == [];
    }
  }

  /**
   * Over any decisions an id is preserved exactly when the last decision concerning it was a failed merge;
   * ids no decision concerns keep their initial membership.
   */
  lemma {:induction false} PreservedIff(stored: set<string>, ds: seq<(RunReview.Decision, int)>, id: string)
    requires id != ""
    ensures id in ReadPreserved(PreserveAll(stored, ds)) <==>
      match LastWord(ds, id) case Some(kept) => kept case None => id in ReadPreserved(stored)
  {
    hide Strip;
    if ds != [] {
      var d, front := ds[|ds| - 1].0, ds[..|ds| - 1];
      PreservedIff(stored, front, id);
      OneDecision(PreserveAll(stored, front), d, id);
    }
  }

  lemma OneDecision(stored: set<string>, d: RunReview.Decision, id: string)
    requires id != ""
    ensures var kept := ReadPreserved(stored);
      id in ReadPreserved(if d.MergeFailed? then kept + {d.agent} else kept - {d.agent}) <==>
      if d.MergeFailed? && Strip(d.agent) == id then true
      else if !d.MergeFailed? && d.agent == id then false
      else id in kept
  {
    hide Strip;
    var kept := ReadPreserved(stored);
    forall t | t in kept ensures Strip(t) == t && t != "" { KeptIsClean(stored, t); }
  }

  lemma KeptIsClean(stored: set<string>, t: string)
    requires t in ReadPreserved(stored)
    ensures Strip(t) == t && t != ""
  {
    hide Strip;
    var a :| a in stored && Strip(a) == t;
    StripTrim(a);
  }

  /** The same on runs, and for agents whose ids carry no surrounding whitespace. */
  lemma PreservedIsLastFailedMerge(run: Run, ds: seq<(RunReview.Decision, int)>, agent: string)
    requires AllAccepted(run, ds) && Decided(ds, agent) && agent != "" && Strip(agent) == agent
    requires forall i | 0 <= i < |ds| :: Strip(ds[i].0.agent) == ds[i].0.agent
    ensures agent in ReadPreserved(DecideAll(run, ds).preserved) <==>
      exists i | 0 <= i < |ds| :: ds[i].0 == MergeFailed(agent)
  {
    hide Strip, ReadPreserved, Decide;
    PreservedOfDecisions(run, ds);
    PreservedIff(run.preserved, ds, agent);
    PendingAreUndecided(run, ds, agent);
    LastWordOfClean(ds, agent);
  }

  lemma {:induction false} LastWordOfClean(ds: seq<(RunReview.Decision, int)>, agent: string)
    requires Decided(ds, agent) && forall i | 0 <= i < |ds| :: Strip(ds[i].0.agent) == ds[i].0.agent
    requires forall i, j | 0 <= i < j < |ds| :: ds[i].0.agent != ds[j].0.agent
    ensures LastWord(ds, agent) == Some(exists i | 0 <= i < |ds| :: ds[i].0 == MergeFailed(agent))
  {
    hide Strip;
    var n := |ds| - 1;
    var front := ds[..n];
    assert forall i | 0 <= i < n :: front[i] == ds[i];
    if ds[n].0.agent != agent {
      LastWordOfClean(front, agent);
    }
  }

  /** A failed merge keeps exactly the worktrees of agents with an id that is not blank and has no outer whitespace. */
  lemma FailedMergeIsPreservedIff(run: Run, agent: string, now: int)
    requires agent !in ReadPreserved(run.preserved)
    ensures agent in ReadPreserved(Decide(run, MergeFailed(agent), now).preserved)
      <==> agent != "" && Strip(agent) == agent
  {
    hide Strip, Decide;
    DecideResolves(run, MergeFailed(agent), now);
    var stored := ReadPreserved(run.preserved) + {agent};
    assert Decide(run, MergeFailed(agent), now).preserved == stored;
    if agent in ReadPreserved(stored) { KeptIsClean(stored, agent); }
  }
}
