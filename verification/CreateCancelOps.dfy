/** The registered operation of a create, over creates and cancels of one id: what the client is told in the end. */
module CreateCancelOps {
  import opened Options
  import opened CreateCancel
  import opened CreateCancelRuns
  import opened CreateCancelSteps

  /** The state of the op `openclaw_create:<id>`, which all creates of the id share. */
  datatype Op = NoOp | OpRunning | OpSucceeded | OpFailed

  /** A create records its start, success and failure; a cancel that returns fails an op that still runs. */
  function OpNext(op: Op, s: State, st: Step): Op
    requires Enabled(s, st)
  {
    match st
    case Committed(_) => OpRunning
    case GitEnds(_, ok) => if ok then OpSucceeded else op
    case CleansUp(_, _) => OpFailed
    case _ => if Returns(s, st) && op == OpRunning then OpFailed else op
  }

  function OpAfter(op: Op, s: State, steps: seq<Step>): Op
    requires IsRun(s, steps)
    decreases |steps|
  {
    if steps == [] then op else OpAfter(OpNext(op, s, steps[0]), Do(s, steps[0]), steps[1..])
  }

  // ------------------------------------------------------------------ one create, no newer one

  /** `c` registered last, and no other create of the id is in progress. */
  predicate Alone(s: State, c: nat) {
    Named(s) && s.latest == Some(c) && forall d | d in s.creates && d != c :: s.creates[d] !in IN_PROGRESS
  }

  lemma QuietKeepsAlone(s: State, st: Step, c: nat)
    requires Alone(s, c) && Enabled(s, st) && Quiet(s, st)
    ensures Alone(Do(s, st), c)
  {
    StepKeepsNamed(s, st);
    hide Named;
    assert s.latest == Some(c) && c in s.creates && s.creates[c] !in {Entering, Registering} by { LatestBooted(s, c); }
  }

  lemma LatestBooted(s: State, c: nat)
    requires Named(s) && s.latest == Some(c)
    ensures c in s.creates && s.creates[c] in RUNNING + {Done, Untracked}
  {
  }

  /** The op follows `c`: a success once its commit went through, and until then running or failed. */
  predicate Follows(op: Op, s: State, c: nat, committed: bool) {
    if committed then op == OpSucceeded && TaskOver(s, c) else op in {OpRunning, OpFailed}
  }

  lemma OpFollows(op: Op, s: State, st: Step, c: nat, committed: bool)
    requires Alone(s, c) && Enabled(s, st) && Quiet(s, st) && Follows(op, s, c, committed)
    ensures Follows(OpNext(op, s, st), Do(s, st), c, committed || st == GitEnds(c, true))
  {
    LatestBooted(s, c);
    hide Named;
  }

  /** The event of `c` is set, and it has not passed its last check. */
  predicate CannotPass(s: State, c: nat) { c in s.tables.signalled && !At(s, c, GitCommitting) }

  lemma NeverPasses(s: State, st: Step, c: nat)
    requires Alone(s, c) && Enabled(s, st) && Quiet(s, st) && CannotPass(s, c)
    ensures CannotPass(Do(s, st), c) && st != GitEnds(c, true)
  {
    StepSignals(s, st);
    NamedAndSignalled(s, c);
    LatestBooted(s, c);
    hide Named;
  }

  predicate Commits(steps: seq<Step>, c: nat) { GitEnds(c, true) in steps }

  lemma {:induction false} OutcomeFrom(op: Op, s: State, steps: seq<Step>, k: nat, c: nat, committed: bool)
    requires Alone(s, c) && Open(s, k) && ReturnsAtEnd(s, steps, k) && Follows(op, s, c, committed)
    ensures IsRun(s, steps) && OpAfter(op, s, steps) in {OpSucceeded, OpFailed}
    ensures OpAfter(op, s, steps) == OpSucceeded <==> committed || Commits(steps, c)
    ensures CannotPass(s, c) ==> !Commits(steps, c)
    decreases |steps|
  {
    hide Enabled, Do, Alone, Open, Ended, Quiet, Follows, CannotPass, OpNext, Returns;
    var st := steps[0];
    var n, op1, done := Do(s, st), OpNext(op, s, st), committed || st == GitEnds(c, true);
    assert Commits(steps, c) <==> st == GitEnds(c, true) || Commits(steps[1..], c);
    QuietKeepsAlone(s, st, c);
    OpFollows(op, s, st, c, committed);
    if CannotPass(s, c) { NeverPasses(s, st, c); }
    if |steps| == 1 {
      assert steps[1..] == [] && OpAfter(op, s, steps) == op1;
      LastStepReturns(op, s, st, k);
      FollowsSettled(op1, n, c, done);
    } else {
      OutcomeFrom(op1, n, steps[1..], k, c, done);
    }
  }

  /** The step at which the cancel comes to its end leaves no running op. */
  lemma LastStepReturns(op: Op, s: State, st: Step, k: nat)
    requires Open(s, k) && Enabled(s, st) && Ended(Do(s, st), k)
    ensures Returns(s, st) && OpNext(op, s, st) != OpRunning
  {
  }

  lemma FollowsSettled(op: Op, s: State, c: nat, committed: bool)
    requires Follows(op, s, c, committed) && op != OpRunning
    ensures op in {OpSucceeded, OpFailed} && (op == OpSucceeded <==> committed)
  {
  }

  /**
   * Let a cancel begin while the op runs and only the create registered last is in progress, and let no create take the
   * id until it returns. Then the op is over, and it is a success if and only if the create commits in between; a
   * create that had not passed its last check when the cancel came does not.
   */
  lemma CancelOutcomeIff(before: seq<Step>, k: nat, c: nat, after: seq<Step>)
    requires IsRun(FRESH, before) && End(FRESH, before).latest == Some(c)
    requires OpAfter(NoOp, FRESH, before) == OpRunning
    requires forall d | InProgress(End(FRESH, before), d) :: d == c
    requires Enabled(End(FRESH, before), RequestCancel(k))
    requires ReturnsAtEnd(Do(End(FRESH, before), RequestCancel(k)), after, k)
    ensures var s := Do(End(FRESH, before), RequestCancel(k));
      IsRun(s, after)
      && OpAfter(OpRunning, s, after) in {OpSucceeded, OpFailed}
      && (OpAfter(OpRunning, s, after) == OpSucceeded <==> Commits(after, c))
      && (At(End(FRESH, before), c, Bootstrapping) ==> OpAfter(OpRunning, s, after) == OpFailed)
  {
    hide IsRun, End, OpAfter, ReturnsAtEnd, Named, Commits;
    FreshIsNamed();
    TablesNameTheLatest(FRESH, before);
    var s0 := End(FRESH, before);
    var s := Do(s0, RequestCancel(k));
    assert forall d | d in s0.creates && d != c :: !InProgress(s0, d);
    QuietKeepsAlone(s0, RequestCancel(k), c);
    RequestSignals(s0, k, c);
    OutcomeFrom(OpRunning, s, after, k, c, false);
  }

  lemma RequestSignals(s: State, k: nat, c: nat)
    requires Named(s) && s.latest == Some(c) && Enabled(s, RequestCancel(k))
    ensures Open(Do(s, RequestCancel(k)), k)
    ensures At(s, c, Bootstrapping) ==> CannotPass(Do(s, RequestCancel(k)), c)
  {
  }

  // ------------------------------------------------------------------ purged and a success

  lemma ExtendOp(steps: seq<Step>, st: Step) returns (longer: seq<Step>)
    requires IsRun(FRESH, steps) && Enabled(End(FRESH, steps), st)
    ensures IsRun(FRESH, longer) && End(FRESH, longer) == Do(End(FRESH, steps), st)
    ensures OpAfter(NoOp, FRESH, longer) == OpNext(OpAfter(NoOp, FRESH, steps), End(FRESH, steps), st)
  {
    RunSnoc(FRESH, steps, st);
    OpSnoc(NoOp, FRESH, steps, st);
    longer := steps + [st];
  }

  lemma {:induction false} OpSnoc(op: Op, s: State, steps: seq<Step>, st: Step)
    requires IsRun(s, steps) && Enabled(End(s, steps), st)
    ensures IsRun(s, steps + [st]) && OpAfter(op, s, steps + [st]) == OpNext(OpAfter(op, s, steps), End(s, steps), st)
    decreases |steps|
  {
    hide Enabled, Do, OpNext;
    RunSnoc(s, steps, st);
    if steps == [] {
      assert [] + [st] == [st] && [st][1..] == [];
    } else {
      assert (steps + [st])[1..] == steps[1..] + [st];
      OpSnoc(OpNext(op, s, steps[0]), Do(s, steps[0]), steps[1..], st);
    }
  }

  /**
   * A cancel that comes after the last check purges the agent although the create succeeds: its op says so, and nothing
   * is left of the agent.
   */
  lemma PurgedCreateIsReportedAsSuccess() returns (steps: seq<Step>)
    ensures IsRun(FRESH, steps) && OpAfter(NoOp, FRESH, steps) == OpSucceeded
    ensures Ended(End(FRESH, steps), 9) && Clean(End(FRESH, steps))
  {
    hide IsRun, End, OpAfter;
    steps := CommittingCreate();
    steps := ExtendOp(steps, RequestCancel(9));
    steps := ExtendOp(steps, GitEnds(0, true));
    assert End(FRESH, steps).creates == map[0 := Done];
    steps := PurgesSuccess(steps);
  }

  lemma PurgesSuccess(before: seq<Step>) returns (steps: seq<Step>)
    requires IsRun(FRESH, before) && OpAfter(NoOp, FRESH, before) == OpSucceeded
    requires End(FRESH, before) == State(
      Tables(None, Some(0), {0}, false, false, false), true, map[0 := Done], map[9 := Purging], Some(0))
    ensures IsRun(FRESH, steps) && OpAfter(NoOp, FRESH, steps) == OpSucceeded
    ensures Ended(End(FRESH, steps), 9) && Clean(End(FRESH, steps))
  {
    hide IsRun, End, OpAfter;
    steps := ExtendOp(before, Purged(9, true));
    steps := ExtendOp(steps, Probe(9, false));
    assert End(FRESH, steps).cancels == map[9 := Probing(1)];
    steps := ExtendOp(steps, Probe(9, false));
  }

  /** A create past its last check, with the agent's artifacts in place. */
  lemma CommittingCreate() returns (steps: seq<Step>)
    ensures IsRun(FRESH, steps) && OpAfter(NoOp, FRESH, steps) == OpRunning
    ensures End(FRESH, steps) == State(
      Tables(Some(0), Some(0), {}, false, true, false), true, map[0 := GitCommitting], map[], Some(0))
  {
    hide IsRun, End, OpAfter;
    steps := RegisteringCreate();
    steps := ExtendOp(steps, Committed(0));
    steps := ExtendOp(steps, BootPasses(0));
    assert End(FRESH, steps).creates == map[0 := GitCommitting];
  }

  lemma RegisteringCreate() returns (steps: seq<Step>)
    ensures IsRun(FRESH, steps) && OpAfter(NoOp, FRESH, steps) == NoOp
    ensures End(FRESH, steps) == State(
      Tables(None, None, {}, false, true, false), true, map[0 := Registering], map[], None)
  {
    assert IsRun(FRESH, []) && End(FRESH, []) == FRESH && OpAfter(NoOp, FRESH, []) == NoOp;
    hide IsRun, End, OpAfter;
    steps := ExtendOp([], Enter(0));
    steps := ExtendOp(steps, Reserve(0));
    steps := ExtendOp(steps, RegisterWrites(0));
    assert End(FRESH, steps).creates == map[0 := Registering];
  }
}
