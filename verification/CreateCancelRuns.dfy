/** What a cancelled create leaves behind, over all interleavings of creates, bootstraps and cancels of one id. */
module CreateCancelRuns {
  import opened Options
  import opened CreateCancel

  const FRESH := State(Tables(None, None, {}, false, false, false), false, map[], map[], None)

  predicate IsRun(s: State, steps: seq<Step>)
    decreases |steps|
  {
    steps == [] || (Enabled(s, steps[0]) && IsRun(Do(s, steps[0]), steps[1..]))
  }

  function End(s: State, steps: seq<Step>): State
    requires IsRun(s, steps)
    decreases |steps|
  {
    if steps == [] then s else End(Do(s, steps[0]), steps[1..])
  }

  /** Whatever creates, ends and cancels overlap, the tables name the create registered last while it is alive. */
  lemma {:induction false} TablesNameTheLatest(s: State, steps: seq<Step>)
    requires Named(s) && IsRun(s, steps)
    ensures Named(End(s, steps))
    decreases |steps|
  {
    hide Enabled, Do, Named;
    if steps != [] {
      StepKeepsNamed(s, steps[0]);
      TablesNameTheLatest(Do(s, steps[0]), steps[1..]);
    }
  }

  lemma FreshIsNamed()
    ensures Named(FRESH)
  {
  }

  // ------------------------------------------------------------------ whom a cancel request reaches

  /** A bootstrap passes its last check unless the event of the running create registered last is set. */
  lemma PassesCheckIff(steps: seq<Step>, c: nat)
    requires IsRun(FRESH, steps)
    ensures var s := End(FRESH, steps);
      Enabled(s, BootPasses(c)) <==>
        (At(s, c, Bootstrapping)
         && (Current(s, RUNNING) == None || Current(s, RUNNING).value !in s.tables.signalled))
  {
    hide IsRun, End;
    FreshIsNamed();
    TablesNameTheLatest(FRESH, steps);
  }

  lemma {:induction false} SignalledGrows(s: State, steps: seq<Step>)
    requires IsRun(s, steps)
    ensures s.tables.signalled <= End(s, steps).tables.signalled
    decreases |steps|
  {
    hide Enabled, Do;
    if steps != [] {
      StepSignals(s, steps[0]);
      SignalledGrows(Do(s, steps[0]), steps[1..]);
    }
  }

  lemma StepSignals(s: State, st: Step)
    requires Enabled(s, st)
    ensures s.tables.signalled <= Do(s, st).tables.signalled
  {
  }

  /**
   * A cancel request that meets the running create registered last keeps it from passing its last check for as
   * long as no newer create registers, whatever else happens.
   */
  lemma CancelReachesTheLatest(before: seq<Step>, k: nat, c: nat, after: seq<Step>)
    requires IsRun(FRESH, before) && Enabled(End(FRESH, before), RequestCancel(k))
    requires End(FRESH, before).latest == Some(c) && At(End(FRESH, before), c, Bootstrapping)
    requires IsRun(Do(End(FRESH, before), RequestCancel(k)), after)
    requires End(Do(End(FRESH, before), RequestCancel(k)), after).latest == Some(c)
    ensures !Enabled(End(Do(End(FRESH, before), RequestCancel(k)), after), BootPasses(c))
  {
    hide IsRun, End;
    FreshIsNamed();
    TablesNameTheLatest(FRESH, before);
    var s := End(FRESH, before);
    var t := Do(s, RequestCancel(k));
    StepKeepsNamed(s, RequestCancel(k));
    assert c in t.tables.signalled;
    TablesNameTheLatest(t, after);
    SignalledGrows(t, after);
    hide Do;
    NamedAndSignalled(End(t, after), c);
  }

  lemma NamedAndSignalled(s: State, c: nat)
    requires Named(s) && s.latest == Some(c) && c in s.tables.signalled
    ensures !Enabled(s, BootPasses(c))
  {
  }

  /** When the bootstrap registered last ends, well or not, its event is gone and so are reservation and flags. */
  lemma EndOfBootstrapIsClean(steps: seq<Step>, c: nat, st: Step)
    requires IsRun(FRESH, steps) && End(FRESH, steps).latest == Some(c) && Enabled(End(FRESH, steps), st)
    requires st == GitEnds(c, true) || st == CleansUp(c, true) || st == CleansUp(c, false)
    ensures var t := Do(End(FRESH, steps), st).tables;
      t.event == None && !t.requested && !t.reserved && !t.cancelled
  {
    hide IsRun, End;
    FreshIsNamed();
    TablesNameTheLatest(FRESH, steps);
  }

  // ------------------------------------------------------------------ one create at a time

  predicate InProgress(s: State, c: nat) { c in s.creates && s.creates[c] in IN_PROGRESS }

  /** Exactly the create in progress, if there is one, holds the reservation. */
  ghost predicate Exclusive(s: State) {
    && (forall c, d | InProgress(s, c) && InProgress(s, d) :: c == d)
    && (s.tables.reserved <==> exists c :: InProgress(s, c))
  }

  /** The cancel's step is its last: it waited long enough, or the id looks absent and no tracked task is live. */
  predicate Returns(s: State, st: Step)
    requires Enabled(s, st)
  {
    match st
    case Resume(_, _) => true
    case Probe(k, _) =>
      !s.artifacts && s.cancels[k].absent + 1 >= REQUIRED_ABSENT
      && (s.tables.task == None || TaskOver(s, s.tables.task.value))
    case _ => false
  }

  /** A cancel releases a reservation that is held, or a create loses its request while it holds it. */
  predicate Breaks(s: State, st: Step)
    requires Enabled(s, st)
  {
    (Returns(s, st) && s.tables.reserved) || (st.Disconnects? && At(s, st.c, Registering))
  }

  /** Exactly these two kinds of step end the correspondence of reservation and create. */
  lemma ExclusiveIff(s: State, st: Step)
    requires Exclusive(s) && Enabled(s, st)
    ensures Exclusive(Do(s, st)) <==> !Breaks(s, st)
  {
    var n := Do(s, st);
    if Breaks(s, st) {
      HolderExists(s, st);
      BrokenStep(s, st);
    } else {
      ProgressOfStep(s, st);
      if n.tables.reserved {
        if s.tables.reserved {
          var c :| InProgress(s, c);
          assert InProgress(n, c);
        } else {
          assert InProgress(n, st.c);
        }
      }
    }
  }

  lemma HolderExists(s: State, st: Step)
    requires Exclusive(s) && Enabled(s, st) && Breaks(s, st)
    ensures s.tables.reserved
  {
    if st.Disconnects? { assert InProgress(s, st.c); }
  }

  lemma BrokenStep(s: State, st: Step)
    requires Exclusive(s) && Enabled(s, st) && Breaks(s, st) && s.tables.reserved
    ensures !Exclusive(Do(s, st))
  {
    var n := Do(s, st);
    if Returns(s, st) {
      var c :| InProgress(s, c);
      assert n.creates == s.creates && InProgress(n, c) && !n.tables.reserved;
    } else {
      var lost := st.c;
      assert InProgress(s, lost);
      assert forall c :: InProgress(n, c) ==> InProgress(s, c) && c != lost;
    }
  }

  /** Any other step leaves the reservation and what is in progress alone, or changes both together. */
  lemma ProgressOfStep(s: State, st: Step)
    requires Enabled(s, st) && !Breaks(s, st)
    ensures var n := Do(s, st);
      (n.tables.reserved == s.tables.reserved && (forall c :: InProgress(n, c) <==> InProgress(s, c)))
      || (st.Reserve? && !s.tables.reserved && n.tables.reserved
          && (forall c :: InProgress(n, c) <==> InProgress(s, c) || c == st.c))
      || (!n.tables.reserved
          && exists b :: InProgress(s, b) && forall c :: InProgress(n, c) <==> InProgress(s, c) && c != b)
  {
    var n := Do(s, st);
    match st
    case CommitAborts(c, _) => assert InProgress(s, c);
    case CommitFails(c, _) => assert InProgress(s, c);
    case GitEnds(c, _) => assert InProgress(s, c);
    case CleansUp(c, _) => assert InProgress(s, c);
    case _ =>
  }

  predicate SomeBreak(s: State, steps: seq<Step>)
    requires IsRun(s, steps)
    decreases |steps|
  {
    steps != [] && (Breaks(s, steps[0]) || SomeBreak(Do(s, steps[0]), steps[1..]))
  }

  ghost predicate AlwaysExclusive(s: State, steps: seq<Step>)
    requires IsRun(s, steps)
    decreases |steps|
  {
    Exclusive(s) && (steps == [] || AlwaysExclusive(Do(s, steps[0]), steps[1..]))
  }

  /**
   * At most one create is in progress all along, and it holds the reservation, if and only if no cancel returns
   * while the reservation is held and no create loses its request inside `commit_agent`.
   */
  lemma {:induction false} OneCreateAtATimeIff(s: State, steps: seq<Step>)
    requires Exclusive(s) && IsRun(s, steps)
    ensures AlwaysExclusive(s, steps) <==> !SomeBreak(s, steps)
    decreases |steps|
  {
    hide Enabled, Do, Exclusive, Breaks;
    if steps != [] {
      ExclusiveIff(s, steps[0]);
      var n := Do(s, steps[0]);
      if Exclusive(n) { OneCreateAtATimeIff(n, steps[1..]); }
    }
  }

  lemma FreshIsExclusive()
    ensures Exclusive(FRESH)
  {
  }

  // ------------------------------------------------------------------ the reservation of a lost request

  /** The reservation is held and no create is in progress. */
  ghost predicate Leaked(s: State) { s.tables.reserved && forall c :: !InProgress(s, c) }

  lemma LeakStays(s: State, st: Step)
    requires Leaked(s) && Enabled(s, st) && !Returns(s, st)
    ensures Leaked(Do(s, st))
  {
    hide Do;
    LeakedStep(s, st);
    forall c ensures !InProgress(Do(s, st), c) { assert !InProgress(s, c); }
  }

  lemma LeakedStep(s: State, st: Step)
    requires s.tables.reserved && Enabled(s, st) && !Returns(s, st) && forall c :: !InProgress(s, c)
    ensures Do(s, st).tables.reserved
    ensures forall c :: InProgress(Do(s, st), c) ==> InProgress(s, c)
  {
    match st
    case CommitAborts(c, _) => assert InProgress(s, c);
    case CommitFails(c, _) => assert InProgress(s, c);
    case GitEnds(c, _) => assert InProgress(s, c);
    case CleansUp(c, _) => assert InProgress(s, c);
    case _ =>
  }

  predicate NoReturn(s: State, steps: seq<Step>)
    requires IsRun(s, steps)
    decreases |steps|
  {
    steps == [] || (!Returns(s, steps[0]) && NoReturn(Do(s, steps[0]), steps[1..]))
  }

  /** Until a cancel of the id returns, such a reservation stays and every create of the id is refused. */
  lemma {:induction false} LeakBlocksTheId(s: State, steps: seq<Step>)
    requires Leaked(s) && IsRun(s, steps) && NoReturn(s, steps)
    ensures Leaked(End(s, steps))
    ensures forall c :: c in End(s, steps).creates ==> End(s, steps).creates[c] !in IN_PROGRESS
    decreases |steps|
  {
    hide Enabled, Do, Leaked, Returns;
    if steps != [] {
      LeakStays(s, steps[0]);
      LeakBlocksTheId(Do(s, steps[0]), steps[1..]);
    } else {
      NobodyInProgress(s);
    }
  }

  lemma NobodyInProgress(s: State)
    requires Leaked(s)
    ensures forall c :: c in s.creates ==> s.creates[c] !in IN_PROGRESS
  {
    forall c | c in s.creates ensures s.creates[c] !in IN_PROGRESS { assert !InProgress(s, c); }
  }

  // ------------------------------------------------------------------ no residue

  /**
   * The cancel `k` meets the create `c`: no other create of the id is in progress, `c` cannot pass its last
   * check any more, and once the cancel waits for `c` an artifact can only be one that `c` will still clean up.
   */
  predicate Cancelling(s: State, k: nat, c: nat) {
    && Named(s) && s.latest == Some(c) && k in s.cancels
    && (forall d | d in s.creates && d != c :: s.creates[d] !in IN_PROGRESS)
    && match s.cancels[k]
       case Purging => At(s, c, Bootstrapping) ==> c in s.tables.signalled
       case Probing(_) => At(s, c, Bootstrapping) ==> c in s.tables.signalled
       case Awaiting(t) =>
         t == c && (At(s, c, Bootstrapping) ==> c in s.tables.signalled)
         && (s.artifacts ==> At(s, c, Bootstrapping) || At(s, c, Failing))
       case Returned => true
       case Raised => true
  }

  /** The cancel waits for `c`, which is over and may have left artifacts behind. */
  predicate WaitsInVain(s: State, k: nat, c: nat) {
    && Named(s) && s.latest == Some(c) && k in s.cancels && s.cancels[k] == Awaiting(c)
    && forall d | d in s.creates :: s.creates[d] !in IN_PROGRESS
  }

  /** No create gets the reservation. */
  predicate Quiet(s: State, st: Step) { st.Reserve? ==> s.tables.reserved }

  predicate Open(s: State, k: nat) { k in s.cancels && s.cancels[k] != Returned && s.cancels[k] != Raised }

  predicate Ended(s: State, k: nat) { k in s.cancels && s.cancels[k] == Returned }

  /** A run of quiet steps at whose last step, and no earlier one, the cancel returns; it does not raise. */
  predicate ReturnsAtEnd(s: State, steps: seq<Step>, k: nat)
    decreases |steps|
  {
    steps != [] && Enabled(s, steps[0]) && Quiet(s, steps[0])
    && if |steps| == 1 then Ended(Do(s, steps[0]), k)
       else Open(Do(s, steps[0]), k) && ReturnsAtEnd(Do(s, steps[0]), steps[1..], k)
  }

  /** No artifact, reservation, event or flag of the id, and no task that is still running. */
  predicate Clean(s: State) {
    !s.artifacts && !s.tables.reserved && s.tables.event == None && !s.tables.requested && !s.tables.cancelled
    && forall c | c in s.creates :: s.creates[c] !in IN_PROGRESS
  }

  /** The bootstrap's cleanup fails on an artifact while the cancel waits for it. */
  predicate CleanupFails(s: State, st: Step, k: nat, c: nat) {
    st == CleansUp(c, false) && s.artifacts && k in s.cancels && s.cancels[k] == Awaiting(c)
  }

  /** No other cancel of the id purges it successfully. */
  predicate NoPurge(steps: seq<Step>) { forall i | 0 <= i < |steps| :: steps[i].Purged? ==> !steps[i].clean }

  predicate LeftBehind(s: State, steps: seq<Step>, k: nat, c: nat)
    decreases |steps|
  {
    steps != [] && Enabled(s, steps[0])
    && ((CleanupFails(s, steps[0], k, c) && NoPurge(steps[1..])) || LeftBehind(Do(s, steps[0]), steps[1..], k, c))
  }

  /** The wait window of the cancel ends before the bootstrap does. */
  predicate OutlivesWindow(s: State, steps: seq<Step>, k: nat, c: nat)
    decreases |steps|
  {
    steps != [] && Enabled(s, steps[0])
    && ((steps[0] == Resume(k, true) && !TaskOver(s, c)) || OutlivesWindow(Do(s, steps[0]), steps[1..], k, c))
  }

  lemma RequestStartsCancelling(s: State, k: nat, c: nat)
    requires Named(s) && Enabled(s, RequestCancel(k)) && s.latest == Some(c)
    requires forall d | d in s.creates && d != c :: s.creates[d] !in IN_PROGRESS
    ensures Cancelling(Do(s, RequestCancel(k)), k, c) && Open(Do(s, RequestCancel(k)), k)
  {
  }

  lemma CreateStepKeepsCancelling(s: State, st: Step, k: nat, c: nat)
    requires Cancelling(s, k, c) && Open(s, k) && Enabled(s, st) && Quiet(s, st) && !IsCancelStep(st)
    ensures Open(Do(s, st), k)
    ensures if CleanupFails(s, st, k, c) then WaitsInVain(Do(s, st), k, c) && Do(s, st).artifacts
            else Cancelling(Do(s, st), k, c)
  {
    StepKeepsNamed(s, st);
  }

  lemma CancelStepKeepsCancelling(s: State, st: Step, k: nat, c: nat)
    requires Cancelling(s, k, c) && Open(s, k) && Enabled(s, st) && IsCancelStep(st)
    ensures Cancelling(Do(s, st), k, c)
    ensures Ended(Do(s, st), k) ==> (Clean(Do(s, st)) <==> !(st == Resume(k, true) && !TaskOver(s, c)))
    ensures Open(Do(s, st), k) ==> !(st == Resume(k, true) && !TaskOver(s, c))
  {
    StepKeepsNamed(s, st);
  }

  lemma VainStep(s: State, st: Step, k: nat, c: nat)
    requires WaitsInVain(s, k, c) && Enabled(s, st) && Quiet(s, st)
    ensures Open(Do(s, st), k) ==> WaitsInVain(Do(s, st), k, c)
    ensures Ended(Do(s, st), k) ==> (Clean(Do(s, st)) <==> !Do(s, st).artifacts)
    ensures Do(s, st).artifacts <==> s.artifacts && (st.Purged? ==> !st.clean)
    ensures !CleanupFails(s, st, k, c) && TaskOver(s, c)
  {
    StepKeepsNamed(s, st);
  }

  lemma {:induction false} VainReturn(s: State, steps: seq<Step>, k: nat, c: nat)
    requires WaitsInVain(s, k, c) && ReturnsAtEnd(s, steps, k)
    ensures IsRun(s, steps) && !LeftBehind(s, steps, k, c) && !OutlivesWindow(s, steps, k, c)
    ensures Clean(End(s, steps)) <==> !(s.artifacts && NoPurge(steps))
    decreases |steps|
  {
    hide Enabled, Do, WaitsInVain, Open, Ended, Clean, Quiet, CleanupFails, TaskOver;
    VainStep(s, steps[0], k, c);
    assert forall i | 1 <= i < |steps| :: steps[i] == steps[1..][i - 1];
    if |steps| == 1 {
      assert End(s, steps) == End(Do(s, steps[0]), steps[1..]) == Do(s, steps[0]);
      assert !LeftBehind(Do(s, steps[0]), steps[1..], k, c) && !OutlivesWindow(Do(s, steps[0]), steps[1..], k, c);
    } else {
      VainReturn(Do(s, steps[0]), steps[1..], k, c);
    }
  }

  lemma {:induction false} ReturnIsCleanIff(s: State, steps: seq<Step>, k: nat, c: nat)
    requires Cancelling(s, k, c) && Open(s, k) && ReturnsAtEnd(s, steps, k)
    ensures IsRun(s, steps)
    ensures Clean(End(s, steps)) <==> !LeftBehind(s, steps, k, c) && !OutlivesWindow(s, steps, k, c)
    decreases |steps|
  {
    hide Enabled, Do, Cancelling, WaitsInVain, Open, Ended, Clean, Quiet, TaskOver;
    var st := steps[0];
    var n := Do(s, st);
    OpenIsNotEnded(n, k);
    if IsCancelStep(st) {
      CancelStepKeepsCancelling(s, st, k, c);
    } else {
      CreateStepKeepsCancelling(s, st, k, c);
    }
    if |steps| == 1 {
      assert End(s, steps) == End(n, steps[1..]) == n;
      assert !LeftBehind(n, steps[1..], k, c) && !OutlivesWindow(n, steps[1..], k, c);
    } else if CleanupFails(s, st, k, c) {
      VainReturn(n, steps[1..], k, c);
    } else {
      ReturnIsCleanIff(n, steps[1..], k, c);
    }
  }

  lemma OpenIsNotEnded(s: State, k: nat)
    ensures !(Open(s, k) && Ended(s, k))
  {
  }

  /**
   * In any run, let a cancel begin when only the create registered last is in progress, and let no create take
   * the id until it returns. Then nothing of the id is left at its return if and only if the bootstrap did not
   * outlive the wait window, and did not leave an artifact behind that its cleanup failed on.
   */
  lemma CancelLeavesNothingIff(before: seq<Step>, k: nat, c: nat, after: seq<Step>)
    requires IsRun(FRESH, before) && End(FRESH, before).latest == Some(c)
    requires forall d | InProgress(End(FRESH, before), d) :: d == c
    requires Enabled(End(FRESH, before), RequestCancel(k))
    requires ReturnsAtEnd(Do(End(FRESH, before), RequestCancel(k)), after, k)
    ensures var s := Do(End(FRESH, before), RequestCancel(k));
      IsRun(s, after)
      && (Clean(End(s, after)) <==> !LeftBehind(s, after, k, c) && !OutlivesWindow(s, after, k, c))
  {
    hide IsRun, End, ReturnsAtEnd, Clean, Named, LeftBehind, OutlivesWindow;
    FreshIsNamed();
    TablesNameTheLatest(FRESH, before);
    var s := End(FRESH, before);
    assert forall d | d in s.creates && d != c :: !InProgress(s, d);
    RequestStartsCancelling(s, k, c);
    ReturnIsCleanIff(Do(s, RequestCancel(k)), after, k, c);
  }

  // ------------------------------------------------------------------ runs that show each condition is needed

  lemma {:induction false} RunSnoc(s: State, steps: seq<Step>, st: Step)
    requires IsRun(s, steps) && Enabled(End(s, steps), st)
    ensures IsRun(s, steps + [st]) && End(s, steps + [st]) == Do(End(s, steps), st)
    decreases |steps|
  {
    hide Enabled, Do;
    if steps == [] {
      assert [st][1..] == [];
    } else {
      assert (steps + [st])[1..] == steps[1..] + [st];
      RunSnoc(Do(s, steps[0]), steps[1..], st);
    }
  }

  lemma Extend(steps: seq<Step>, st: Step) returns (longer: seq<Step>)
    requires IsRun(FRESH, steps) && Enabled(End(FRESH, steps), st)
    ensures IsRun(FRESH, longer) && End(FRESH, longer) == Do(End(FRESH, steps), st)
  {
    RunSnoc(FRESH, steps, st);
    longer := steps + [st];
  }

  /** The cancelled bootstrap ends in time, another create reserves the id, and the returning cancel releases it. */
  lemma LateCreateLosesReservation() returns (steps: seq<Step>)
    ensures IsRun(FRESH, steps) && InProgress(End(FRESH, steps), 1) && !End(FRESH, steps).tables.reserved
  {
    hide IsRun, End;
    steps := Cancelled();
    steps := Extend(steps, BootRaises(0));
    steps := Extend(steps, CleansUp(0, true));
    steps := Extend(steps, Enter(1));
    steps := Extend(steps, Reserve(1));
    steps := Extend(steps, Resume(9, false));
  }

  /** The bootstrap writes once more, its cleanup fails, and the cancel returns all the same. */
  lemma FailedCleanupLeavesArtifact() returns (steps: seq<Step>)
    ensures IsRun(FRESH, steps) && Ended(End(FRESH, steps), 9) && End(FRESH, steps).artifacts
  {
    hide IsRun, End;
    steps := Cancelled();
    steps := Extend(steps, BootWrites(0));
    steps := Extend(steps, BootRaises(0));
    steps := Extend(steps, CleansUp(0, false));
    steps := Extend(steps, Resume(9, false));
  }

  /**
   * The bootstrap outlives the wait window; a newer create registers with an event of its own, and the cancelled
   * bootstrap, which looks at the table, passes its last check.
   */
  lemma NewerCreateLetsCancelledOnePass() returns (steps: seq<Step>)
    ensures IsRun(FRESH, steps) && End(FRESH, steps).latest == Some(1)
    ensures 0 in End(FRESH, steps).tables.signalled && Enabled(End(FRESH, steps), BootPasses(0))
  {
    hide IsRun, End;
    steps := Cancelled();
    steps := Extend(steps, Resume(9, true));
    steps := Extend(steps, Enter(1));
    steps := Extend(steps, Reserve(1));
    steps := Extend(steps, Committed(1));
  }

  /** A create that loses its request inside `commit_agent` keeps the reservation although nothing is in progress. */
  lemma LostRequestLeaksReservation() returns (steps: seq<Step>)
    ensures IsRun(FRESH, steps) && Leaked(End(FRESH, steps))
  {
    assert IsRun(FRESH, []) && End(FRESH, []) == FRESH;
    hide IsRun, End;
    steps := Extend([], Enter(0));
    steps := Extend(steps, Reserve(0));
    steps := Extend(steps, Disconnects(0));
    assert End(FRESH, steps).creates == map[0 := Rejected];
  }

  /** A bootstrap and a cancel that has come to wait for it. */
  lemma Cancelled() returns (steps: seq<Step>)
    ensures IsRun(FRESH, steps)
    ensures End(FRESH, steps) == State(
      Tables(Some(0), Some(0), {0}, true, true, true), false, map[0 := Bootstrapping], map[9 := Awaiting(0)], Some(0))
  {
    hide IsRun, End;
    steps := Bootstrapped();
    steps := Extend(steps, RequestCancel(9));
    steps := Extend(steps, Purged(9, true));
    steps := Extend(steps, Probe(9, false));
    steps := Extend(steps, Probe(9, false));
  }

  lemma Bootstrapped() returns (steps: seq<Step>)
    ensures IsRun(FRESH, steps)
    ensures End(FRESH, steps) == State(
      Tables(Some(0), Some(0), {}, false, true, false), false, map[0 := Bootstrapping], map[], Some(0))
  {
    assert IsRun(FRESH, []) && End(FRESH, []) == FRESH;
    hide IsRun, End;
    steps := Extend([], Enter(0));
    steps := Extend(steps, Reserve(0));
    steps := Extend(steps, Committed(0));
  }
}
