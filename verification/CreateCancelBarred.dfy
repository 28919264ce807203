/** The cancel flag of the service, which has no expiry: how it comes to bar an id from every later create. */
module CreateCancelBarred {
  import opened Options
  import opened CreateCancel
  import opened CreateCancelRuns
  import opened CreateCancelSteps

  predicate Resting(p: CreatePhase) { p in {Done, Untracked, Rejected} }

  predicate Closed(p: CancelPhase) { p == Returned || p == Raised }

  /** Every create but `c` is at rest. */
  predicate RestButCreate(s: State, c: nat) { forall d | d in s.creates && d != c :: Resting(s.creates[d]) }

  predicate AllResting(s: State) { forall d | d in s.creates :: Resting(s.creates[d]) }

  /** Every cancel but `k` is closed. */
  predicate ClosedButCancel(s: State, k: nat) { forall j | j in s.cancels && j != k :: Closed(s.cancels[j]) }

  predicate AllClosed(s: State) { forall j | j in s.cancels :: Closed(s.cancels[j]) }

  /** The flag is up, and no create or cancel is left that could take it down. */
  predicate Barred(s: State) { s.tables.cancelled && AllResting(s) && AllClosed(s) }

  // ------------------------------------------------------------------ it stays

  lemma BarredStays(s: State, st: Step)
    requires Barred(s) && Enabled(s, st) && !st.RequestCancel?
    ensures Barred(Do(s, st))
  {
    hide Do;
    if IsCancelStep(st) { BarredCancel(s, st); } else { BarredCreate(s, st); }
  }

  lemma BarredCancel(s: State, st: Step)
    requires Barred(s) && Enabled(s, st) && IsCancelStep(st) && !st.RequestCancel?
    ensures Barred(Do(s, st))
  {
  }

  lemma BarredCreate(s: State, st: Step)
    requires Barred(s) && Enabled(s, st) && !IsCancelStep(st)
    ensures Barred(Do(s, st))
  {
  }

  /** Until somebody asks for another cancel, whatever expires, every create of a barred id is refused at once. */
  lemma {:induction false} BarredUntilNextCancel(s: State, steps: seq<Step>)
    requires Barred(s) && IsRun(s, steps) && NobodyCancels(steps)
    ensures Barred(End(s, steps))
    ensures forall c | c in End(s, steps).creates && c !in s.creates :: At(End(s, steps), c, Rejected)
    decreases |steps|
  {
    hide Enabled, Do, Barred;
    if steps != [] {
      assert !steps[0].RequestCancel? && forall i | 0 <= i < |steps[1..]| :: steps[1..][i] == steps[i + 1];
      var n := Do(s, steps[0]);
      BarredStays(s, steps[0]);
      NewcomersRejected(s, steps[0]);
      BarredUntilNextCancel(n, steps[1..]);
      RejectedForever(n, steps[1..]);
    }
  }

  lemma NewcomersRejected(s: State, st: Step)
    requires Barred(s) && Enabled(s, st)
    ensures forall c | c in s.creates :: c in Do(s, st).creates
    ensures forall c | c in Do(s, st).creates && c !in s.creates :: At(Do(s, st), c, Rejected)
  {
  }

  lemma {:induction false} RejectedForever(s: State, steps: seq<Step>)
    requires IsRun(s, steps)
    ensures forall c | At(s, c, Rejected) :: At(End(s, steps), c, Rejected)
    decreases |steps|
  {
    hide Enabled, Do;
    if steps != [] {
      StepKeepsRejected(s, steps[0]);
      RejectedForever(Do(s, steps[0]), steps[1..]);
    }
  }

  lemma StepKeepsRejected(s: State, st: Step)
    requires Enabled(s, st)
    ensures forall c | At(s, c, Rejected) :: At(Do(s, st), c, Rejected)
  {
  }

  // ------------------------------------------------------------------ how it comes about

  /**
   * With the flag up, the last open cancel ends with an error or loses its request while every create is at rest, or
   * the last create fails or loses its request inside its registration after every cancel has closed.
   */
  predicate Bars(s: State, st: Step)
    requires Enabled(s, st)
  {
    s.tables.cancelled
    && match st
       case Probe(k, late) =>
         late && (s.artifacts || s.cancels[k].absent + 1 < REQUIRED_ABSENT) && AllResting(s) && ClosedButCancel(s, k)
       case CancelDisconnects(k) => AllResting(s) && ClosedButCancel(s, k)
       case CommitFails(c, _) => RestButCreate(s, c) && AllClosed(s)
       case Disconnects(c) => RestButCreate(s, c) && AllClosed(s)
       case _ => false
  }

  lemma BarsIff(s: State, st: Step)
    requires !Barred(s) && Enabled(s, st)
    ensures Barred(Do(s, st)) <==> Bars(s, st)
  {
    hide Barred, Do, Bars;
    if IsCancelStep(st) { CancelBars(s, st); } else { CreateBars(s, st); }
  }

  lemma CancelBars(s: State, st: Step)
    requires !Barred(s) && Enabled(s, st) && IsCancelStep(st)
    ensures Barred(Do(s, st)) <==> Bars(s, st)
  {
    var n := Do(s, st);
    assert n.creates == s.creates && (AllResting(n) <==> AllResting(s));
    if st.TtlExpires? {
      assert AllClosed(n) <==> AllClosed(s);
    } else {
      var k := st.k;
      assert k in n.cancels && n.cancels == s.cancels[k := n.cancels[k]];
      ClosedAfter(s, n, k);
    }
  }

  lemma CreateBars(s: State, st: Step)
    requires !Barred(s) && Enabled(s, st) && !IsCancelStep(st)
    ensures Barred(Do(s, st)) <==> Bars(s, st)
  {
    var n := Do(s, st);
    var c := st.c;
    assert n.cancels == s.cancels && (AllClosed(n) <==> AllClosed(s));
    hide AllClosed;
    if c in n.creates {
      assert n.creates == s.creates[c := n.creates[c]];
      RestAfter(s, n, c);
    }
  }

  lemma ClosedAfter(s: State, n: State, k: nat)
    requires k in n.cancels && n.cancels == s.cancels[k := n.cancels[k]]
    ensures AllClosed(n) <==> ClosedButCancel(s, k) && Closed(n.cancels[k])
  {
    if AllClosed(n) {
      forall j | j in s.cancels && j != k ensures Closed(s.cancels[j]) { assert j in n.cancels; }
    }
  }

  lemma RestAfter(s: State, n: State, c: nat)
    requires c in n.creates && n.creates == s.creates[c := n.creates[c]]
    ensures AllResting(n) <==> RestButCreate(s, c) && Resting(n.creates[c])
    ensures AllResting(s) <==> RestButCreate(s, c) && (c in s.creates ==> Resting(s.creates[c]))
  {
    if AllResting(n) {
      forall d | d in s.creates && d != c ensures Resting(s.creates[d]) { assert d in n.creates; }
    }
  }

  /** Along the run some step bars the id. */
  predicate SomeBar(s: State, steps: seq<Step>)
    requires IsRun(s, steps)
    decreases |steps|
  {
    steps != [] && (Bars(s, steps[0]) || SomeBar(Do(s, steps[0]), steps[1..]))
  }

  predicate NeverBarred(s: State, steps: seq<Step>)
    requires IsRun(s, steps)
    decreases |steps|
  {
    !Barred(s) && (steps == [] || NeverBarred(Do(s, steps[0]), steps[1..]))
  }

  /** In every run, the id is at some point barred if and only if such a step is taken. */
  lemma {:induction false} NeverBarredIff(s: State, steps: seq<Step>)
    requires !Barred(s) && IsRun(s, steps)
    ensures NeverBarred(s, steps) <==> !SomeBar(s, steps)
    decreases |steps|
  {
    hide Enabled, Do, Barred, Bars;
    if steps != [] {
      BarsIff(s, steps[0]);
      if !Barred(Do(s, steps[0])) { NeverBarredIff(Do(s, steps[0]), steps[1..]); }
    }
  }

  // ------------------------------------------------------------------ a run, and the way out

  /** A cancel that raises at its deadline: the request expires, the flag does not, and the next create is refused. */
  lemma RaisedCancelBarsId() returns (steps: seq<Step>)
    ensures IsRun(FRESH, steps) && Barred(End(FRESH, steps)) && !End(FRESH, steps).tables.requested
    ensures At(End(FRESH, steps), 1, Rejected)
  {
    hide IsRun, End;
    steps := FailedRegistration();
    steps := Extend(steps, RequestCancel(9));
    steps := Extend(steps, Purged(9, false));
    steps := Extend(steps, Probe(9, true));
    assert End(FRESH, steps).cancels == map[9 := Raised];
    steps := ExpiresAndRefuses(steps);
  }

  lemma ExpiresAndRefuses(before: seq<Step>) returns (steps: seq<Step>)
    requires IsRun(FRESH, before)
    requires End(FRESH, before) == State(
      Tables(None, None, {}, true, false, true), true, map[0 := Rejected], map[9 := Raised], None)
    ensures IsRun(FRESH, steps) && Barred(End(FRESH, steps)) && !End(FRESH, steps).tables.requested
    ensures At(End(FRESH, steps), 1, Rejected)
  {
    hide IsRun, End;
    steps := Extend(before, TtlExpires);
    steps := Extend(steps, Enter(1));
  }

  /** A create that fails inside its registration and leaves an artifact. */
  lemma FailedRegistration() returns (steps: seq<Step>)
    ensures IsRun(FRESH, steps)
    ensures End(FRESH, steps) == State(
      Tables(None, None, {}, false, false, false), true, map[0 := Rejected], map[], None)
  {
    assert IsRun(FRESH, []) && End(FRESH, []) == FRESH;
    hide IsRun, End;
    steps := Extend([], Enter(0));
    steps := Extend(steps, Reserve(0));
    steps := Extend(steps, RegisterWrites(0));
    steps := Extend(steps, CommitFails(0, false));
    assert End(FRESH, steps).creates == map[0 := Rejected];
  }

  /** Another cancel that gets to its end lifts the bar. */
  lemma NextCancelLiftsBar(s: State, k: nat)
    requires Named(s) && Barred(s) && k !in s.cancels
    ensures var steps := [RequestCancel(k), Purged(k, true), Probe(k, false), Probe(k, false)];
      IsRun(s, steps) && k in End(s, steps).cancels && End(s, steps).cancels[k] == Returned
      && FreeId(End(s, steps).tables)
  {
    hide IsRun, End;
    CancelComesToItsWait(s, k, false);
  }
}
