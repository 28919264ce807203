/** What creates and cancels achieve: an undisturbed create completes, a failed one frees its id, a cancel returns. */
module CreateCancelSteps {
  import opened Options
  import opened CreateCancel
  import opened CreateCancelRuns

  /** Every step is possible at its turn and the last state is `t`. */
  ghost predicate Leads(s: State, steps: seq<Step>, t: State) {
    IsRun(s, steps) && End(s, steps) == t
  }

  lemma LeadsNowhere(s: State)
    ensures Leads(s, [], s)
  {
  }

  lemma LeadsOn(s: State, steps: seq<Step>, st: Step, t: State)
    requires Leads(s, steps, t) && Enabled(t, st)
    ensures Leads(s, steps + [st], Do(t, st))
  {
    hide Enabled, Do, IsRun, End;
    RunSnoc(s, steps, st);
  }

  lemma LeadsTwo(s: State, e: Step, f: Step)
    requires Enabled(s, e) && Enabled(Do(s, e), f)
    ensures Leads(s, [e, f], Do(Do(s, e), f))
  {
    hide Enabled, Do, Leads;
    LeadsNowhere(s);
    LeadsOn(s, [], e, s);
    assert [] + [e] == [e];
    LeadsOn(s, [e], f, Do(s, e));
    assert [e] + [f] == [e, f];
  }

  lemma LeadsThree(s: State, e: Step, f: Step, g: Step)
    requires Enabled(s, e) && Enabled(Do(s, e), f) && Enabled(Do(Do(s, e), f), g)
    ensures Leads(s, [e, f, g], Do(Do(Do(s, e), f), g))
  {
    hide Enabled, Do, Leads;
    LeadsTwo(s, e, f);
    LeadsOn(s, [e, f], g, Do(Do(s, e), f));
    assert [e, f] + [g] == [e, f, g];
  }

  // ------------------------------------------------------------------ a create that goes well

  /** No create holds the id and no cancel is asked for. */
  predicate FreeId(t: Tables) { !t.reserved && !t.requested && !t.cancelled }

  /** The id is as if it had never been used. */
  predicate Forgotten(t: Tables) { FreeId(t) && t.event == None && t.task == None }

  /** A create of a free id registers, boots, commits and leaves no entry of any table behind. */
  lemma UndisturbedCreateCompletes(before: seq<Step>, c: nat)
    requires IsRun(FRESH, before) && c !in End(FRESH, before).creates && FreeId(End(FRESH, before).tables)
    ensures var s := End(FRESH, before);
      var first := [Enter(c), Reserve(c), Committed(c)];
      var last := [BootPasses(c), GitEnds(c, true), DoneCallback(c)];
      IsRun(s, first) && At(End(s, first), c, Bootstrapping) && IsRun(End(s, first), last)
      && var t := End(End(s, first), last);
      At(t, c, Untracked) && Forgotten(t.tables) && t.latest == Some(c) && t.artifacts == s.artifacts
      && forall d | d in s.creates :: d in t.creates && t.creates[d] == s.creates[d]
  {
    hide IsRun, End;
    SignalledIsRegistered(before);
    var s := End(FRESH, before);
    StartsBooting(s, c);
    LeadsThree(s, Enter(c), Reserve(c), Committed(c));
    var u := Do(Do(Do(s, Enter(c)), Reserve(c)), Committed(c));
    BootsToTheEnd(u, c);
    LeadsThree(u, BootPasses(c), GitEnds(c, true), DoneCallback(c));
  }

  lemma StartsBooting(s: State, c: nat)
    requires c !in s.creates && FreeId(s.tables) && c !in s.tables.signalled
    ensures Enabled(s, Enter(c)) && Enabled(Do(s, Enter(c)), Reserve(c))
    ensures Enabled(Do(Do(s, Enter(c)), Reserve(c)), Committed(c))
    ensures var u := Do(Do(Do(s, Enter(c)), Reserve(c)), Committed(c));
      u == s.(creates := s.creates[c := Bootstrapping], latest := Some(c),
              tables := s.tables.(event := Some(c), task := Some(c), reserved := true))
  {
    assert s.creates[c := Entering][c := Registering][c := Bootstrapping] == s.creates[c := Bootstrapping];
  }

  lemma BootsToTheEnd(u: State, c: nat)
    requires At(u, c, Bootstrapping) && u.tables.event == u.tables.task == Some(c) && c !in u.tables.signalled
    ensures Enabled(u, BootPasses(c)) && Enabled(Do(u, BootPasses(c)), GitEnds(c, true))
    ensures Enabled(Do(Do(u, BootPasses(c)), GitEnds(c, true)), DoneCallback(c))
    ensures var t := Do(Do(Do(u, BootPasses(c)), GitEnds(c, true)), DoneCallback(c));
      t.creates == u.creates[c := Untracked] && Forgotten(t.tables) && t.latest == u.latest
      && t.artifacts == u.artifacts
  {
    var n := u.creates[c := GitCommitting][c := Done][c := Untracked];
    assert n == u.creates[c := Untracked];
  }

  // ------------------------------------------------------------------ whom an early cancel reaches

  predicate SignalledBooted(s: State) {
    forall c | c in s.tables.signalled :: c in s.creates && s.creates[c] != Entering && s.creates[c] != Registering
  }

  lemma StepKeepsSignalled(s: State, st: Step)
    requires Named(s) && SignalledBooted(s) && Enabled(s, st)
    ensures SignalledBooted(Do(s, st))
  {
    hide Do;
    if IsCancelStep(st) { CancelSignals(s, st); } else { CreateSignals(s, st); }
  }

  lemma CancelSignals(s: State, st: Step)
    requires Named(s) && SignalledBooted(s) && Enabled(s, st) && IsCancelStep(st)
    ensures SignalledBooted(Do(s, st))
  {
  }

  lemma CreateSignals(s: State, st: Step)
    requires SignalledBooted(s) && Enabled(s, st) && !IsCancelStep(st)
    ensures SignalledBooted(Do(s, st))
  {
  }

  lemma {:induction false} RunKeepsSignalled(s: State, steps: seq<Step>)
    requires Named(s) && SignalledBooted(s) && IsRun(s, steps)
    ensures SignalledBooted(End(s, steps))
    decreases |steps|
  {
    hide Enabled, Do, Named, SignalledBooted;
    if steps != [] {
      StepKeepsNamed(s, steps[0]);
      StepKeepsSignalled(s, steps[0]);
      RunKeepsSignalled(Do(s, steps[0]), steps[1..]);
    }
  }

  /** The event of a create is never set before the create has registered it. */
  lemma SignalledIsRegistered(steps: seq<Step>)
    requires IsRun(FRESH, steps)
    ensures SignalledBooted(End(FRESH, steps))
  {
    FreshIsNamed();
    RunKeepsSignalled(FRESH, steps);
  }

  /** A create that registers can go on past its check exactly if no cancel was asked for before. */
  lemma RegisteredPassesIff(before: seq<Step>, c: nat)
    requires IsRun(FRESH, before) && At(End(FRESH, before), c, Registering)
    ensures Enabled(End(FRESH, before), Committed(c))
    ensures Enabled(Do(End(FRESH, before), Committed(c)), BootPasses(c)) <==> !End(FRESH, before).tables.requested
  {
    hide IsRun, End;
    SignalledIsRegistered(before);
  }

  /** A cancel that came before the registration is not lost: as long as no newer create registers, `c` never passes. */
  lemma EarlyCancelIsKept(before: seq<Step>, c: nat, after: seq<Step>)
    requires IsRun(FRESH, before) && At(End(FRESH, before), c, Registering) && End(FRESH, before).tables.requested
    requires IsRun(Do(End(FRESH, before), Committed(c)), after)
    requires End(Do(End(FRESH, before), Committed(c)), after).latest == Some(c)
    ensures !Enabled(End(Do(End(FRESH, before), Committed(c)), after), BootPasses(c))
  {
    hide IsRun, End, Named;
    FreshIsNamed();
    TablesNameTheLatest(FRESH, before);
    var s := End(FRESH, before);
    var t := Do(s, Committed(c));
    StepKeepsNamed(s, Committed(c));
    TablesNameTheLatest(t, after);
    SignalledGrows(t, after);
    NamedAndSignalled(End(t, after), c);
  }

  predicate NobodyCancels(steps: seq<Step>) { forall i | 0 <= i < |steps| :: !steps[i].RequestCancel? }

  /** No event is set and no flag is up. */
  predicate Calm(s: State) { s.tables.signalled == {} && !s.tables.requested && !s.tables.cancelled }

  lemma {:induction false} CalmRun(s: State, steps: seq<Step>)
    requires Calm(s) && IsRun(s, steps) && NobodyCancels(steps)
    ensures Calm(End(s, steps))
    decreases |steps|
  {
    hide Enabled, Do, Calm;
    if steps != [] {
      assert !steps[0].RequestCancel? && forall i | 0 <= i < |steps[1..]| :: steps[1..][i] == steps[i + 1];
      CalmStep(s, steps[0]);
      CalmRun(Do(s, steps[0]), steps[1..]);
    }
  }

  lemma CalmStep(s: State, st: Step)
    requires Calm(s) && Enabled(s, st) && !st.RequestCancel?
    ensures Calm(Do(s, st))
  {
  }

  /** While nobody asks for a cancel, no registration is aborted, every bootstrap passes, and nobody is refused for one. */
  lemma NobodyIsCancelledUnasked(steps: seq<Step>, c: nat, clean: bool)
    requires IsRun(FRESH, steps) && NobodyCancels(steps)
    ensures var s := End(FRESH, steps);
      && !Enabled(s, CommitAborts(c, clean)) && (At(s, c, Bootstrapping) ==> Enabled(s, BootPasses(c)))
      && (Enabled(s, Enter(c)) ==> !At(Do(s, Enter(c)), c, Rejected))
  {
    hide IsRun, End;
    CalmRun(FRESH, steps);
  }

  // ------------------------------------------------------------------ a create that is refused or fails

  /** A create is refused at once exactly if a cancel is asked for, and otherwise comes to the reservation. */
  lemma EntersIff(s: State, c: nat)
    requires Enabled(s, Enter(c))
    ensures var t := Do(s, Enter(c));
      && t == s.(creates := s.creates[c := t.creates[c]])
      && (At(t, c, Rejected) <==> s.tables.requested || s.tables.cancelled)
      && (Enabled(t, Reserve(c)) <==> !s.tables.requested && !s.tables.cancelled)
  {
  }

  /** There it is refused exactly if the id is reserved; a stale cancel flag of the service goes in either case. */
  lemma ReservesIff(s: State, c: nat)
    requires Enabled(s, Reserve(c))
    ensures var t := Do(s, Reserve(c));
      && (At(t, c, Rejected) <==> s.tables.reserved) && (At(t, c, Registering) <==> !s.tables.reserved)
      && t.tables.reserved && !t.tables.cancelled
      && t.tables.requested == s.tables.requested && t.tables.event == s.tables.event && t.artifacts == s.artifacts
  {
  }

  /** A create whose registration fails or is cancelled frees the id: the next one gets it. */
  lemma FailedRegistrationFreesId(s: State, st: Step, c: nat, d: nat, clean: bool)
    requires At(s, c, Registering) && d !in s.creates && !s.tables.requested
    requires if s.tables.cancelled then st == CommitAborts(c, clean) else st == CommitFails(c, clean)
    ensures Leads(s, [st, Enter(d), Reserve(d)], Do(Do(Do(s, st), Enter(d)), Reserve(d)))
    ensures var t := Do(Do(Do(s, st), Enter(d)), Reserve(d));
      At(t, c, Rejected) && At(t, d, Registering) && t.tables.reserved && (t.artifacts <==> s.artifacts && !clean)
  {
    assert Enabled(s, st) && Enabled(Do(s, st), Enter(d)) && Enabled(Do(Do(s, st), Enter(d)), Reserve(d));
    LeadsThree(s, st, Enter(d), Reserve(d));
  }

  /** A bootstrap that fails, before its check or after it, is cleaned up, and then the id is free. */
  lemma FailedBootstrapFreesId(before: seq<Step>, c: nat, st: Step, clean: bool)
    requires IsRun(FRESH, before) && End(FRESH, before).latest == Some(c)
    requires (st == BootRaises(c) && At(End(FRESH, before), c, Bootstrapping))
      || (st == GitEnds(c, false) && At(End(FRESH, before), c, GitCommitting))
    ensures var s := End(FRESH, before);
      var t := Do(Do(Do(s, st), CleansUp(c, clean)), DoneCallback(c));
      Leads(s, [st, CleansUp(c, clean), DoneCallback(c)], t)
      && At(t, c, Untracked) && Forgotten(t.tables) && (t.artifacts <==> s.artifacts && !clean)
  {
    hide IsRun, End, Leads, Do;
    FreshIsNamed();
    TablesNameTheLatest(FRESH, before);
    var s := End(FRESH, before);
    BootFails(s, c, st, clean);
    LeadsThree(s, st, CleansUp(c, clean), DoneCallback(c));
  }

  lemma BootFails(s: State, c: nat, st: Step, clean: bool)
    requires s.tables.event == s.tables.task == Some(c)
    requires (st == BootRaises(c) && At(s, c, Bootstrapping)) || (st == GitEnds(c, false) && At(s, c, GitCommitting))
    ensures Enabled(s, st) && Enabled(Do(s, st), CleansUp(c, clean))
    ensures Enabled(Do(Do(s, st), CleansUp(c, clean)), DoneCallback(c))
    ensures var t := Do(Do(Do(s, st), CleansUp(c, clean)), DoneCallback(c));
      At(t, c, Untracked) && Forgotten(t.tables) && (t.artifacts <==> s.artifacts && !clean) && t.cancels == s.cancels
  {
    assert Do(s, st) == s.(creates := s.creates[c := Failing]);
  }

  // ------------------------------------------------------------------ a cancel

  lemma PurgedAndProbed(s: State, k: nat)
    requires k !in s.cancels
    ensures Enabled(s, RequestCancel(k)) && Enabled(Do(s, RequestCancel(k)), Purged(k, true))
    ensures var u := Do(Do(s, RequestCancel(k)), Purged(k, true));
      u == s.(tables := Request(s.tables), cancels := s.cancels[k := Probing(0)], artifacts := false)
      && Enabled(u, Probe(k, false))
      && Do(u, Probe(k, false)) == u.(cancels := s.cancels[k := Probing(1)])
      && Enabled(Do(u, Probe(k, false)), Probe(k, false))
  {
    assert s.cancels[k := Purging][k := Probing(0)] == s.cancels[k := Probing(0)];
    assert s.cancels[k := Probing(0)][k := Probing(1)] == s.cancels[k := Probing(1)];
  }

  /** A successful purge and two probes: the cancel returns, or waits for the tracked task if that is still alive. */
  lemma CancelComesToItsWait(s: State, k: nat, late: bool)
    requires k !in s.cancels
    ensures var steps := [RequestCancel(k), Purged(k, true), Probe(k, false), Probe(k, late)];
      IsRun(s, steps)
      && var t := End(s, steps);
      && k in t.cancels && t.cancels == s.cancels[k := t.cancels[k]] && t.creates == s.creates && !t.artifacts
      && t.tables.event == s.tables.event && t.tables.task == s.tables.task
      && (s.tables.event.Some? ==> s.tables.event.value in t.tables.signalled)
      && if s.tables.task == None || TaskOver(s, s.tables.task.value) then
           t.cancels[k] == Returned && FreeId(t.tables)
         else
           t.cancels[k] == Awaiting(s.tables.task.value) && t.tables.reserved == s.tables.reserved
           && t.tables.requested && t.tables.cancelled
  {
    hide IsRun, End;
    PurgedAndProbed(s, k);
    LeadsThree(s, RequestCancel(k), Purged(k, true), Probe(k, false));
    var steps := [RequestCancel(k), Purged(k, true), Probe(k, false)];
    var v := Do(Do(Do(s, RequestCancel(k)), Purged(k, true)), Probe(k, false));
    LeadsOn(s, steps, Probe(k, late), v);
    assert steps + [Probe(k, late)] == [RequestCancel(k), Purged(k, true), Probe(k, false), Probe(k, late)];
    LastProbe(v, k, late);
  }

  lemma LastProbe(v: State, k: nat, late: bool)
    requires k in v.cancels && v.cancels[k] == Probing(1) && !v.artifacts
    ensures var t := Do(v, Probe(k, late));
      && t.creates == v.creates && !t.artifacts && t.tables.event == v.tables.event && t.tables.task == v.tables.task
      && t.tables.signalled == v.tables.signalled
      && if v.tables.task == None || TaskOver(v, v.tables.task.value) then
           t.cancels == v.cancels[k := Returned] && FreeId(t.tables)
         else t.cancels == v.cancels[k := Awaiting(v.tables.task.value)] && t.tables == v.tables
  {
  }

  /** What a live bootstrap writes between two probes starts the count again; at the deadline it ends the cancel with an
      error, and the flags stay up. */
  lemma ArtifactRestartsCount(s: State, k: nat, c: nat, late: bool)
    requires k in s.cancels && s.cancels[k].Probing? && At(s, c, Bootstrapping)
    ensures var steps := [BootWrites(c), Probe(k, late)];
      IsRun(s, steps)
      && End(s, steps) == s.(artifacts := true, cancels := s.cancels[k := if late then Raised else Probing(0)])
  {
    hide IsRun, End;
    LeadsTwo(s, BootWrites(c), Probe(k, late));
  }

  /**
   * A cancel meets a live bootstrap, which notices, fails and cleans up: the cancel returns, and nothing of the id is
   * left, neither artifact nor reservation, flag or entry.
   */
  lemma CancelOfLiveCreateReturns(before: seq<Step>, k: nat, c: nat)
    requires IsRun(FRESH, before) && k !in End(FRESH, before).cancels
    requires End(FRESH, before).latest == Some(c) && At(End(FRESH, before), c, Bootstrapping)
    ensures var s := End(FRESH, before);
      var asked := [RequestCancel(k), Purged(k, true), Probe(k, false), Probe(k, false)];
      var ended := [BootRaises(c), CleansUp(c, true), DoneCallback(c)];
      IsRun(s, asked) && !Enabled(End(s, asked), BootPasses(c)) && IsRun(End(s, asked), ended)
      && Enabled(End(End(s, asked), ended), Resume(k, false))
      && var t := Do(End(End(s, asked), ended), Resume(k, false));
      t.cancels == s.cancels[k := Returned] && At(t, c, Untracked) && Forgotten(t.tables) && !t.artifacts
  {
    hide IsRun, End;
    FreshIsNamed();
    TablesNameTheLatest(FRESH, before);
    var s := End(FRESH, before);
    CancelComesToItsWait(s, k, false);
    var u := End(s, [RequestCancel(k), Purged(k, true), Probe(k, false), Probe(k, false)]);
    CancelledBootEnds(u, k, c);
    LeadsThree(u, BootRaises(c), CleansUp(c, true), DoneCallback(c));
  }

  lemma CancelledBootEnds(u: State, k: nat, c: nat)
    requires k in u.cancels && u.cancels[k] == Awaiting(c) && At(u, c, Bootstrapping) && !u.artifacts
    requires u.tables.event == u.tables.task == Some(c) && c in u.tables.signalled
    ensures !Enabled(u, BootPasses(c)) && Enabled(u, BootRaises(c)) && Enabled(Do(u, BootRaises(c)), CleansUp(c, true))
    ensures Enabled(Do(Do(u, BootRaises(c)), CleansUp(c, true)), DoneCallback(c))
    ensures var v := Do(Do(Do(u, BootRaises(c)), CleansUp(c, true)), DoneCallback(c));
      Enabled(v, Resume(k, false))
      && var t := Do(v, Resume(k, false));
      t.cancels == u.cancels[k := Returned] && At(t, c, Untracked) && Forgotten(t.tables) && !t.artifacts
  {
    BootFails(u, c, BootRaises(c), true);
    var v := Do(Do(Do(u, BootRaises(c)), CleansUp(c, true)), DoneCallback(c));
    hide Do;
    ResumeReturns(v, k, c);
  }

  lemma ResumeReturns(v: State, k: nat, c: nat)
    requires k in v.cancels && v.cancels[k] == Awaiting(c) && At(v, c, Untracked) && Forgotten(v.tables)
    ensures Enabled(v, Resume(k, false))
    ensures var t := Do(v, Resume(k, false));
      t.cancels == v.cancels[k := Returned] && At(t, c, Untracked) && Forgotten(t.tables) && t.artifacts == v.artifacts
  {
  }

  /** A cancel that waited in vain returns when its window ends, and frees the id although the bootstrap goes on. */
  lemma WindowEnds(s: State, k: nat)
    requires k in s.cancels && s.cancels[k].Awaiting?
    ensures Enabled(s, Resume(k, true))
    ensures var t := Do(s, Resume(k, true));
      t.cancels == s.cancels[k := Returned] && FreeId(t.tables) && t.creates == s.creates
      && t.tables.event == s.tables.event && t.tables.task == s.tables.task && t.artifacts == s.artifacts
  {
  }

  /** A cancel whose own request is lost leaves everything it had asked for in place. */
  lemma LostCancelLeavesFlags(s: State, k: nat)
    requires Enabled(s, CancelDisconnects(k))
    ensures var t := Do(s, CancelDisconnects(k));
      t == s.(cancels := s.cancels[k := Raised])
  {
  }

  /** The request flag expires exactly while no create has registered an event; nothing else expires. */
  lemma ExpiryIff(s: State)
    ensures var t := Do(s, TtlExpires);
      && (t.tables.requested <==> s.tables.requested && s.tables.event.Some?)
      && t == s.(tables := s.tables.(requested := t.tables.requested))
  {
  }
}
