/** What a context achieves: it takes a free file, gets to its body, fails cleanly, and comes to its end. */
module FileLockProgress {
  import opened FileLock
  import opened FileLockRuns
  import opened Options

  /** Nobody but `c` has moved. */
  ghost predicate OthersStay(w: World, t: World, c: Id) {
    w.ctxs.Keys == t.ctxs.Keys && forall b | b in w.ctxs && b != c :: t.ctxs[b] == w.ctxs[b]
  }

  // ------------------------------------------------------------------ one attempt

  /** An attempt takes the file exactly when nobody holds it, and otherwise leaves the holder alone. */
  lemma TryTakesFreeFileIff(actions: seq<Action>, c: Id)
    requires c in Run(actions).ctxs && Run(actions).ctxs[c].thread == Trying
    ensures var w, t := Run(actions), Next(Run(actions), Act(c, Try));
      && OthersStay(w, t, c) && c in t.ctxs && t.ctxs[c].coroutine == w.ctxs[c].coroutine
      && (w.owner == None ==> t.owner == Some(Ours(c)) && t.ctxs[c].thread == Won && t.ctxs[c].wins == 1)
      && (w.owner != None ==> t.owner == w.owner && t.ctxs[c].thread == Missed && t.ctxs[c].wins == 0)
  {
    hide Run;
    RunKeepsInv(actions);
    assert ContextOk(Run(actions).ctxs[c]);
  }

  /** Outside processes take part: one that has the file makes a context miss, and gives way when it drops the file. */
  lemma OutsiderGoesFirst(actions: seq<Action>, c: Id)
    requires c in Run(actions).ctxs && Run(actions).ctxs[c].thread == Trying && Run(actions).owner == None
    ensures var w := Next(Run(actions), OutsiderTakes);
      var missed := Next(w, Act(c, Try));
      && w == Run(actions).(owner := Some(Outsider)) && c in missed.ctxs && missed.ctxs[c].thread == Missed
      && missed.owner == Some(Outsider) && Next(missed, OutsiderDrops) == missed.(owner := None)
  {
    hide Run;
  }

  // ------------------------------------------------------------------ the way into the body

  /** The next step of a waiting context on the way to its body. */
  function TowardsBody(x: Context): Event {
    match x.thread
    case Unstarted => StartThread
    case Trying => Try
    case Missed => Check(false)
    case Sleeping => Wake
    case Won => ThreadGuard
    case _ => Resume
  }

  function StepsToBody(x: Context): nat {
    match x.thread
    case Missed => 5
    case Unstarted => 4
    case Sleeping => 4
    case Trying => 3
    case Won => 2
    case _ => 1
  }

  /** Waits uncancelled, and its thread is still on the way. */
  predicate StillWaiting(x: Context) {
    x.coroutine == Awaiting(false) && x.thread !in {Raised, Skipped}
  }

  lemma BodyStep(w: World, c: Id)
    requires Inv(w) && c in w.ctxs && StillWaiting(w.ctxs[c]) && w.owner in {None, Some(Ours(c))}
    ensures var x := w.ctxs[c];
      var n := Next(w, Act(c, TowardsBody(x)));
      && Enabled(x, TowardsBody(x)) && OthersStay(w, n, c) && c in n.ctxs && n.owner in {None, Some(Ours(c))}
      && (StepsToBody(x) == 1 ==> n.ctxs[c].coroutine == Body)
      && (StepsToBody(x) > 1 ==> StillWaiting(n.ctxs[c]) && StepsToBody(n.ctxs[c]) == StepsToBody(x) - 1)
  {
    assert ContextOk(w.ctxs[c]);
    assert w.owner == Some(Ours(c)) <==> Outstanding(w.ctxs[c]);
  }

  /** While the file is free, a waiting context reaches its body by at most five steps of its own. */
  lemma {:induction false} FreeFileReachesBody(w: World, c: Id) returns (es: seq<Event>)
    requires Inv(w) && c in w.ctxs && StillWaiting(w.ctxs[c]) && w.owner in {None, Some(Ours(c))}
    ensures |es| == StepsToBody(w.ctxs[c]) <= 5 && CanAct(w, c, es)
    ensures var t := Acts(w, c, es);
      OthersStay(w, t, c) && c in t.ctxs && t.ctxs[c].coroutine == Body && t.owner == Some(Ours(c))
    decreases StepsToBody(w.ctxs[c])
  {
    hide Inv, Next, Enabled;
    var e := TowardsBody(w.ctxs[c]);
    var n := Next(w, Act(c, e));
    BodyStep(w, c);
    NextKeepsInv(w, Act(c, e));
    var rest := [];
    if StepsToBody(w.ctxs[c]) > 1 {
      rest := FreeFileReachesBody(n, c);
    } else {
      BodyOwns(n, c);
    }
    es := [e] + rest;
    assert es[1..] == rest;
  }

  lemma BodyOwns(w: World, c: Id)
    requires Inv(w) && c in w.ctxs && w.ctxs[c].coroutine == Body
    ensures w.owner == Some(Ours(c))
  {
    assert ContextOk(w.ctxs[c]);
  }

  /** The same over runs: a context that is opened while the file is free gets to its body in four steps. */
  lemma OpenedReachesBody(actions: seq<Action>, c: Id) returns (es: seq<Event>)
    requires c !in Run(actions).ctxs && Run(actions).owner == None
    ensures var w := Next(Run(actions), Open(c));
      |es| == 4 && CanAct(w, c, es) && c in Acts(w, c, es).ctxs && Acts(w, c, es).ctxs[c].coroutine == Body
  {
    RunKeepsInv(actions);
    NextKeepsInv(Run(actions), Open(c));
    hide Run, Inv, CanAct, Acts;
    es := FreeFileReachesBody(Next(Run(actions), Open(c)), c);
  }

  // ------------------------------------------------------------------ two steps at a time

  lemma ActTwo(w: World, c: Id, e: Event, f: Event)
    requires c in w.ctxs && Enabled(w.ctxs[c], e)
    requires Enabled(Step(View(w.ctxs[c], w.owner), c, e).ctx, f)
    ensures var v := Step(Step(View(w.ctxs[c], w.owner), c, e), c, f);
      CanAct(w, c, [e, f]) && Acts(w, c, [e, f]) == World(v.owner, w.ctxs[c := v.ctx])
  {
    hide Enabled, Step;
    var n := Next(w, Act(c, e));
    assert [e, f][1..] == [f] && [f][1..] == [];
    assert Acts(n, c, [f]) == Next(n, Act(c, f));
    assert CanAct(n, c, [f]);
  }

  // ------------------------------------------------------------------ the ways out

  /** A wait that has run out of time, or a `flock` that fails for good, ends the context without a body. */
  lemma FailureEndsContext(actions: seq<Action>, c: Id, e: Event)
    requires c in Run(actions).ctxs && Run(actions).ctxs[c].coroutine == Awaiting(false)
    requires (e == Check(true) && Run(actions).ctxs[c].thread == Missed)
      || (e == TryFails && Run(actions).ctxs[c].thread == Trying)
    ensures var w := Run(actions);
      var t := Acts(w, c, [e, Resume]);
      CanAct(w, c, [e, Resume]) && OthersStay(w, t, c) && t.owner == w.owner && c in t.ctxs
      && Settled(t.ctxs[c]) && t.ctxs[c].wins == 0 && !t.ctxs[c].cancelled
  {
    hide Run;
    RunKeepsInv(actions);
    var w := Run(actions);
    assert ContextOk(w.ctxs[c]);
    hide Inv, CanAct, Acts, Next;
    ActTwo(w, c, e, Resume);
  }

  /** A cancelled wait ends at the handler's turn; it leaves a release behind exactly if the thread had returned. */
  lemma CancelEndsWait(actions: seq<Action>, c: Id)
    requires c in Run(actions).ctxs && Run(actions).ctxs[c].coroutine == Awaiting(false)
    ensures var w := Run(actions);
      var t := Acts(w, c, [RequestCancel, CancelHandler]);
      CanAct(w, c, [RequestCancel, CancelHandler]) && OthersStay(w, t, c) && t.owner == w.owner && c in t.ctxs
      && t.ctxs[c].coroutine == Over && t.ctxs[c].cancelled && !t.ctxs[c].acquired
      && t.ctxs[c].thread == w.ctxs[c].thread
      && (t.ctxs[c].job == Submitted <==> w.ctxs[c].thread == Returned)
  {
    hide Run;
    RunKeepsInv(actions);
    var w := Run(actions);
    assert ContextOk(w.ctxs[c]);
    assert w.ctxs[c].job == NoJob && (w.ctxs[c].acquired <==> w.ctxs[c].thread == Returned);
    hide Inv, CanAct, Acts, Next, ContextOk;
    ActTwo(w, c, RequestCancel, CancelHandler);
  }

  // ------------------------------------------------------------------ every context can settle

  /** A step towards the end of the coroutine, then of the thread, then of the release job. */
  function TowardsEnd(x: Context): Event {
    match x.coroutine
    case Awaiting(cancelled) => if cancelled then CancelHandler else RequestCancel
    case Body => EndBody
    case Exiting => Leave
    case Over =>
      match x.thread
      case Unstarted => SkipThread
      case Trying => Try
      case Missed => Check(false)
      case Sleeping => Wake
      case Won => ThreadGuard
      case Undoing => Undo
      case _ => RunJob
  }

  function StepsToEnd(x: Context): nat {
    (match x.coroutine
     case Awaiting(cancelled) => if cancelled then 2 else 4
     case Body => 4
     case Exiting => 2
     case Over => 0)
    + (match x.thread
       case Sleeping => 5
       case Trying => 4
       case Won => 3
       case Undoing => 2
       case Unstarted => 1
       case Missed => 1
       case _ => 0)
    + (if x.job == Submitted then 1 else 0)
  }

  lemma EndContext(v: View, c: Id)
    requires ContextOk(v.ctx) && !Settled(v.ctx)
    ensures Enabled(v.ctx, TowardsEnd(v.ctx)) && StepsToEnd(v.ctx) <= 9
    ensures StepsToEnd(Step(v, c, TowardsEnd(v.ctx)).ctx) < StepsToEnd(v.ctx)
  {
  }

  lemma EndStep(w: World, c: Id)
    requires Inv(w) && c in w.ctxs && !Settled(w.ctxs[c])
    ensures var x := w.ctxs[c];
      var n := Next(w, Act(c, TowardsEnd(x)));
      && Enabled(x, TowardsEnd(x)) && OthersStay(w, n, c) && c in n.ctxs
      && StepsToEnd(n.ctxs[c]) < StepsToEnd(x) <= 9
  {
    assert ContextOk(w.ctxs[c]);
    hide Inv, ContextOk, Settled, Enabled, TowardsEnd, StepsToEnd, Step;
    EndContext(View(w.ctxs[c], w.owner), c);
  }

  /** A context that is told to stop settles by at most nine steps of its own, and then it does not hold the file. */
  lemma {:induction false} EveryContextSettles(w: World, c: Id) returns (es: seq<Event>)
    requires Inv(w) && c in w.ctxs
    ensures |es| <= StepsToEnd(w.ctxs[c]) <= 9 && CanAct(w, c, es)
    ensures var t := Acts(w, c, es);
      OthersStay(w, t, c) && c in t.ctxs && Settled(t.ctxs[c]) && t.owner != Some(Ours(c))
    decreases StepsToEnd(w.ctxs[c])
  {
    hide Inv, Next, Enabled;
    if Settled(w.ctxs[c]) {
      es := [];
      SettledOwnsNothing(w, c);
    } else {
      var e := TowardsEnd(w.ctxs[c]);
      EndStep(w, c);
      NextKeepsInv(w, Act(c, e));
      var rest := EveryContextSettles(Next(w, Act(c, e)), c);
      es := [e] + rest;
      assert es[1..] == rest;
    }
  }

  lemma SettledOwnsNothing(w: World, c: Id)
    requires Inv(w) && c in w.ctxs && Settled(w.ctxs[c])
    ensures w.owner != Some(Ours(c)) && StepsToEnd(w.ctxs[c]) == 0
  {
    assert ContextOk(w.ctxs[c]);
    assert w.owner == Some(Ours(c)) <==> Outstanding(w.ctxs[c]);
  }
}
