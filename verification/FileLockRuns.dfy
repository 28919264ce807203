/** Any number of contexts and outside processes contending for one lock file. */
module FileLockRuns {
  import opened FileLock
  import opened Options

  datatype World = World(owner: Option<Holder>, ctxs: map<Id, Context>)

  datatype Action =
    | Open(c: Id)               // a task enters `async_main_repo_file_lock`
    | Act(c: Id, e: Event)
    | OutsiderTakes
    | OutsiderDrops

  const IDLE := World(None, map[])

  /** An action that is not possible is skipped, so every sequence of actions is a run. */
  function Next(w: World, a: Action): World {
    match a
    case Open(c) => if c in w.ctxs then w else w.(ctxs := w.ctxs[c := OPENED])
    case Act(c, e) =>
      if c in w.ctxs && Enabled(w.ctxs[c], e) then
        var v := Step(View(w.ctxs[c], w.owner), c, e);
        World(v.owner, w.ctxs[c := v.ctx])
      else w
    case OutsiderTakes => if w.owner == None then w.(owner := Some(Outsider)) else w
    case OutsiderDrops => if w.owner == Some(Outsider) then w.(owner := None) else w
  }

  function RunFrom(w: World, actions: seq<Action>): World
    decreases |actions|
  {
    if actions == [] then w else RunFrom(Next(w, actions[0]), actions[1..])
  }

  function Run(actions: seq<Action>): World { RunFrom(IDLE, actions) }

  ghost predicate Inv(w: World) {
    && (forall c | c in w.ctxs :: ContextOk(w.ctxs[c]))
    && (forall c | c in w.ctxs :: w.owner == Some(Ours(c)) <==> Outstanding(w.ctxs[c]))
    && (w.owner.Some? && w.owner.value.Ours? ==> w.owner.value.c in w.ctxs)
  }

  lemma NextKeepsInv(w: World, a: Action)
    requires Inv(w)
    ensures Inv(Next(w, a))
  {
    if a.Act? && a.c in w.ctxs && Enabled(w.ctxs[a.c], a.e) {
      var v := View(w.ctxs[a.c], w.owner);
      StepKeepsContext(v, a.c, a.e);
      StepKeepsOwner(v, a.c, a.e);
    }
  }

  lemma {:induction false} RunFromKeepsInv(w: World, actions: seq<Action>)
    requires Inv(w)
    ensures Inv(RunFrom(w, actions))
    decreases |actions|
  {
    if actions != [] {
      NextKeepsInv(w, actions[0]);
      RunFromKeepsInv(Next(w, actions[0]), actions[1..]);
    }
  }

  lemma RunKeepsInv(actions: seq<Action>)
    ensures Inv(Run(actions))
  {
    RunFromKeepsInv(IDLE, actions);
  }

  // ------------------------------------------------------------------ the promises

  /** At most one body runs at a time, and only while its context holds the lock file. */
  lemma OneBodyAtATime(actions: seq<Action>, a: Id)
    requires a in Run(actions).ctxs && Run(actions).ctxs[a].coroutine == Body
    ensures Run(actions).owner == Some(Ours(a))
    ensures forall b | b in Run(actions).ctxs && Run(actions).ctxs[b].coroutine == Body :: b == a
  {
    RunKeepsInv(actions);
    var w := Run(actions);
    forall b | b in w.ctxs && w.ctxs[b].coroutine == Body ensures w.owner == Some(Ours(b)) {
      assert ContextOk(w.ctxs[b]);
    }
  }

  /** The thread has ended, the coroutine has ended and no release job is outstanding. */
  predicate Settled(c: Context) {
    c.coroutine == Over && c.thread in {Returned, Raised, Skipped} && c.job != Submitted
  }

  /** A lock that was won is released exactly once, by whichever side notices the cancellation. */
  lemma ReleasedExactlyOnce(actions: seq<Action>, c: Id)
    requires c in Run(actions).ctxs
    ensures var x := Run(actions).ctxs[c]; x.releases <= x.wins <= 1
    ensures var x := Run(actions).ctxs[c];
      Settled(x) ==> x.releases == x.wins && Run(actions).owner != Some(Ours(c))
  {
    RunKeepsInv(actions);
    assert ContextOk(Run(actions).ctxs[c]);
  }

  /** A release always finds the lock file held by the releasing context. */
  lemma ReleaseIsOwn(actions: seq<Action>, c: Id, e: Event)
    requires c in Run(actions).ctxs && e in {Undo, RunJob} && Enabled(Run(actions).ctxs[c], e)
    ensures Run(actions).owner == Some(Ours(c)) && Next(Run(actions), Act(c, e)).owner == None
  {
    RunKeepsInv(actions);
    assert ContextOk(Run(actions).ctxs[c]);
  }

  /** Every event is possible at its turn. */
  predicate CanAct(w: World, c: Id, es: seq<Event>)
    decreases |es|
  {
    es == []
    || (c in w.ctxs && Enabled(w.ctxs[c], es[0]) && CanAct(Next(w, Act(c, es[0])), c, es[1..]))
  }

  function Acts(w: World, c: Id, es: seq<Event>): World
    decreases |es|
  {
    if es == [] then w else Acts(Next(w, Act(c, es[0])), c, es[1..])
  }

  /** The next step of a holder on the way to its release. */
  function TowardsRelease(x: Context): Event {
    if x.thread == Won then ThreadGuard
    else if x.thread == Undoing then Undo
    else
      match x.coroutine
      case Awaiting(cancelled) => if cancelled then CancelHandler else Resume
      case Body => EndBody
      case _ => RunJob
  }

  /** How many such steps are left. */
  function Distance(x: Context): nat {
    if x.thread == Won then (match x.coroutine case Awaiting(cancelled) => if cancelled then 3 else 4 case _ => 2)
    else if x.thread == Undoing then 1
    else
      match x.coroutine
      case Awaiting(cancelled) => if cancelled then 2 else 3
      case Body => 2
      case _ => 1
  }

  lemma HolderStep(w: World, c: Id)
    requires Inv(w) && c in w.ctxs && w.owner == Some(Ours(c))
    ensures var e := TowardsRelease(w.ctxs[c]);
      var n := Next(w, Act(c, e));
      Enabled(w.ctxs[c], e) && c in n.ctxs
      && if Distance(w.ctxs[c]) == 1 then n.owner == None
         else n.owner == Some(Ours(c)) && Distance(n.ctxs[c]) == Distance(w.ctxs[c]) - 1
  {
    assert ContextOk(w.ctxs[c]);
  }

  /** Whoever holds the lock file comes to its release by at most four steps of its own. */
  lemma {:induction false} HolderReleases(w: World, c: Id) returns (es: seq<Event>)
    requires Inv(w) && c in w.ctxs && w.owner == Some(Ours(c))
    ensures |es| <= 4 && |es| == Distance(w.ctxs[c])
    ensures CanAct(w, c, es) && Acts(w, c, es).owner == None
    decreases Distance(w.ctxs[c])
  {
    hide Inv, Next, Enabled;
    var e := TowardsRelease(w.ctxs[c]);
    HolderStep(w, c);
    var rest := [];
    if Distance(w.ctxs[c]) > 1 {
      NextKeepsInv(w, Act(c, e));
      rest := HolderReleases(Next(w, Act(c, e)), c);
    }
    es := [e] + rest;
    assert es[1..] == rest;
  }

  /** After the cancelled flag is set, the thread misses at most one more attempt and then stops:
      it is never again about to sleep or to retry. */
  lemma OneMoreMiss(actions: seq<Action>, c: Id)
    requires c in Run(actions).ctxs
    ensures Run(actions).ctxs[c].lateMisses <= 1
    ensures var x := Run(actions).ctxs[c];
      x.lateMisses == 1 ==> x.cancelled && x.thread in {Missed, Raised}
    ensures forall expired :: var x := Run(actions).ctxs[c];
      x.thread == Missed && x.cancelled ==>
        Step(View(x, Run(actions).owner), c, Check(expired)).ctx.thread == Raised
  {
    RunKeepsInv(actions);
    assert ContextOk(Run(actions).ctxs[c]);
  }

  /** The thread never undoes a lock that the coroutine uses or releases, and conversely. */
  lemma OneReleaser(actions: seq<Action>, c: Id)
    requires c in Run(actions).ctxs
    ensures var x := Run(actions).ctxs[c];
      x.thread == Undoing ==> x.coroutine == Over && x.job == NoJob && !x.acquired
    ensures var x := Run(actions).ctxs[c];
      x.job != NoJob ==> x.thread == Returned
  {
    RunKeepsInv(actions);
    assert ContextOk(Run(actions).ctxs[c]);
  }
}
