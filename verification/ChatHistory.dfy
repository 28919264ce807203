/** The retry loop told as a history: what each retry was for, what it waited, and what ended the call. */
module ChatHistory {
  import opened ChatRetry

  /** What a retry is for. */
  datatype Cause = Scope | UnknownAgent | Connection

  type History = seq<Cause>

  function Count(h: History, c: Cause): (n: nat)
    ensures n <= |h|
  {
    multiset(h)[c]
  }

  /** The failed command looks like the cause, and the cause has retries left: one, three, or `attempts - 1`. */
  predicate Wants(t: Turn, h: History, c: Cause, retryUnknown: bool, attempts: int) {
    && t.Exited? && t.code != 0
    && match c
       case Scope => t.scope && Count(h, Scope) == 0
       case UnknownAgent => retryUnknown && t.unknownAgent && Count(h, UnknownAgent) < 3
       case Connection => t.transient && Count(h, Connection) + 1 < attempts
  }

  /** The first cause that is wanted is the one that is retried. */
  predicate RetriedFor(t: Turn, h: History, c: Cause, retryUnknown: bool, attempts: int) {
    && Wants(t, h, c, retryUnknown, attempts)
    && (c != Scope ==> !Wants(t, h, Scope, retryUnknown, attempts))
    && (c == Connection ==> !Wants(t, h, UnknownAgent, retryUnknown, attempts))
  }

  /** Milliseconds of sleep before a retry. */
  function Delay(h: History, c: Cause): nat {
    match c
    case Scope => 0
    case UnknownAgent => if Count(h, c) == 0 then 400 else if Count(h, c) == 1 then 800 else 1600
    case Connection => if Count(h, c) == 0 then 1000 else if Count(h, c) == 1 then 2000 else 4000
  }

  function Slept(h: History): nat {
    if h == [] then 0 else Slept(h[..|h| - 1]) + Delay(h[..|h| - 1], h[|h| - 1])
  }

  /** Each turn so far failed and was retried for the cause that the history names. */
  ghost predicate Tells(turns: nat -> Turn, h: History, retryUnknown: bool, attempts: int) {
    forall i: nat | i < |h| :: RetriedFor(turns(i), h[..i], h[i], retryUnknown, attempts)
  }

  /** The history is over: nothing is retried after it. */
  ghost predicate Ends(turns: nat -> Turn, h: History, retryUnknown: bool, attempts: int) {
    Tells(turns, h, retryUnknown, attempts) && forall c :: !Wants(turns(|h|), h, c, retryUnknown, attempts)
  }

  /** The loop's counters for a history. */
  function Counters(h: History): Budgets {
    Budgets(Count(h, Scope) > 0, Count(h, UnknownAgent), Count(h, Connection))
  }

  // ------------------------------------------------------------------ one round

  lemma CountSnoc(h: History, c: Cause)
    ensures forall d :: Count(h + [c], d) == Count(h, d) + (if d == c then 1 else 0)
  {
  }

  lemma SleptSnoc(h: History, c: Cause)
    ensures Slept(h + [c]) == Slept(h) + Delay(h, c)
  {
    assert (h + [c])[..|h|] == h;
  }

  lemma TellsSnoc(turns: nat -> Turn, h: History, c: Cause, retryUnknown: bool, attempts: int)
    requires Tells(turns, h, retryUnknown, attempts) && RetriedFor(turns(|h|), h, c, retryUnknown, attempts)
    ensures Tells(turns, h + [c], retryUnknown, attempts)
  {
    hide RetriedFor;
    var g := h + [c];
    forall i: nat | i < |g| ensures RetriedFor(turns(i), g[..i], g[i], retryUnknown, attempts) {
      if i < |h| { assert g[..i] == h[..i]; } else { assert g[..i] == h; }
    }
  }

  /** The loop stops exactly if nothing is wanted, and then as the turn says. */
  lemma StopsIff(t: Turn, h: History, retryUnknown: bool, attempts: int)
    ensures var n := React(t, Counters(h), retryUnknown, attempts);
      && (n.Stop? <==> forall c :: !Wants(t, h, c, retryUnknown, attempts))
      && (n.Stop? ==> Answers(t, n.result))
  {
    hide Count;
    assert t.Exited? && t.code != 0 ==> Answers(t, CliFailed);
    if React(t, Counters(h), retryUnknown, attempts).Stop? {
      forall c ensures !Wants(t, h, c, retryUnknown, attempts) {
        match c { case Scope => case UnknownAgent => case Connection => }
      }
    } else {
      var c := CauseOf(React(t, Counters(h), retryUnknown, attempts));
      assert Wants(t, h, c, retryUnknown, attempts);
    }
  }

  function CauseOf(n: Next): Cause
    requires !n.Stop?
  {
    match n case RepairScope => Scope case RetryUnknown(_) => UnknownAgent case RetryConnection(_) => Connection
  }

  lemma RetryIsFor(t: Turn, h: History, retryUnknown: bool, attempts: int)
    requires !React(t, Counters(h), retryUnknown, attempts).Stop?
    ensures var n := React(t, Counters(h), retryUnknown, attempts);
      && RetriedFor(t, h, CauseOf(n), retryUnknown, attempts)
      && Pause(n) == Delay(h, CauseOf(n)) && Spend(Counters(h), n) == Counters(h + [CauseOf(n)])
  {
    var n := React(t, Counters(h), retryUnknown, attempts);
    CountSnoc(h, CauseOf(n));
    hide Count;
  }

  // ------------------------------------------------------------------ the whole call

  lemma {:induction false} HistoryFrom(turns: nat -> Turn, h: History, retryUnknown: bool, attempts: int)
    returns (all: History)
    requires Tells(turns, h, retryUnknown, attempts)
    ensures var e := EndingFrom(turns, |h|, Slept(h), Counters(h), retryUnknown, attempts);
      && Ends(turns, all, retryUnknown, attempts) && Answers(turns(|all|), e.result)
      && e.slept == Slept(all) && e.budgets == Counters(all)
      && e.spawns == (if turns(|all|).CancelledBefore? then |all| else |all| + 1)
    decreases Left(Counters(h), attempts)
  {
    hide React, Left, Wants, RetriedFor, Counters, Slept, Delay, Answers, Tells, Pause, Spend;
    var t := turns(|h|);
    var n := React(t, Counters(h), retryUnknown, attempts);
    StopsIff(t, h, retryUnknown, attempts);
    EndingStep(turns, |h|, Slept(h), Counters(h), retryUnknown, attempts);
    if n.Stop? {
      all := h;
    } else {
      var c := CauseOf(n);
      RetrySpends(t, Counters(h), retryUnknown, attempts);
      RetryIsFor(t, h, retryUnknown, attempts);
      SleptSnoc(h, c);
      TellsSnoc(turns, h, c, retryUnknown, attempts);
      all := HistoryFrom(turns, h + [c], retryUnknown, attempts);
    }
  }

  /**
   * Every call has a history: a retry is made only for a cause that the failed command showed and that has retries
   * left, always for the first such cause, and the call ends at the first turn that shows none, with the answer of
   * that turn. The number of spawns and the time slept are those of the history.
   */
  lemma CallHasHistory(turns: nat -> Turn, retryUnknown: bool, attempts: int) returns (h: History)
    ensures var e := EndingFrom(turns, 0, 0, FRESH, retryUnknown, attempts);
      && Ends(turns, h, retryUnknown, attempts) && Answers(turns(|h|), e.result)
      && e.slept == Slept(h) && e.spawns == (if turns(|h|).CancelledBefore? then |h| else |h| + 1)
  {
    hide EndingFrom, Ends, Answers;
    assert Counters([]) == FRESH && Slept([]) == 0;
    h := HistoryFrom(turns, [], retryUnknown, attempts);
  }

  /** And only one: what the commands say decides the call. */
  lemma HistoryIsUnique(turns: nat -> Turn, h: History, g: History, retryUnknown: bool, attempts: int)
    requires Ends(turns, h, retryUnknown, attempts) && Ends(turns, g, retryUnknown, attempts)
    ensures h == g
  {
    SamePrefix(turns, h, g, if |h| <= |g| then |h| else |g|, retryUnknown, attempts);
    if |h| <= |g| {
      EndsFirst(turns, h, g, retryUnknown, attempts);
    } else {
      EndsFirst(turns, g, h, retryUnknown, attempts);
    }
    assert h == h[..|h|] && g == g[..|g|];
  }

  lemma EndsFirst(turns: nat -> Turn, h: History, g: History, retryUnknown: bool, attempts: int)
    requires Ends(turns, h, retryUnknown, attempts) && Tells(turns, g, retryUnknown, attempts)
    requires |h| <= |g| && h[..|h|] == g[..|h|]
    ensures |g| == |h|
  {
    hide Wants;
    assert h == g[..|h|];
    assert forall c :: !RetriedFor(turns(|h|), g[..|h|], c, retryUnknown, attempts);
  }

  lemma {:induction false} SamePrefix(
    turns: nat -> Turn, h: History, g: History, n: nat, retryUnknown: bool, attempts: int)
    requires Tells(turns, h, retryUnknown, attempts) && Tells(turns, g, retryUnknown, attempts)
    requires n <= |h| && n <= |g|
    ensures h[..n] == g[..n]
  {
    hide Wants;
    if n > 0 {
      SamePrefix(turns, h, g, n - 1, retryUnknown, attempts);
      var i := n - 1;
      assert RetriedFor(turns(i), h[..i], h[i], retryUnknown, attempts);
      assert RetriedFor(turns(i), g[..i], g[i], retryUnknown, attempts);
      assert h[..n] == h[..i] + [h[i]] && g[..n] == g[..i] + [g[i]];
    }
  }
}
