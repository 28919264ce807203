/** The retry loop around one `openclaw agent` command. */
module ChatRetry {

  /** Delays in milliseconds. */
  const GATEWAY_DELAYS := [400, 800, 1600]
  const CONNECTION_DELAYS := [1000, 2000, 4000]
  const CONNECTION_ATTEMPTS := 3

  /**
   * What happens around one spawn: a cancel request seen before it, the command timing out or being cancelled,
   * or its exit. A failing exit is judged by its text, which may look like several causes at once.
   */
  datatype Turn =
    | CancelledBefore
    | TimedOut
    | CancelledDuring
    | CancelledAfter
    | Exited(code: int, scope: bool, unknownAgent: bool, transient: bool, json: bool)

  datatype Result = Payload | CreateCancelled | CliTimeout | CliFailed | BadOutput

  datatype Budgets = Budgets(repaired: bool, unknown: nat, connection: nat)

  const FRESH := Budgets(false, 0, 0)

  datatype Next = RepairScope | RetryUnknown(delay: nat) | RetryConnection(delay: nat) | Stop(result: Result)

  function Min(a: int, b: int): int { if a < b then a else b }

  function Max(a: int, b: int): int { if a < b then b else a }

  function React(t: Turn, b: Budgets, retryUnknown: bool, attempts: int): Next {
    match t
    case CancelledBefore => Stop(CreateCancelled)
    case TimedOut => Stop(CliTimeout)
    case CancelledDuring => Stop(CreateCancelled)
    case CancelledAfter => Stop(CreateCancelled)
    case Exited(code, scope, unknownAgent, transient, json) =>
      if code == 0 then Stop(if json then Payload else BadOutput)
      else if !b.repaired && scope then RepairScope
      else if retryUnknown && b.unknown < |GATEWAY_DELAYS| && unknownAgent then RetryUnknown(GATEWAY_DELAYS[b.unknown])
      else if b.connection + 1 < attempts && transient then
        RetryConnection(CONNECTION_DELAYS[Min(b.connection, |CONNECTION_DELAYS| - 1)])
      else Stop(CliFailed)
  }

  function Spend(b: Budgets, n: Next): Budgets {
    match n
    case RepairScope => b.(repaired := true)
    case RetryUnknown(_) => b.(unknown := b.unknown + 1)
    case RetryConnection(_) => b.(connection := b.connection + 1)
    case Stop(_) => b
  }

  /** The retries left over all three budgets. */
  function Left(b: Budgets, attempts: int): nat {
    (if b.repaired then 0 else 1) + Max(|GATEWAY_DELAYS| - b.unknown, 0) + Max(attempts - 1 - b.connection, 0)
  }

  lemma RetrySpends(t: Turn, b: Budgets, retryUnknown: bool, attempts: int)
    ensures var n := React(t, b, retryUnknown, attempts);
      !n.Stop? ==> Left(Spend(b, n), attempts) == Left(b, attempts) - 1
  {
  }

  function Used(b: Budgets): nat { (if b.repaired then 1 else 0) + b.unknown + b.connection }

  /** How the call ends, after how many spawns, having slept how long, with which budgets spent. */
  datatype Ending = Ending(result: Result, spawns: nat, slept: nat, budgets: Budgets)

  /** The call from its `k`-th round on. */
  function EndingFrom(turns: nat -> Turn, k: nat, slept: nat, b: Budgets, retryUnknown: bool, attempts: int): Ending
    decreases Left(b, attempts)
  {
    var n := React(turns(k), b, retryUnknown, attempts);
    var spawns := if turns(k).CancelledBefore? then k else k + 1;
    match n
    case Stop(result) => Ending(result, spawns, slept, b)
    case RepairScope => EndingFrom(turns, k + 1, slept, Spend(b, n), retryUnknown, attempts)
    case RetryUnknown(delay) => EndingFrom(turns, k + 1, slept + delay, Spend(b, n), retryUnknown, attempts)
    case RetryConnection(delay) => EndingFrom(turns, k + 1, slept + delay, Spend(b, n), retryUnknown, attempts)
  }

  function Pause(n: Next): nat {
    match n case RetryUnknown(d) => d case RetryConnection(d) => d case _ => 0
  }

  lemma EndingStep(turns: nat -> Turn, k: nat, slept: nat, b: Budgets, retryUnknown: bool, attempts: int)
    ensures var n := React(turns(k), b, retryUnknown, attempts);
      EndingFrom(turns, k, slept, b, retryUnknown, attempts) ==
        if n.Stop? then Ending(n.result, if turns(k).CancelledBefore? then k else k + 1, slept, b)
        else EndingFrom(turns, k + 1, slept + Pause(n), Spend(b, n), retryUnknown, attempts)
  {
    hide React, Left, Spend;
  }

  /** What the last turn that the call looks at makes of it. */
  predicate Answers(t: Turn, r: Result) {
    && (r == Payload <==> t.Exited? && t.code == 0 && t.json)
    && (r == BadOutput <==> t.Exited? && t.code == 0 && !t.json)
    && (r == CliFailed <==> t.Exited? && t.code != 0)
    && (r == CliTimeout <==> t.TimedOut?)
    && (r == CreateCancelled <==> t.CancelledBefore? || t.CancelledDuring? || t.CancelledAfter?)
  }

  /** `_chat_completion_via_cli` against any sequence of turns. */
  method ChatCompletion(turns: nat -> Turn, retryUnknown: bool, attempts: int) returns (e: Ending)
    ensures e == EndingFrom(turns, 0, 0, FRESH, retryUnknown, attempts)
    ensures Answers(turns(Used(e.budgets)), e.result)
    ensures e.spawns <= Max(attempts, 1) + 4
    ensures !retryUnknown ==> e.spawns <= Max(attempts, 1) + 1
  {
    hide Left, EndingFrom;
    var unknownRetryIndex, connectionRetryIndex, repairAttempted := 0, 0, false;
    var spawns, slept := 0, 0;
    while true
      invariant 0 <= unknownRetryIndex <= |GATEWAY_DELAYS| && 0 <= connectionRetryIndex <= Max(attempts, 1) - 1
      invariant 0 <= slept && spawns == Used(Budgets(repairAttempted, unknownRetryIndex, connectionRetryIndex))
      invariant !retryUnknown ==> unknownRetryIndex == 0
      invariant EndingFrom(turns, 0, 0, FRESH, retryUnknown, attempts)
        == EndingFrom(turns, spawns, slept, Budgets(repairAttempted, unknownRetryIndex, connectionRetryIndex),
                      retryUnknown, attempts)
      decreases Left(Budgets(repairAttempted, unknownRetryIndex, connectionRetryIndex), attempts)
    {
      var turn := turns(spawns);
      var b := Budgets(repairAttempted, unknownRetryIndex, connectionRetryIndex);
      RetrySpends(turn, b, retryUnknown, attempts);
      EndingStep(turns, spawns, slept, b, retryUnknown, attempts);
      if turn.CancelledBefore? { return Ending(CreateCancelled, spawns, slept, b); }
      spawns := spawns + 1;
      if turn.TimedOut? { return Ending(CliTimeout, spawns, slept, b); }
      if turn.CancelledDuring? || turn.CancelledAfter? { return Ending(CreateCancelled, spawns, slept, b); }
      if turn.code == 0 {
        return Ending(if turn.json then Payload else BadOutput, spawns, slept, b);
      }
      if !repairAttempted && turn.scope {
        repairAttempted := true;
      } else if retryUnknown && unknownRetryIndex < |GATEWAY_DELAYS| && turn.unknownAgent {
        slept := slept + GATEWAY_DELAYS[unknownRetryIndex];
        unknownRetryIndex := unknownRetryIndex + 1;
      } else if connectionRetryIndex + 1 < attempts && turn.transient {
        slept := slept + CONNECTION_DELAYS[Min(connectionRetryIndex, |CONNECTION_DELAYS| - 1)];
        connectionRetryIndex := connectionRetryIndex + 1;
      } else {
        return Ending(CliFailed, spawns, slept, b);
      }
    }
  }

  // ------------------------------------------------------------------ what the ending says

  /** A turn after which the loop may go round again. */
  predicate Failing(t: Turn) { t.Exited? && t.code != 0 }

  function GatewaySleep(n: nat): nat {
    if n == 0 then 0 else GatewaySleep(n - 1) + (if n <= |GATEWAY_DELAYS| then GATEWAY_DELAYS[n - 1] else 0)
  }

  function ConnectionSleep(n: nat): nat {
    if n == 0 then 0 else ConnectionSleep(n - 1) + CONNECTION_DELAYS[Min(n - 1, |CONNECTION_DELAYS| - 1)]
  }

  /** The state the loop is in before its `k`-th round. */
  predicate Reached(turns: nat -> Turn, k: nat, slept: nat, b: Budgets) {
    k == Used(b) && slept == GatewaySleep(b.unknown) + ConnectionSleep(b.connection)
    && forall i: nat | i < k :: Failing(turns(i))
  }

  lemma UsedIsRounds(turns: nat -> Turn, k: nat, slept: nat, b: Budgets)
    requires Reached(turns, k, slept, b)
    ensures k == Used(b)
  {
  }

  lemma RetryReaches(turns: nat -> Turn, k: nat, slept: nat, b: Budgets, retryUnknown: bool, attempts: int)
    requires Reached(turns, k, slept, b) && !React(turns(k), b, retryUnknown, attempts).Stop?
    ensures var n := React(turns(k), b, retryUnknown, attempts);
      Reached(turns, k + 1, slept + Pause(n), Spend(b, n))
  {
  }

  /**
   * However the failures are mixed, every spawn but the last is paid for by one of the three budgets, and the
   * time slept depends on the budgets alone. A payload comes from the first successful command and everything
   * before it failed; a failure is reported only when no budget covers what the last command said.
   */
  lemma {:induction false} EndingExplained(
    turns: nat -> Turn, k: nat, slept: nat, b: Budgets, retryUnknown: bool, attempts: int)
    requires Reached(turns, k, slept, b)
    ensures var e := EndingFrom(turns, k, slept, b, retryUnknown, attempts);
      var last := turns(Used(e.budgets));
      Reached(turns, Used(e.budgets), e.slept, e.budgets)
      && React(last, e.budgets, retryUnknown, attempts) == Stop(e.result)
      && e.spawns == Used(e.budgets) + (if last.CancelledBefore? then 0 else 1)
    decreases Left(b, attempts)
  {
    hide Reached, React, Left, Spend;
    var n := React(turns(k), b, retryUnknown, attempts);
    UsedIsRounds(turns, k, slept, b);
    if !n.Stop? {
      RetrySpends(turns(k), b, retryUnknown, attempts);
      var pause := Pause(n);
      RetryReaches(turns, k, slept, b, retryUnknown, attempts);
      EndingExplained(turns, k + 1, slept + pause, Spend(b, n), retryUnknown, attempts);
    }
  }

  lemma NothingYet(turns: nat -> Turn)
    ensures Reached(turns, 0, 0, FRESH)
  {
  }

  lemma CallEnds(turns: nat -> Turn, retryUnknown: bool, attempts: int) returns (e: Ending, last: Turn)
    ensures e == EndingFrom(turns, 0, 0, FRESH, retryUnknown, attempts) && last == turns(Used(e.budgets))
    ensures Reached(turns, Used(e.budgets), e.slept, e.budgets)
    ensures React(last, e.budgets, retryUnknown, attempts) == Stop(e.result)
    ensures e.spawns == Used(e.budgets) + (if last.CancelledBefore? then 0 else 1)
  {
    hide *;
    NothingYet(turns);
    EndingExplained(turns, 0, 0, FRESH, retryUnknown, attempts);
    e := EndingFrom(turns, 0, 0, FRESH, retryUnknown, attempts);
    last := turns(Used(e.budgets));
  }

  /** A payload comes from the first command that succeeds; the waiting before it is what its retries cost. */
  lemma PayloadExplained(turns: nat -> Turn, retryUnknown: bool, attempts: int)
    requires EndingFrom(turns, 0, 0, FRESH, retryUnknown, attempts).result == Payload
    ensures var e := EndingFrom(turns, 0, 0, FRESH, retryUnknown, attempts);
      e.spawns == Used(e.budgets) + 1 && turns(e.spawns - 1).Exited? && turns(e.spawns - 1).code == 0
      && (forall i: nat | i < e.spawns - 1 :: Failing(turns(i)))
      && e.slept == GatewaySleep(e.budgets.unknown) + ConnectionSleep(e.budgets.connection)
  {
    hide EndingFrom, React, GatewaySleep, ConnectionSleep, Used;
    var e, last := CallEnds(turns, retryUnknown, attempts);
    StopExplained(last, e.budgets, retryUnknown, attempts);
  }

  /** The command is reported as failed only when no budget is left for what its last run said. */
  lemma FailureExplained(turns: nat -> Turn, retryUnknown: bool, attempts: int)
    requires EndingFrom(turns, 0, 0, FRESH, retryUnknown, attempts).result == CliFailed
    ensures var e := EndingFrom(turns, 0, 0, FRESH, retryUnknown, attempts);
      e.spawns == Used(e.budgets) + 1 && Failing(turns(e.spawns - 1))
      && (turns(e.spawns - 1).scope ==> e.budgets.repaired)
      && (retryUnknown && turns(e.spawns - 1).unknownAgent ==> e.budgets.unknown >= |GATEWAY_DELAYS|)
      && (turns(e.spawns - 1).transient ==> e.budgets.connection + 1 >= attempts)
  {
    hide EndingFrom, React, Reached, Used;
    var e, last := CallEnds(turns, retryUnknown, attempts);
    StopExplained(last, e.budgets, retryUnknown, attempts);
  }

  lemma StopExplained(t: Turn, b: Budgets, retryUnknown: bool, attempts: int)
    ensures var n := React(t, b, retryUnknown, attempts);
      (n == Stop(Payload) ==> t.Exited? && t.code == 0 && t.json)
      && (n == Stop(CliFailed) ==>
            Failing(t) && (t.scope ==> b.repaired)
            && (retryUnknown && t.unknownAgent ==> b.unknown >= |GATEWAY_DELAYS|)
            && (t.transient ==> b.connection + 1 >= attempts))
  {
  }

  predicate WithinBudgets(b: Budgets, attempts: int) {
    b.unknown <= |GATEWAY_DELAYS| && b.connection <= Max(attempts, 1) - 1
  }

  lemma {:induction false} BudgetsBounded(
    turns: nat -> Turn, k: nat, slept: nat, b: Budgets, retryUnknown: bool, attempts: int)
    requires WithinBudgets(b, attempts)
    ensures WithinBudgets(EndingFrom(turns, k, slept, b, retryUnknown, attempts).budgets, attempts)
    decreases Left(b, attempts)
  {
    hide WithinBudgets, React, Left, Spend;
    var n := React(turns(k), b, retryUnknown, attempts);
    if !n.Stop? {
      RetrySpends(turns(k), b, retryUnknown, attempts);
      RetryWithin(turns(k), b, retryUnknown, attempts);
      BudgetsBounded(turns, k + 1, slept + Pause(n), Spend(b, n), retryUnknown, attempts);
    }
  }

  lemma RetryWithin(t: Turn, b: Budgets, retryUnknown: bool, attempts: int)
    requires WithinBudgets(b, attempts) && !React(t, b, retryUnknown, attempts).Stop?
    ensures WithinBudgets(Spend(b, React(t, b, retryUnknown, attempts)), attempts)
  {
  }

  /** With the shipped number of attempts a call spawns at most seven commands and sleeps at most 5.8 seconds. */
  lemma ShippedBounds(turns: nat -> Turn, retryUnknown: bool)
    ensures var e := EndingFrom(turns, 0, 0, FRESH, retryUnknown, CONNECTION_ATTEMPTS);
      e.spawns <= 7 && e.slept <= 5800
  {
    hide EndingFrom, React;
    BudgetsBounded(turns, 0, 0, FRESH, retryUnknown, CONNECTION_ATTEMPTS);
    var e, last := CallEnds(turns, retryUnknown, CONNECTION_ATTEMPTS);
    SleepBounds(e.budgets);
  }

  lemma SleepBounds(b: Budgets)
    requires WithinBudgets(b, CONNECTION_ATTEMPTS)
    ensures GatewaySleep(b.unknown) + ConnectionSleep(b.connection) <= 5800
  {
    assert GatewaySleep(0) == 0 && GatewaySleep(1) == 400 && GatewaySleep(2) == 1200 && GatewaySleep(3) == 2800;
    assert ConnectionSleep(0) == 0 && ConnectionSleep(1) == 1000 && ConnectionSleep(2) == 3000;
  }

  // ------------------------------------------------------------------ the bound is reached

  /** A turn that looks like every cause at once. */
  const HOPELESS := Exited(1, true, true, true, false)

  lemma {:induction false} HopelessSpendsAll(k: nat, slept: nat, b: Budgets, attempts: int)
    requires attempts >= 1 && b.unknown <= |GATEWAY_DELAYS| && b.connection < attempts
    ensures EndingFrom(_ => HOPELESS, k, slept, b, true, attempts).spawns == k + Left(b, attempts) + 1
    decreases Left(b, attempts)
  {
    var n := React(HOPELESS, b, true, attempts);
    if !n.Stop? {
      RetrySpends(HOPELESS, b, true, attempts);
      HopelessSpendsAll(k + 1, slept + Pause(n), Spend(b, n), attempts);
    }
  }

  /** Four spawns on top of the connection attempts is the exact worst case. */
  lemma BoundIsReached(attempts: int)
    requires attempts >= 1
    ensures EndingFrom(_ => HOPELESS, 0, 0, FRESH, true, attempts).spawns == attempts + 4
  {
    HopelessSpendsAll(0, 0, FRESH, attempts);
  }
}
