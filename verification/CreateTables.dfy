/** The module-level tables of creates and cancellations, and the polling loop of the cancel handler. */
module CreateTables {
  import opened Options
  import opened CreateCancel

  class Registry {
    var events: map<string, nat>
    var tasks: map<string, nat>
    var signalled: set<nat>
    var requested: set<string>
    var inProgress: set<string>
    var cancelled: set<string>

    constructor ()
      ensures forall id :: View(id) == Tables(None, None, {}, false, false, false)
    {
      events, tasks, signalled, requested, inProgress, cancelled := map[], map[], {}, {}, {}, {};
    }

    /** The entries of one id. */
    function View(id: string): Tables
      reads this
    {
      Tables(
        if id in events then Some(events[id]) else None,
        if id in tasks then Some(tasks[id]) else None,
        signalled, id in requested, id in inProgress, id in cancelled)
    }

    /** Every other id keeps its entries. */
    twostate predicate OnlyChanges(id: string)
      reads this
    {
      forall other | other != id :: View(other) == old(View(other)).(signalled := signalled)
    }

    method RegisterCancellation(id: string, event: nat)
      modifies this
      ensures View(id) == Register(old(View(id)), event) && OnlyChanges(id)
    {
      events := events[id := event];
      if id in requested { signalled := signalled + {event}; }
    }

    method UnregisterCancellation(id: string, event: nat)
      modifies this`events
      ensures View(id) == Unregister(old(View(id)), event) && OnlyChanges(id)
    {
      if id in events && events[id] == event { events := events - {id}; }
    }

    /** Whether a running create was told. */
    method RequestCancellation(id: string) returns (told: bool)
      modifies this
      ensures View(id) == Request(old(View(id))) && OnlyChanges(id)
      ensures told <==> old(View(id)).event.Some?
    {
      cancelled := cancelled + {id};
      requested := requested + {id};
      told := id in events;
      if told { signalled := signalled + {events[id]}; }
    }

    method IsCancelled(id: string) returns (yes: bool)
      ensures yes <==> Signalled(View(id))
    {
      yes := id in events && events[id] in signalled;
    }

    method TrackTask(id: string, task: nat)
      modifies this`tasks
      ensures View(id) == old(View(id)).(task := Some(task)) && OnlyChanges(id)
    {
      tasks := tasks[id := task];
    }

    /** The done-callback. */
    method UntrackTask(id: string, done: nat)
      modifies this`tasks
      ensures View(id) == Untrack(old(View(id)), done) && OnlyChanges(id)
    {
      if id in tasks && tasks[id] == done { tasks := tasks - {id}; }
    }

    /** The `finally` of the bootstrap. */
    method FinishBootstrap(id: string, event: nat)
      modifies this
      ensures View(id) == Finish(old(View(id)), event) && OnlyChanges(id)
    {
      UnregisterCancellation(id, event);
      requested := requested - {id};
      inProgress := inProgress - {id};
      cancelled := cancelled - {id};
    }

    /** The end of `_await_create_release` and of the cancel; answers whether the release was forced. */
    method EndCancel(id: string) returns (forced: bool)
      modifies this
      ensures View(id) == Release(old(View(id))) && OnlyChanges(id)
      ensures forced <==> old(View(id)).reserved
    {
      forced := id in inProgress;
      if forced { inProgress := inProgress - {id}; }
      requested := requested - {id};
      cancelled := cancelled - {id};
    }
  }

  // ------------------------------------------------------------------ waiting for the cleanup to show

  const WAIT_MS := 30000
  const POLL_MS := 500

  /** Probes `i` and `i - 1` both found nothing. */
  predicate TwiceAbsent(present: nat -> bool, i: nat) { i > 0 && !present(i) && !present(i - 1) }

  /**
   * `_wait_until_agent_create_cleanup_visible`: probe `i` answers `present(i)` and is followed by reading the
   * clock. The sleep after it takes at least a poll, or what is left until the deadline. True is a normal return.
   */
  method WaitUntilCleanupVisible(present: nat -> bool, start: int, clock: nat -> int)
    returns (absent: bool, probes: nat)
    requires clock(0) >= start
    requires forall i: nat :: clock(i + 1) >= clock(i) + POLL_MS || clock(i + 1) >= start + WAIT_MS
    ensures probes > 0 && absent == TwiceAbsent(present, probes - 1)
    ensures forall i: nat | i < probes - 1 :: !TwiceAbsent(present, i) && clock(i) < start + WAIT_MS
    ensures !absent ==> clock(probes - 1) >= start + WAIT_MS
    ensures probes <= WAIT_MS / POLL_MS + 1
  {
    var deadline := start + WAIT_MS;
    var consecutive := 0;
    probes := 0;
    while true
      invariant consecutive == if probes > 0 && !present(probes - 1) then 1 else 0
      invariant forall i: nat | i < probes :: !TwiceAbsent(present, i) && clock(i) < deadline
      invariant probes > 0 ==> clock(probes - 1) >= start + (probes - 1) * POLL_MS
      invariant probes <= WAIT_MS / POLL_MS
      decreases WAIT_MS / POLL_MS + 1 - probes
    {
      if probes > 0 {
        ghost var i := probes - 1;
        assert clock(i + 1) >= clock(i) + POLL_MS || clock(i + 1) >= deadline;
      }
      if present(probes) { consecutive := 0; } else { consecutive := consecutive + 1; }
      probes := probes + 1;
      if consecutive >= REQUIRED_ABSENT { return true, probes; }
      if clock(probes - 1) >= deadline { return false, probes; }
    }
  }
}
