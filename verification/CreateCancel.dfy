/** Creating and cancelling one agent id: the cancellation tables, the bootstrap task and the cancel handler. */
module CreateCancel {
  import opened Options

  /**
   * The table entries of one id: `_PENDING_AGENT_CREATE_CANCELLATIONS`, `_AGENT_CREATE_TASKS`, the events that
   * are set, `_REQUESTED_AGENT_CREATE_CANCELLATIONS`, the reservation and the service's cancel flag. A create's
   * number stands for its event and for its task.
   */
  datatype Tables = Tables(
    event: Option<nat>, task: Option<nat>, signalled: set<nat>, requested: bool, reserved: bool, cancelled: bool)

  function Register(t: Tables, c: nat): Tables {
    t.(event := Some(c), signalled := if t.requested then t.signalled + {c} else t.signalled)
  }

  function Unregister(t: Tables, c: nat): Tables {
    if t.event == Some(c) then t.(event := None) else t
  }

  function Untrack(t: Tables, c: nat): Tables {
    if t.task == Some(c) then t.(task := None) else t
  }

  function Request(t: Tables): Tables {
    t.(cancelled := true, requested := true,
       signalled := if t.event.Some? then t.signalled + {t.event.value} else t.signalled)
  }

  /** The `finally` of the bootstrap task. */
  function Finish(t: Tables, c: nat): Tables {
    Unregister(t, c).(requested := false, reserved := false, cancelled := false)
  }

  /** The end of a cancel: the reservation is released whoever holds it, and both flags go. */
  function Release(t: Tables): Tables { t.(reserved := false, requested := false, cancelled := false) }

  predicate Signalled(t: Tables) { t.event.Some? && t.event.value in t.signalled }

  datatype CreatePhase =
    | Entering      // past the first check, nothing reserved yet
    | Registering   // holds the reservation, inside `commit_agent`
    | Bootstrapping // the bootstrap task, up to its last cancellation check
    | GitCommitting // past that check
    | Failing       // an exception is being cleaned up
    | Done          // the task is over, its done-callback is not
    | Untracked
    | Rejected

  datatype CancelPhase = Purging | Probing(absent: nat) | Awaiting(task: nat) | Returned | Raised

  const REQUIRED_ABSENT := 2
  const RUNNING := {Bootstrapping, GitCommitting, Failing}
  const IN_PROGRESS := {Registering} + RUNNING

  /** `latest` remembers the create that registered last; no step reads it. */
  datatype State = State(
    tables: Tables,
    artifacts: bool,
    creates: map<nat, CreatePhase>,
    cancels: map<nat, CancelPhase>,
    latest: Option<nat>)

  datatype Step =
    | Enter(c: nat)
    | Reserve(c: nat)
    | RegisterWrites(c: nat)
    | CommitAborts(c: nat, clean: bool)
    | CommitFails(c: nat, clean: bool)
    | Committed(c: nat)
    | BootWrites(c: nat)
    | BootRaises(c: nat)
    | BootPasses(c: nat)
    | GitEnds(c: nat, ok: bool)
    | CleansUp(c: nat, clean: bool)
    | DoneCallback(c: nat)
    | Disconnects(c: nat)       // the request coroutine is cancelled before a task of its own runs
    | RequestCancel(k: nat)
    | Purged(k: nat, clean: bool)
    | Probe(k: nat, late: bool)
    | Resume(k: nat, timedOut: bool)
    | CancelDisconnects(k: nat) // the cancel's own request coroutine is cancelled
    | TtlExpires

  predicate IsCancelStep(st: Step) {
    st.RequestCancel? || st.Purged? || st.Probe? || st.Resume? || st.CancelDisconnects? || st.TtlExpires?
  }

  predicate At(s: State, c: nat, p: CreatePhase) { c in s.creates && s.creates[c] == p }

  predicate TaskOver(s: State, c: nat) { At(s, c, Done) || At(s, c, Untracked) }

  predicate Enabled(s: State, st: Step) {
    match st
    case Enter(c) => c !in s.creates
    case Reserve(c) => At(s, c, Entering)
    case RegisterWrites(c) => At(s, c, Registering)
    case CommitAborts(c, _) => At(s, c, Registering) && s.tables.cancelled
    case CommitFails(c, _) => At(s, c, Registering)
    case Committed(c) => At(s, c, Registering)
    case BootWrites(c) => At(s, c, Bootstrapping)
    case BootRaises(c) => At(s, c, Bootstrapping)
    case BootPasses(c) => At(s, c, Bootstrapping) && !Signalled(s.tables)
    case GitEnds(c, _) => At(s, c, GitCommitting)
    case CleansUp(c, _) => At(s, c, Failing)
    case DoneCallback(c) => At(s, c, Done)
    case Disconnects(c) => At(s, c, Entering) || At(s, c, Registering)
    case RequestCancel(k) => k !in s.cancels
    case Purged(k, _) => k in s.cancels && s.cancels[k] == Purging
    case Probe(k, _) => k in s.cancels && s.cancels[k].Probing?
    case Resume(k, timedOut) =>
      k in s.cancels && s.cancels[k].Awaiting? && (timedOut || TaskOver(s, s.cancels[k].task))
    case CancelDisconnects(k) => k in s.cancels && s.cancels[k] != Returned && s.cancels[k] != Raised
    case TtlExpires => true
  }

  function Move(s: State, c: nat, p: CreatePhase): State { s.(creates := s.creates[c := p]) }

  function Turn(s: State, k: nat, p: CancelPhase): State { s.(cancels := s.cancels[k := p]) }

  function Return(s: State, k: nat): State { Turn(s, k, Returned).(tables := Release(s.tables)) }

  /** Nothing was found twice in a row: wait for a live tracked task, or finish at once. */
  function AfterProbes(s: State, k: nat): State {
    match s.tables.task
    case Some(c) => if TaskOver(s, c) then Return(s, k) else Turn(s, k, Awaiting(c))
    case None => Return(s, k)
  }

  function Do(s: State, st: Step): State
    requires Enabled(s, st)
  {
    var t := s.tables;
    match st
    case Enter(c) => Move(s, c, if t.requested || t.cancelled then Rejected else Entering)
    case Reserve(c) =>
      var cleared := t.(cancelled := false);
      if t.reserved then Move(s, c, Rejected).(tables := cleared)
      else Move(s, c, Registering).(tables := cleared.(reserved := true))
    case RegisterWrites(c) => s.(artifacts := true)
    case CommitAborts(c, clean) =>
      Move(s, c, Rejected).(tables := t.(cancelled := false, reserved := false), artifacts := s.artifacts && !clean)
    case CommitFails(c, clean) =>
      Move(s, c, Rejected).(tables := t.(reserved := false), artifacts := s.artifacts && !clean)
    case Committed(c) =>
      Move(s, c, Bootstrapping).(tables := Register(t, c).(task := Some(c)), latest := Some(c))
    case BootWrites(c) => s.(artifacts := true)
    case BootRaises(c) => Move(s, c, Failing)
    case BootPasses(c) => Move(s, c, GitCommitting)
    case GitEnds(c, ok) => if ok then Move(s, c, Done).(tables := Finish(t, c)) else Move(s, c, Failing)
    case CleansUp(c, clean) => Move(s, c, Done).(tables := Finish(t, c), artifacts := s.artifacts && !clean)
    case DoneCallback(c) => Move(s, c, Untracked).(tables := Untrack(t, c))
    case Disconnects(c) => Move(s, c, Rejected) // `except Exception` lets the cancellation pass
    case RequestCancel(k) => Turn(s, k, Purging).(tables := Request(t))
    case Purged(k, clean) => Turn(s, k, Probing(0)).(artifacts := s.artifacts && !clean)
    case Probe(k, late) =>
      if s.artifacts then Turn(s, k, if late then Raised else Probing(0))
      else if s.cancels[k].absent + 1 >= REQUIRED_ABSENT then AfterProbes(s, k)
      else Turn(s, k, if late then Raised else Probing(s.cancels[k].absent + 1))
    case Resume(k, _) => Return(s, k)
    case CancelDisconnects(k) => Turn(s, k, Raised)
    case TtlExpires => if t.event.Some? then s else s.(tables := t.(requested := false))
  }

  // ------------------------------------------------------------------ the tables name the latest create

  /** The create whose entry the event table must hold. */
  function Current(s: State, phases: set<CreatePhase>): Option<nat> {
    if s.latest.Some? && s.latest.value in s.creates && s.creates[s.latest.value] in phases then s.latest else None
  }

  /**
   * The event entry is that of the create registered last while it runs, the task entry the same until its
   * done-callback; otherwise they are empty.
   */
  predicate Named(s: State) {
    && s.tables.event == Current(s, RUNNING)
    && s.tables.task == Current(s, RUNNING + {Done})
    && (s.latest.Some? ==> s.latest.value in s.creates && s.creates[s.latest.value] in RUNNING + {Done, Untracked})
  }

  /** No end of an older create, and no cancel, takes away the entries of a newer one. */
  lemma StepKeepsNamed(s: State, st: Step)
    requires Named(s) && Enabled(s, st)
    ensures Named(Do(s, st))
  {
    hide Named, Do;
    if IsCancelStep(st) {
      CancelKeepsNamed(s, st);
    } else {
      CreateKeepsNamed(s, st);
    }
  }

  lemma CancelKeepsNamed(s: State, st: Step)
    requires Named(s) && Enabled(s, st)
    requires IsCancelStep(st)
    ensures Named(Do(s, st))
  {
  }

  lemma CreateKeepsNamed(s: State, st: Step)
    requires Named(s) && Enabled(s, st)
    requires !IsCancelStep(st)
    ensures Named(Do(s, st))
  {
  }
}
