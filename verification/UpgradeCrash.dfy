/** `run_upgrade` interrupted at any point, for migrations that never fail.

    A process repeats two writes per migration, its effect and then the ledger;
    a crash forgets only that the effect of the next migration was already done. */
module UpgradeCrash {
  import opened Options
  import opened Versions
  import opened Upgrade
  import opened UpgradeHistory

  /** `started` means that the effect of the next pending migration is in `data` already. */
  datatype Process<D> = Process(data: D, ledger: Option<set<Text>>, started: bool)

  datatype Event = Write | Crash

  type Effects<!D> = (Text, D) -> D

  function Pending(reg: Registry, applied: set<Text>): Registry { Pick(reg, NotIn(applied)) }

  /** The next atomic write of a run over `reg` that starts from `marker`. */
  function Next<D>(p: Process<D>, e: Event, reg: Registry, marker: Option<Text>, effect: Effects<D>): Process<D> {
    match e
    case Crash => p.(started := false)
    case Write =>
      match p.ledger
      case None => p.(ledger := Some(Seed(reg, marker)))
      case Some(applied) =>
        var todo := Pending(reg, applied);
        if todo == [] then p
        else if !p.started then p.(data := effect(todo[0].version, p.data), started := true)
        else p.(ledger := Some(applied + {todo[0].version}), started := false)
  }

  function Run<D>(p: Process<D>, events: seq<Event>, reg: Registry, marker: Option<Text>, effect: Effects<D>)
    : Process<D>
    decreases |events|
  {
    if events == [] then p else Run(Next(p, events[0], reg, marker, effect), events[1..], reg, marker, effect)
  }

  /** The effects of the migrations, once each and in order. */
  function Fold<D>(todo: Registry, data: D, effect: Effects<D>): D
    decreases |todo|
  {
    if todo == [] then data else Fold(todo[1..], effect(todo[0].version, data), effect)
  }

  ghost predicate Idempotent<D(!new)>(effect: Effects<D>) {
    forall id, d :: effect(id, effect(id, d)) == effect(id, d)
  }

  /** The data still to be reached from here is the data that the whole fold reaches. */
  ghost predicate OnCourse<D>(p: Process<D>, reg: Registry, base: set<Text>, goal: D, effect: Effects<D>) {
    var applied := if p.ledger.Some? then p.ledger.value else base;
    && (p.started ==> p.ledger.Some? && Pending(reg, applied) != [])
    && Fold(if p.started then Pending(reg, applied)[1..] else Pending(reg, applied), p.data, effect) == goal
  }

  lemma {:induction false} PendingTail(reg: Registry, applied: set<Text>)
    requires UniqueIds(reg) && Pending(reg, applied) != []
    ensures Pending(reg, applied + {Pending(reg, applied)[0].version}) == Pending(reg, applied)[1..]
  {
    var id := Pending(reg, applied)[0].version;
    if reg[0].version in applied {
      PendingTail(reg[1..], applied);
    } else {
      forall m | m in reg[1..] ensures NotIn(applied)(m) <==> NotIn(applied + {id})(m) {
        assert m.version != id;
      }
      PickSame(reg[1..], NotIn(applied), NotIn(applied + {id}));
    }
  }

  lemma NextOnCourse<D(!new)>(p: Process<D>, e: Event, reg: Registry, marker: Option<Text>, effect: Effects<D>,
                              base: set<Text>, goal: D)
    requires UniqueIds(reg) && Idempotent(effect)
    requires p.ledger == None ==> base == Seed(reg, marker)
    requires OnCourse(p, reg, base, goal, effect)
    requires p.started ==> Redone(p, reg, effect)
    ensures var q := Next(p, e, reg, marker, effect);
      OnCourse(q, reg, base, goal, effect) && (q.started ==> Redone(q, reg, effect))
      && (p.ledger.Some? ==> q.ledger.Some?)
  {
    hide Gt;
    if p.ledger.Some? {
      var todo := Pending(reg, p.ledger.value);
      if p.started { PendingTail(reg, p.ledger.value); }
    }
  }

  /** The data already contains the effect of the next pending migration. */
  ghost predicate Redone<D>(p: Process<D>, reg: Registry, effect: Effects<D>) {
    p.ledger.Some? && Pending(reg, p.ledger.value) != []
    && effect(Pending(reg, p.ledger.value)[0].version, p.data) == p.data
  }

  lemma {:induction false} RunOnCourse<D(!new)>(p: Process<D>, events: seq<Event>, reg: Registry, marker: Option<Text>,
                                                effect: Effects<D>, base: set<Text>, goal: D)
    requires UniqueIds(reg) && Idempotent(effect)
    requires p.ledger == None ==> base == Seed(reg, marker)
    requires OnCourse(p, reg, base, goal, effect) && (p.started ==> Redone(p, reg, effect))
    ensures OnCourse(Run(p, events, reg, marker, effect), reg, base, goal, effect)
    decreases |events|
  {
    hide OnCourse, Redone, Idempotent, Next;
    if events != [] {
      NextOnCourse(p, events[0], reg, marker, effect, base, goal);
      RunOnCourse(Next(p, events[0], reg, marker, effect), events[1..], reg, marker, effect, base, goal);
    }
  }

  /** A run is over when nothing is pending in a written ledger. */
  ghost predicate Completed<D>(p: Process<D>, reg: Registry) {
    p.ledger.Some? && Pending(reg, p.ledger.value) == []
  }

  /** However often the process crashed, between any two writes, once a run completes the data is what
      the migrations pending at first produce when each is applied once, in registry order. */
  lemma CrashesDoNotShow<D(!new)>(data: D, ledger: Option<set<Text>>, events: seq<Event>,
                                  reg: Registry, marker: Option<Text>, effect: Effects<D>)
    requires UniqueIds(reg) && Idempotent(effect)
    requires Completed(Run(Process(data, ledger, false), events, reg, marker, effect), reg)
    ensures Run(Process(data, ledger, false), events, reg, marker, effect).data
         == Fold(Pending(reg, Base(Dir(marker, ledger), reg)), data, effect)
  {
    hide Seed;
    var base := Base(Dir(marker, ledger), reg);
    RunOnCourse(Process(data, ledger, false), events, reg, marker, effect, base,
                Fold(Pending(reg, base), data, effect));
  }

  // ------------------------------------------------------------------ progress, and the link to the loop

  /** Two writes per pending migration complete the run, and leave the ledger of an uninterrupted run. */
  lemma {:induction false} WritesComplete<D(!new)>(
    p: Process<D>, reg: Registry, marker: Option<Text>, effect: Effects<D>)
    requires UniqueIds(reg) && p.ledger.Some? && !p.started
    ensures var n := 2 * |Pending(reg, p.ledger.value)|;
      var q := Run(p, seq(n, _ => Write), reg, marker, effect);
      Completed(q, reg) && q.ledger == Some(p.ledger.value + Ids(Pending(reg, p.ledger.value)))
    decreases |Pending(reg, p.ledger.value)|
  {
    var todo := Pending(reg, p.ledger.value);
    if todo != [] {
      PendingTail(reg, p.ledger.value);
      var p1 := Next(p, Write, reg, marker, effect);
      var p2 := Next(p1, Write, reg, marker, effect);
      var events := seq(2 * |todo|, _ => Write);
      assert events[1..][1..] == seq(2 * |todo[1..]|, _ => Write);
      WritesComplete(p2, reg, marker, effect);
      IdsCons(todo);
      assert Run(p, events, reg, marker, effect) == Run(p1, events[1..], reg, marker, effect)
          == Run(p2, events[1..][1..], reg, marker, effect);
      assert p.ledger.value + {todo[0].version} + Ids(todo[1..]) == p.ledger.value + Ids(todo);
    } else {
      assert p.ledger.value + Ids(todo) == p.ledger.value;
    }
  }

  function Ids(todo: Registry): set<Text> { set m | m in todo :: m.version }

  lemma IdsCons(todo: Registry)
    requires todo != []
    ensures Ids(todo) == {todo[0].version} + Ids(todo[1..])
  {
    assert forall m :: m in todo <==> m == todo[0] || m in todo[1..];
  }

  /** The ledger that the writes leave is the one that `run_upgrade` leaves when nothing fails. */
  lemma SameLedgerAsRun(d: Dir, reg: Registry, target: Text, works: Works)
    requires UniqueIds(reg) && forall id: Text :: works(id)
    ensures RunUpgrade(d, reg, target, works).0.ledger == Some(Base(d, reg) + Ids(Pending(reg, Base(d, reg))))
  {
    hide Gt, Seed;
    var base := Base(d, reg);
    AttemptsFollowGate(reg, base, works);
    FollowsSettles(Attempts(reg, base, works), Pending(reg, base), works);
  }

  lemma FollowsSettles(attempts: seq<Attempt>, todo: Registry, works: Works)
    requires Follows(attempts, todo, works) && forall id: Text :: works(id)
    ensures Settled(attempts) == Ids(todo)
  {
    forall id | id in Ids(todo) ensures id in Settled(attempts) {
      var i :| 0 <= i < |todo| && todo[i].version == id;
      assert attempts[i] == AttemptOf(todo[i], works) && attempts[i] in attempts;
    }
    forall id | id in Settled(attempts) ensures id in Ids(todo) {
      var i :| 0 <= i < |attempts| && attempts[i].version == id;
      assert attempts[i] == AttemptOf(todo[i], works) && todo[i] in todo;
    }
  }
}
