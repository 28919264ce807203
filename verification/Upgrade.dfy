/** The migration ledger and the version marker of `run_upgrade`. */
module Upgrade {
  import opened Options
  import opened Versions

  datatype Migration = Migration(version: Text, appliesAfter: Option<Text>, critical: bool)

  type Registry = seq<Migration>

  /** What the data directory remembers between runs. */
  datatype Dir = Dir(marker: Option<Text>, ledger: Option<set<Text>>)

  /** One call of `m.apply` and whether it returned. */
  datatype Attempt = Attempt(version: Text, ok: bool, critical: bool)

  datatype Report = Report(attempts: seq<Attempt>, clean: bool, markerWritten: bool)

  /** Which migrations' `apply` returns normally in this run. */
  type Works = Text -> bool

  // ------------------------------------------------------------------ pure parts

  predicate UniqueIds(reg: Registry) {
    forall i, j | 0 <= i < j < |reg| :: reg[i].version != reg[j].version
  }

  /** `_seed_applied_from_marker` */
  function Seed(reg: Registry, marker: Option<Text>): set<Text> {
    if marker == None then {} else set m | m in reg && !Gt(Some(m.version), marker) :: m.version
  }

  /** `_applies`, the gate of the marker-only scheme. */
  predicate Applies(m: Migration, marker: Option<Text>) {
    if marker.Some? && !Gt(Some(m.version), marker) then false
    else if marker.Some? && m.appliesAfter.Some? && Gt(m.appliesAfter, marker) then false
    else true
  }

  /** The ledger that a run starts its loop with. */
  function Base(d: Dir, reg: Registry): set<Text> {
    match d.ledger case Some(s) => s case None => Seed(reg, d.marker)
  }

  predicate Settles(a: Attempt) { a.ok || !a.critical }

  /** The migration loop, as the list of the `apply` calls it makes. */
  function Attempts(reg: Registry, applied: set<Text>, works: Works): seq<Attempt> {
    if reg == [] then []
    else
      var m := reg[0];
      if m.version in applied then Attempts(reg[1..], applied, works)
      else
        var a := Attempt(m.version, works(m.version), m.critical);
        [a] + Attempts(reg[1..], if Settles(a) then applied + {m.version} else applied, works)
  }

  /** Ids that the attempts put into the ledger. */
  function Settled(attempts: seq<Attempt>): set<Text> {
    set a | a in attempts && Settles(a) :: a.version
  }

  predicate CriticalFailed(attempts: seq<Attempt>) {
    exists a | a in attempts :: !Settles(a)
  }

  /** `run_upgrade` from the uniqueness check to the marker step. */
  function RunUpgrade(d: Dir, reg: Registry, target: Text, works: Works): (Dir, Report) {
    var attempts := Attempts(reg, Base(d, reg), works);
    var clean := !CriticalFailed(attempts);
    var advance := clean && Gt(Some(target), d.marker);
    (Dir(if advance then Some(target) else d.marker, Some(Base(d, reg) + Settled(attempts))),
     Report(attempts, clean, advance))
  }

  /** `needs_upgrade` when the data directory exists. */
  predicate NeedsUpgrade(d: Dir, target: Text) {
    d.marker == None || Gt(Some(target), d.marker)
  }

  // ------------------------------------------------------------------ the loop in place

  function AttemptOf(m: Migration, works: Works): Attempt { Attempt(m.version, works(m.version), m.critical) }

  function AfterMigration(applied: set<Text>, m: Migration, works: Works): set<Text> {
    if m.version !in applied && Settles(AttemptOf(m, works)) then applied + {m.version} else applied
  }

  /** One iteration of the loop. */
  lemma AttemptsCons(reg: Registry, applied: set<Text>, works: Works)
    requires reg != []
    ensures Attempts(reg, applied, works)
         == (if reg[0].version in applied then [] else [AttemptOf(reg[0], works)])
            + Attempts(reg[1..], AfterMigration(applied, reg[0], works), works)
  {
  }

  /** Only ids that are not in the ledger are attempted, each through its registry entry. */
  lemma {:induction false} AttemptsFresh(reg: Registry, applied: set<Text>, works: Works)
    ensures forall a | a in Attempts(reg, applied, works) ::
      a.version !in applied && exists m | m in reg :: a == AttemptOf(m, works)
  {
    if reg != [] {
      var next := AfterMigration(applied, reg[0], works);
      AttemptsCons(reg, applied, works);
      AttemptsFresh(reg[1..], next, works);
      forall a | a in Attempts(reg, applied, works)
        ensures a.version !in applied && exists m | m in reg :: a == AttemptOf(m, works)
      {
        if a in Attempts(reg[1..], next, works) {
          var m :| m in reg[1..] && a == AttemptOf(m, works);
          assert m in reg;
        } else {
          assert a == AttemptOf(reg[0], works) && reg[0] in reg;
        }
      }
    }
  }

  /** Every registry entry whose id is not in the ledger is attempted. */
  lemma {:induction false} AttemptsAll(reg: Registry, applied: set<Text>, works: Works)
    requires UniqueIds(reg)
    ensures forall m | m in reg && m.version !in applied :: AttemptOf(m, works) in Attempts(reg, applied, works)
  {
    if reg != [] {
      var next := AfterMigration(applied, reg[0], works);
      AttemptsCons(reg, applied, works);
      AttemptsAll(reg[1..], next, works);
      forall m | m in reg && m.version !in applied ensures AttemptOf(m, works) in Attempts(reg, applied, works) {
        if m != reg[0] { assert m in reg[1..] && m.version != reg[0].version; }
      }
    }
  }

  ghost predicate DistinctVersions(attempts: seq<Attempt>) {
    forall i, j | 0 <= i < j < |attempts| :: attempts[i].version != attempts[j].version
  }

  /** One run attempts an id at most once. */
  lemma {:induction false} AttemptsDistinct(reg: Registry, applied: set<Text>, works: Works)
    requires UniqueIds(reg)
    ensures DistinctVersions(Attempts(reg, applied, works))
  {
    if reg != [] {
      var next := AfterMigration(applied, reg[0], works);
      var rest := Attempts(reg[1..], next, works);
      AttemptsCons(reg, applied, works);
      AttemptsDistinct(reg[1..], next, works);
      AttemptsFresh(reg[1..], next, works);
      forall a | a in rest ensures a.version != reg[0].version {
        var m :| m in reg[1..] && a == AttemptOf(m, works);
      }
      assert forall i | 0 <= i < |rest| :: rest[i] in rest;
    }
  }

  class DataDir {
    var marker: Option<Text>
    var ledger: Option<set<Text>>

    ghost function Now(): Dir
      reads this
    {
      Dir(marker, ledger)
    }

    constructor (marker: Option<Text>, ledger: Option<set<Text>>)
      ensures Now() == Dir(marker, ledger)
    {
      this.marker, this.ledger := marker, ledger;
    }

    /** `None` stands for the `ValueError` of the uniqueness check, which leaves the directory alone. */
    method Run(reg: Registry, target: Text, works: Works) returns (report: Option<Report>)
      modifies this
      ensures report == None <==> !UniqueIds(reg)
      ensures report == None ==> Now() == old(Now())
      ensures report.Some? ==> (Now(), report.value) == RunUpgrade(old(Now()), reg, target, works)
    {
      if exists i, j | 0 <= i < j < |reg| :: reg[i].version == reg[j].version {
        return None;
      }
      if ledger == None {
        ledger := Some(Seed(reg, marker));
      }
      var attempts, criticalFailed := Migrate(reg, works);
      var written := false;
      if !criticalFailed {
        if Gt(Some(target), marker) {
          marker := Some(target);
          written := true;
        }
      }
      return Some(Report(attempts, !criticalFailed, written));
    }

    /** The loop over the registry, recording each id as soon as it is settled. */
    method Migrate(reg: Registry, works: Works) returns (attempts: seq<Attempt>, criticalFailed: bool)
      requires ledger.Some?
      modifies this`ledger
      ensures attempts == Attempts(reg, old(ledger.value), works)
      ensures ledger == Some(old(ledger.value) + Settled(attempts))
      ensures criticalFailed <==> CriticalFailed(attempts)
    {
      hide Attempts, Settled, CriticalFailed;
      var applied := ledger.value;
      criticalFailed, attempts := false, [];
      NothingAttempted(reg, applied, works);
      for k := 0 to |reg|
        invariant attempts + Attempts(reg[k..], applied, works) == Attempts(reg, old(ledger.value), works)
        invariant applied == old(ledger.value) + Settled(attempts)
        invariant criticalFailed <==> CriticalFailed(attempts)
        invariant ledger == Some(applied)
      {
        var m := reg[k];
        AttemptsCons(reg[k..], applied, works);
        assert reg[k..][1..] == reg[k + 1..];
        if m.version !in applied {
          var a := AttemptOf(m, works);
          SettledSnoc(attempts, a);
          attempts := attempts + [a];
          if a.ok {
            applied := applied + {m.version};
            ledger := Some(applied);
          } else if m.critical {
            criticalFailed := true;
          } else {
            applied := applied + {m.version};
            ledger := Some(applied);
          }
        }
      }
    }
  }

  lemma NothingAttempted(reg: Registry, applied: set<Text>, works: Works)
    ensures [] + Attempts(reg, applied, works) == Attempts(reg, applied, works) && reg[0..] == reg
    ensures Settled([]) == {} && !CriticalFailed([])
    ensures forall later :: Attempts([], later, works) == []
  {
  }

  lemma SettledSnoc(attempts: seq<Attempt>, a: Attempt)
    ensures Settled(attempts + [a]) == Settled(attempts) + (if Settles(a) then {a.version} else {})
    ensures CriticalFailed(attempts + [a]) <==> CriticalFailed(attempts) || !Settles(a)
  {
    assert forall b :: b in attempts + [a] <==> b in attempts || b == a;
  }
}
