/** Whole histories of upgrades, downgrades and failures of one data directory. */
module UpgradeHistory {
  import opened Options
  import opened Versions
  import opened Upgrade

  datatype RunSpec = RunSpec(reg: Registry, target: Text, works: Works)

  ghost predicate AllUnique(runs: seq<RunSpec>) { forall r | r in runs :: UniqueIds(r.reg) }

  function DirAfter(d: Dir, r: RunSpec): Dir { RunUpgrade(d, r.reg, r.target, r.works).0 }

  function AttemptsOf(d: Dir, r: RunSpec): seq<Attempt> { Attempts(r.reg, Base(d, r.reg), r.works) }

  predicate Clean(d: Dir, r: RunSpec) { !CriticalFailed(AttemptsOf(d, r)) }

  function After(d: Dir, runs: seq<RunSpec>): Dir
    decreases |runs|
  {
    if runs == [] then d else After(DirAfter(d, runs[0]), runs[1..])
  }

  /** Every `apply` call of the history, in order. */
  function Log(d: Dir, runs: seq<RunSpec>): seq<Attempt>
    decreases |runs|
  {
    if runs == [] then [] else AttemptsOf(d, runs[0]) + Log(DirAfter(d, runs[0]), runs[1..])
  }

  // ------------------------------------------------------------------ the ledger

  lemma SettledConcat(a: seq<Attempt>, b: seq<Attempt>)
    ensures Settled(a + b) == Settled(a) + Settled(b)
  {
    assert forall x :: x in a + b <==> x in a || x in b;
  }

  lemma UnionAssoc(a: set<Text>, b: set<Text>, c: set<Text>)
    ensures (a + b) + c == a + (b + c)
  {
  }

  lemma {:induction false} LedgerFrom(d: Dir, runs: seq<RunSpec>)
    requires d.ledger.Some?
    ensures After(d, runs).ledger == Some(d.ledger.value + Settled(Log(d, runs)))
    decreases |runs|
  {
    hide Attempts, Gt;
    if runs == [] {
      assert Settled([]) == {} && d.ledger.value + {} == d.ledger.value;
    } else {
      var d1 := DirAfter(d, runs[0]);
      LedgerFrom(d1, runs[1..]);
      SettledConcat(AttemptsOf(d, runs[0]), Log(d1, runs[1..]));
      UnionAssoc(d.ledger.value, Settled(AttemptsOf(d, runs[0])), Settled(Log(d1, runs[1..])));
    }
  }

  /** The ledger is exactly its first contents plus every id that succeeded or was given up on:
      it only grows, and nothing else gets in. */
  lemma LedgerIs(d: Dir, runs: seq<RunSpec>)
    requires runs != []
    ensures After(d, runs).ledger == Some(Base(d, runs[0].reg) + Settled(Log(d, runs)))
  {
    hide Attempts, Gt;
    var d1 := DirAfter(d, runs[0]);
    LedgerFrom(d1, runs[1..]);
    SettledConcat(AttemptsOf(d, runs[0]), Log(d1, runs[1..]));
    UnionAssoc(Base(d, runs[0].reg), Settled(AttemptsOf(d, runs[0])), Settled(Log(d1, runs[1..])));
  }

  lemma {:induction false} LogFresh(d: Dir, runs: seq<RunSpec>)
    requires d.ledger.Some?
    ensures forall a | a in Log(d, runs) :: a.version !in d.ledger.value
    decreases |runs|
  {
    hide Attempts, Gt;
    if runs != [] {
      var d1 := DirAfter(d, runs[0]);
      AttemptsFresh(runs[0].reg, d.ledger.value, runs[0].works);
      LogFresh(d1, runs[1..]);
    }
  }

  ghost predicate RetriesOnlyFailures(log: seq<Attempt>) {
    forall i, j | 0 <= i < j < |log| && log[i].version == log[j].version :: !log[i].ok && log[i].critical
  }

  lemma JoinRetries(a: seq<Attempt>, b: seq<Attempt>)
    requires DistinctVersions(a) && RetriesOnlyFailures(b)
    requires forall x, y | x in a && y in b && x.version == y.version :: !x.ok && x.critical
    ensures RetriesOnlyFailures(a + b)
  {
    var log := a + b;
    forall i, j | 0 <= i < j < |log| && log[i].version == log[j].version ensures !log[i].ok && log[i].critical {
      if i < |a| && j >= |a| {
        assert log[i] in a && log[j] in b;
      } else if i >= |a| {
        assert log[i] == b[i - |a|] && log[j] == b[j - |a|];
      }
    }
  }

  /** Whatever the targets, registries and failures: an id is attempted again only after a failed
      critical attempt.  So it succeeds at most once, and a failed repair never runs again. */
  lemma {:induction false} OnlyFailedCriticalsRunAgain(d: Dir, runs: seq<RunSpec>)
    requires AllUnique(runs)
    ensures RetriesOnlyFailures(Log(d, runs))
    decreases |runs|
  {
    hide Attempts, Gt;
    if runs != [] {
      var r := runs[0];
      var d1 := DirAfter(d, r);
      var first, rest := AttemptsOf(d, r), Log(d1, runs[1..]);
      assert r in runs && AllUnique(runs[1..]) by { assert forall x | x in runs[1..] :: x in runs; }
      OnlyFailedCriticalsRunAgain(d1, runs[1..]);
      AttemptsDistinct(r.reg, Base(d, r.reg), r.works);
      LogFresh(d1, runs[1..]);
      assert forall x | x in first && Settles(x) :: x.version in Settled(first);
      JoinRetries(first, rest);
    }
  }

  /** Each id is applied successfully at most once in a history. */
  lemma AppliedAtMostOnce(d: Dir, runs: seq<RunSpec>, i: nat, j: nat)
    requires AllUnique(runs) && i < |Log(d, runs)| && j < |Log(d, runs)|
    requires Log(d, runs)[i].version == Log(d, runs)[j].version
    requires Log(d, runs)[i].ok && Log(d, runs)[j].ok
    ensures i == j
  {
    hide Attempts, Gt;
    OnlyFailedCriticalsRunAgain(d, runs);
  }

  /** A migration whose id was neither in the ledger at first nor settled since is tried by the next
      run that registers it: a failed critical one is retried until it succeeds. */
  lemma UnsettledIsRetried(d: Dir, runs: seq<RunSpec>, r: RunSpec, m: Migration)
    requires runs != [] && UniqueIds(r.reg) && m in r.reg
    requires m.version !in Base(d, runs[0].reg)
    requires forall a | a in Log(d, runs) && a.version == m.version :: !Settles(a)
    ensures AttemptOf(m, r.works) in AttemptsOf(After(d, runs), r)
  {
    hide Attempts, Gt;
    LedgerIs(d, runs);
    AttemptsAll(r.reg, Base(After(d, runs), r.reg), r.works);
  }

  // ------------------------------------------------------------------ the marker

  function CleanTargets(d: Dir, runs: seq<RunSpec>): set<Option<Text>>
    decreases |runs|
  {
    if runs == [] then {}
    else (if Clean(d, runs[0]) then {Some(runs[0].target)} else {}) + CleanTargets(DirAfter(d, runs[0]), runs[1..])
  }

  ghost predicate IsMaximum(m: Option<Text>, s: set<Option<Text>>) {
    m in s && forall c | c in s :: !Gt(c, m)
  }

  lemma OneRunMarker(d: Dir, r: RunSpec)
    ensures IsMaximum(DirAfter(d, r).marker, {d.marker} + (if Clean(d, r) then {Some(r.target)} else {}))
  {
    hide Attempts, Key;
    GtIsStrictOrder(d.marker, Some(r.target), d.marker);
    GtIsStrictOrder(Some(r.target), d.marker, d.marker);
  }

  lemma MaximumOfUnion(a: Option<Text>, s: set<Option<Text>>, b: Option<Text>, t: set<Option<Text>>)
    requires IsMaximum(a, s) && IsMaximum(b, {a} + t)
    ensures IsMaximum(b, s + t)
  {
    hide Key;
    forall c | c in s + t ensures !Gt(c, b) {
      if c in s { GtIsStrictOrder(c, a, b); }
    }
  }

  /** The marker is the maximum, in version order, of its first value and the targets of
      the runs without a critical failure: it never moves backward. */
  lemma {:induction false} MarkerIsHighWatermark(d: Dir, runs: seq<RunSpec>)
    ensures IsMaximum(After(d, runs).marker, {d.marker} + CleanTargets(d, runs))
    decreases |runs|
  {
    hide Attempts, Key, DirAfter, Clean;
    if runs == [] {
      GtIsStrictOrder(d.marker, d.marker, d.marker);
    } else {
      var d1 := DirAfter(d, runs[0]);
      var s := {d.marker} + (if Clean(d, runs[0]) then {Some(runs[0].target)} else {});
      OneRunMarker(d, runs[0]);
      MarkerIsHighWatermark(d1, runs[1..]);
      MaximumOfUnion(d1.marker, s, After(d, runs).marker, CleanTargets(d1, runs[1..]));
      assert s + CleanTargets(d1, runs[1..]) == {d.marker} + CleanTargets(d, runs);
    }
  }

  lemma {:induction false} NothingPending(reg: Registry, applied: set<Text>, works: Works)
    requires forall m | m in reg :: m.version in applied
    ensures Attempts(reg, applied, works) == []
  {
    if reg != [] {
      assert reg[0] in reg && forall m | m in reg[1..] :: m in reg;
      NothingPending(reg[1..], applied, works);
    }
  }

  /** A run without critical failure puts every registered id into the ledger; afterwards
      `needs_upgrade` is false and repeating the run calls nothing and changes nothing. */
  lemma CleanRunIsComplete(d: Dir, r: RunSpec, again: Works)
    requires UniqueIds(r.reg) && Clean(d, r)
    ensures var d1 := DirAfter(d, r);
      && (forall m | m in r.reg :: m.version in d1.ledger.value)
      && !NeedsUpgrade(d1, r.target)
      && RunUpgrade(d1, r.reg, r.target, again) == (d1, Report([], true, false))
  {
    hide Attempts, Key;
    var d1 := DirAfter(d, r);
    AttemptsAll(r.reg, Base(d, r.reg), r.works);
    forall m | m in r.reg ensures m.version in d1.ledger.value {
      if m.version !in Base(d, r.reg) {
        assert AttemptOf(m, r.works) in AttemptsOf(d, r);
      }
    }
    GtIsStrictOrder(Some(r.target), d.marker, d.marker);
    GtIsStrictOrder(Some(r.target), Some(r.target), d.marker);
    NothingPending(r.reg, d1.ledger.value, again);
    assert Settled([]) == {} && d1.ledger.value + {} == d1.ledger.value;
  }

  /** The marker advances only in runs after which every registered id is in the ledger. */
  lemma AdvanceMeansComplete(d: Dir, r: RunSpec)
    requires UniqueIds(r.reg) && DirAfter(d, r).marker != d.marker
    ensures DirAfter(d, r).marker == Some(r.target) && Gt(Some(r.target), d.marker)
    ensures forall m | m in r.reg :: m.version in DirAfter(d, r).ledger.value
  {
    hide Attempts, Key;
    CleanRunIsComplete(d, r, r.works);
  }

  // ------------------------------------------------------------------ seeding from the legacy marker

  function Pick(reg: Registry, p: Migration -> bool): Registry {
    if reg == [] then [] else (if p(reg[0]) then [reg[0]] else []) + Pick(reg[1..], p)
  }

  lemma {:induction false} PickMonotone(reg: Registry, p: Migration -> bool, q: Migration -> bool)
    requires forall m | m in reg :: q(m) ==> p(m)
    ensures |Pick(reg, q)| <= |Pick(reg, p)|
    ensures Pick(reg, p) == Pick(reg, q) <==> forall m | m in reg :: p(m) <==> q(m)
    ensures |Pick(reg, q)| == |Pick(reg, p)| ==> Pick(reg, p) == Pick(reg, q)
  {
    if reg != [] {
      assert reg[0] in reg && forall m | m in reg[1..] :: m in reg;
      assert forall m | m in reg :: m == reg[0] || m in reg[1..];
      PickMonotone(reg[1..], p, q);
      if p(reg[0]) && !q(reg[0]) {
        assert |Pick(reg, p)| > |Pick(reg, q)|;
      }
    }
  }

  function NotIn(applied: set<Text>): Migration -> bool { (m: Migration) => m.version !in applied }

  function OldGate(marker: Option<Text>): Migration -> bool { (m: Migration) => Applies(m, marker) }

  /** `applies_after` is the only difference between the gates. */
  predicate TooEarly(m: Migration, marker: Option<Text>) {
    marker.Some? && Gt(Some(m.version), marker) && m.appliesAfter.Some? && Gt(m.appliesAfter, marker)
  }

  /** After seeding from a marker, the ledger gate passes exactly the migrations that the old
      marker gate passed, in the same order, if and only if none is held back by `applies_after`. */
  lemma SeedingMatchesOldGateIff(reg: Registry, marker: Option<Text>)
    ensures Pick(reg, NotIn(Seed(reg, marker))) == Pick(reg, OldGate(marker))
       <==> forall m | m in reg :: !TooEarly(m, marker)
  {
    hide Gt;
    forall m | m in reg
      ensures m.version !in Seed(reg, marker) <==> (marker == None || Gt(Some(m.version), marker))
    {
    }
    PickMonotone(reg, NotIn(Seed(reg, marker)), OldGate(marker));
  }

  function Release(minor: nat): Text { Text(Show(Version(0, minor, 0, Final)), Version(0, minor, 0, Final)) }

  /** From marker 0.1.0 the ledger gate runs a migration 0.2.0 that `applies_after` 0.3.0 held back. */
  lemma SeedingRunsHeldBackMigration()
    ensures var m := Migration(Release(2), Some(Release(3)), true);
      var marker := Some(Release(1));
      Pick([m], NotIn(Seed([m], marker))) == [m] && Pick([m], OldGate(marker)) == []
  {
    hide Show;
    var m := Migration(Release(2), Some(Release(3)), true);
    GtIsPep440(Release(2), Release(1));
    GtIsPep440(Release(3), Release(1));
    assert m in [m] && [m][1..] == [];
  }

  lemma {:induction false} PickSame(reg: Registry, p: Migration -> bool, q: Migration -> bool)
    requires forall m | m in reg :: p(m) <==> q(m)
    ensures Pick(reg, p) == Pick(reg, q)
  {
    PickMonotone(reg, p, q);
  }

  ghost predicate Follows(attempts: seq<Attempt>, picked: Registry, works: Works) {
    |attempts| == |picked| && forall i | 0 <= i < |picked| :: attempts[i] == AttemptOf(picked[i], works)
  }

  /** A run calls `apply` for exactly the migrations that the gate passes, in registry order. */
  lemma {:induction false} AttemptsFollowGate(reg: Registry, applied: set<Text>, works: Works)
    requires UniqueIds(reg)
    ensures Follows(Attempts(reg, applied, works), Pick(reg, NotIn(applied)), works)
  {
    if reg != [] {
      var next := AfterMigration(applied, reg[0], works);
      AttemptsCons(reg, applied, works);
      AttemptsFollowGate(reg[1..], next, works);
      forall m | m in reg[1..] ensures NotIn(applied)(m) <==> NotIn(next)(m) {
        assert m.version != reg[0].version;
      }
      PickSame(reg[1..], NotIn(applied), NotIn(next));
    }
  }
}
