/** What one upgrade leaves behind and when one is due, in terms of the ledger, the marker and the version order. */
module UpgradeOutcome {
  import opened Options
  import opened Versions
  import opened Upgrade
  import opened UpgradeHistory
  import opened UpgradeCrash

  /** The version order on markers: no marker comes before every version. */
  ghost predicate Newer(a: Option<Text>, b: Option<Text>) {
    a.Some? && (b == None || Before(b.value.version, a.value.version))
  }

  lemma GtIsNewer(a: Option<Text>, b: Option<Text>)
    ensures Gt(a, b) <==> Newer(a, b)
  {
    hide Key, Before;
    if a.Some? && b.Some? { GtIsPep440(a.value, b.value); }
  }

  // ------------------------------------------------------------------ when an upgrade is due

  /** An upgrade is due exactly if a run without a critical failure would move the marker: there is none, or it is
      before the target. */
  lemma NeededIffMarkerMoves(d: Dir, r: RunSpec)
    requires UniqueIds(r.reg) && Clean(d, r)
    ensures NeedsUpgrade(d, r.target) <==> DirAfter(d, r).marker != d.marker
    ensures NeedsUpgrade(d, r.target) <==> d.marker == None || Before(d.marker.value.version, r.target.version)
  {
    hide Attempts, Key, Before;
    GtIsNewer(Some(r.target), d.marker);
    GtIsStrictOrder(Some(r.target), d.marker, d.marker);
  }

  /** Over whole histories: an upgrade to `t` is due exactly if neither the marker at first nor the target of a run
      without a critical failure has reached `t`. */
  lemma NeededIffNotReached(d: Dir, runs: seq<RunSpec>, t: Text)
    ensures NeedsUpgrade(After(d, runs), t)
       <==> forall c | c in {d.marker} + CleanTargets(d, runs) :: c == None || Before(c.value.version, t.version)
  {
    hide After, CleanTargets, Gt, Before;
    var m, s := After(d, runs).marker, {d.marker} + CleanTargets(d, runs);
    MarkerIsHighWatermark(d, runs);
    GtIsNewer(Some(t), m);
    forall c | c in s ensures Gt(Some(t), m) ==> c == None || Before(c.value.version, t.version) {
      GtIsNewer(Some(t), c);
      GtIsStrictOrder(Some(t), c, m);
    }
  }

  // ------------------------------------------------------------------ what is pending

  /** The ledger a run starts from: the stored one, or the registered ids that the marker has reached. */
  lemma BaseIs(d: Dir, reg: Registry, v: Text)
    ensures v in Base(d, reg) <==>
      if d.ledger.Some? then v in d.ledger.value
      else d.marker.Some? && (exists m | m in reg :: m.version == v) && !Before(d.marker.value.version, v.version)
  {
    hide Key, Before;
    GtIsNewer(Some(v), d.marker);
    if v in Base(d, reg) && d.ledger == None { var m :| m in reg && m.version == v; }
    if m :| m in reg && m.version == v { assert Gt(Some(m.version), d.marker) <==> Gt(Some(v), d.marker); }
  }

  /** The gate of the old scheme: after the marker, and not held back by `applies_after`. */
  lemma AppliesIff(m: Migration, marker: Option<Text>)
    ensures Applies(m, marker) <==>
      marker == None || (Before(marker.value.version, m.version.version)
                         && (m.appliesAfter == None || !Before(marker.value.version, m.appliesAfter.value.version)))
  {
    hide Key, Before;
    GtIsNewer(Some(m.version), marker);
    GtIsNewer(m.appliesAfter, marker);
  }

  // ------------------------------------------------------------------ what a run leaves behind

  /** The fate of one migration: tried exactly if its id was not in the ledger, and in the ledger afterwards exactly if
      it was there, succeeded, or was not critical. */
  lemma FateOfMigration(d: Dir, r: RunSpec, m: Migration)
    requires UniqueIds(r.reg) && m in r.reg
    ensures var out := RunUpgrade(d, r.reg, r.target, r.works);
      && (Attempt(m.version, r.works(m.version), m.critical) in out.1.attempts <==> m.version !in Base(d, r.reg))
      && out.0.ledger.Some?
      && (m.version in out.0.ledger.value <==> m.version in Base(d, r.reg) || r.works(m.version) || !m.critical)
  {
    hide Attempts, Gt, Base;
    var base := Base(d, r.reg);
    var attempts := Attempts(r.reg, base, r.works);
    AttemptsAll(r.reg, base, r.works);
    AttemptsFresh(r.reg, base, r.works);
    if m.version in Settled(attempts) {
      var a :| a in attempts && Settles(a) && a.version == m.version;
      var n :| n in r.reg && a == AttemptOf(n, r.works);
      SameEntry(r.reg, m, n);
    }
  }

  lemma SameEntry(reg: Registry, m: Migration, n: Migration)
    requires UniqueIds(reg) && m in reg && n in reg && m.version == n.version
    ensures m == n
  {
  }

  /** Nothing but registered ids gets into the ledger. */
  lemma OnlyRegisteredIds(d: Dir, r: RunSpec, v: Text)
    requires forall m | m in r.reg :: m.version != v
    ensures DirAfter(d, r).ledger.Some? && (v in DirAfter(d, r).ledger.value <==> v in Base(d, r.reg))
  {
    hide Attempts, Gt, Base;
    AttemptsFresh(r.reg, Base(d, r.reg), r.works);
  }

  /** A critical migration that is pending and fails, and nothing else, keeps a run from being clean; a clean run moves
      the marker exactly if the target is newer, and otherwise the marker stays. */
  lemma OutcomeOfRun(d: Dir, r: RunSpec)
    requires UniqueIds(r.reg)
    ensures var out := RunUpgrade(d, r.reg, r.target, r.works);
      && (out.1.clean <==>
            forall m | m in r.reg && m.version !in Base(d, r.reg) :: r.works(m.version) || !m.critical)
      && (out.1.markerWritten <==> out.1.clean && Newer(Some(r.target), d.marker))
      && (out.1.markerWritten ==> out.0.marker == Some(r.target))
      && (!out.1.markerWritten ==> out.0.marker == d.marker)
  {
    hide Attempts, Key, Before, Base;
    var base := Base(d, r.reg);
    var attempts := Attempts(r.reg, base, r.works);
    GtIsNewer(Some(r.target), d.marker);
    AttemptsAll(r.reg, base, r.works);
    AttemptsFresh(r.reg, base, r.works);
    if CriticalFailed(attempts) {
      var a :| a in attempts && !Settles(a);
      var m :| m in r.reg && a == AttemptOf(m, r.works);
    }
    if m :| m in r.reg && m.version !in base && !r.works(m.version) && m.critical {
      assert AttemptOf(m, r.works) in attempts && !Settles(AttemptOf(m, r.works));
    }
  }

  // ------------------------------------------------------------------ crashes

  /** Without a ledger the seed is one more write: the run completes, with the ledger of an uninterrupted run. */
  lemma FirstRunCompletes<D(!new)>(data: D, reg: Registry, marker: Option<Text>, effect: Effects<D>)
    requires UniqueIds(reg)
    ensures var base := Base(Dir(marker, None), reg);
      var q := Run(Process(data, None, false), seq(1 + 2 * |Pending(reg, base)|, _ => Write), reg, marker, effect);
      Completed(q, reg) && q.ledger == Some(base + Ids(Pending(reg, base)))
  {
    hide Seed;
    var base := Base(Dir(marker, None), reg);
    var p := Process(data, Some(base), false);
    var n := 2 * |Pending(reg, base)|;
    var events := seq(1 + n, _ => Write);
    assert events[0] == Write && events[1..] == seq(n, _ => Write);
    assert Next(Process(data, None, false), Write, reg, marker, effect) == p;
    WritesComplete(p, reg, marker, effect);
  }

  /** A crash between the effect and the ledger write makes the next run apply the migration once more, to data that has
      its effect already: this is what idempotence is asked for. */
  lemma CrashAppliesTwice<D>(p: Process<D>, reg: Registry, marker: Option<Text>, effect: Effects<D>)
    requires p.ledger.Some? && !p.started && Pending(reg, p.ledger.value) != []
    ensures var id := Pending(reg, p.ledger.value)[0].version;
      var q := Run(p, [Write, Crash, Write, Write], reg, marker, effect);
      q == Process(effect(id, effect(id, p.data)), Some(p.ledger.value + {id}), false)
  {
    hide Gt, Seed, Pending;
    var p1 := Next(p, Write, reg, marker, effect);
    var p2 := Next(p1, Crash, reg, marker, effect);
    var p3 := Next(p2, Write, reg, marker, effect);
    assert [Write, Crash, Write, Write][1..] == [Crash, Write, Write];
    assert [Crash, Write, Write][1..] == [Write, Write] && [Write, Write][1..] == [Write] && [Write][1..] == [];
    assert Run(p3, [Write], reg, marker, effect) == Next(p3, Write, reg, marker, effect);
    assert Run(p2, [Write, Write], reg, marker, effect) == Run(p3, [Write], reg, marker, effect);
  }
}
