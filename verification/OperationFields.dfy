/** What the registry stores and answers after any history, field by field. */
module OperationFields {
  import opened Options
  import opened Operations

  /** The registry after a history from its start, and everything it has published. */
  function After(max: nat, acts: seq<Act>): Log { Run(Log([], []), max, acts) }

  lemma {:induction false} RunSnoc(l: Log, max: nat, acts: seq<Act>, a: Act)
    ensures var m := Run(l, max, acts);
      Run(l, max, acts + [a]) == Log(Step(m.ops, max, a), m.record + [OpOf(m.ops, a)])
    decreases |acts|
  {
    hide Step, OpOf;
    if acts == [] {
      assert [] + [a] == [a] && [a][1..] == [];
    } else {
      assert (acts + [a])[1..] == acts[1..] + [a];
      RunSnoc(Log(Step(l.ops, max, acts[0]), l.record + [OpOf(l.ops, acts[0])]), max, acts[1..], a);
    }
  }

  /** No id occurs twice. */
  lemma UniqueAfter(max: nat, acts: seq<Act>)
    ensures var ops := After(max, acts).ops; forall i, j | 0 <= i < j < |ops| :: ops[i].opId != ops[j].opId
  {
    hide Mirrors, Run;
    RegistryHoldsTheLatest(max, acts);
    MirrorsUnique(After(max, acts).ops, After(max, acts).record);
  }

  lemma LookupIff(ops: Entries, id: string, p: OpStatus)
    requires forall i, j | 0 <= i < j < |ops| :: ops[i].opId != ops[j].opId
    ensures Lookup(ops, id) == Some(p) <==> p in ops && p.opId == id
  {
    if p in ops && p.opId == id {
      var i :| 0 <= i < |ops| && ops[i] == p;
      assert IndexOf(ops, id) <= i;
    }
  }

  // ------------------------------------------------------------------ the fields of a transition

  /** The entry of `id` is `op`, the newest one and the last one published; every other entry is as before. */
  ghost predicate Newest(before: Log, after: Log, op: OpStatus) {
    && after.ops != [] && after.ops[|after.ops| - 1] == op
    && after.record == before.record + [op]
    && forall x: OpStatus | x.opId != op.opId :: x in after.ops <==> x in before.ops
  }

  /** A started op runs, with the caller's user, kind, detail and time, and no result. */
  lemma StartFields(max: nat, acts: seq<Act>, id: string, user: string, kind: string, detail: string, ts: int)
    requires max > 0
    ensures var l := After(max, acts + [Start(id, user, kind, detail, ts)]);
      var op := OpStatus(id, user, kind, Running, detail, map[], ts);
      && l.ops != [] && l.ops[|l.ops| - 1] == op && l.record == After(max, acts).record + [op]
      && (forall x | x in l.ops && x != op :: x in After(max, acts).ops && x.opId != id)
      && (|After(max, acts).ops| < max ==> Newest(After(max, acts), l, op))
  {
    hide Run, Without, OpOf;
    var l := After(max, acts);
    var op := OpStatus(id, user, kind, Running, detail, map[], ts);
    var a := Start(id, user, kind, detail, ts);
    RunSnoc(Log([], []), max, acts, a);
    assert OpOf(l.ops, a) == op by { StartedOp(l.ops, id, user, kind, detail, ts); }
    UniqueAfter(max, acts);
    WithoutProps(l.ops, id);
    WithoutAt(l.ops, id);
    assert Record(l.ops, op) == Without(l.ops, id) + [op];
  }

  lemma StartedOp(ops: Entries, id: string, user: string, kind: string, detail: string, ts: int)
    ensures OpOf(ops, Start(id, user, kind, detail, ts)) == OpStatus(id, user, kind, Running, detail, map[], ts)
  {
  }

  /**
   * A terminated op has the state and the time it was given, and the user and kind of the entry it replaces.  An empty
   * detail and an absent result leave the ones of that entry; without an entry all of these are empty.
   */
  lemma TerminateFields(max: nat, acts: seq<Act>, id: string, state: OpState, detail: string,
                        result: Option<map<string, string>>, ts: int)
    ensures var before := After(max, acts);
      var after := After(max, acts + [Terminate(id, state, detail, result, ts)]);
      && after.ops != [] && Newest(before, after, after.ops[|after.ops| - 1])
      && var op := after.ops[|after.ops| - 1];
      && op.opId == id && op.state == state && op.ts == ts
      && (detail != "" ==> op.detail == detail) && (result.Some? ==> op.result == result.value)
      && (forall p | p in before.ops && p.opId == id ::
            && op.user == p.user && op.kind == p.kind
            && (detail == "" ==> op.detail == p.detail) && (result == None ==> op.result == p.result))
      && ((forall p | p in before.ops :: p.opId != id) ==>
            op.user == "" && op.kind == ""
            && (detail == "" ==> op.detail == "") && (result == None ==> op.result == map[]))
  {
    hide Run, Without, OpOf, Lookup;
    var l := After(max, acts);
    var a := Terminate(id, state, detail, result, ts);
    var op := OpOf(l.ops, a);
    RunSnoc(Log([], []), max, acts, a);
    TerminatedOp(l.ops, id, state, detail, result, ts);
    UniqueAfter(max, acts);
    WithoutProps(l.ops, id);
    forall p | p in l.ops && p.opId == id ensures Lookup(l.ops, id) == Some(p) { LookupIff(l.ops, id, p); }
    if Lookup(l.ops, id).Some? { LookupIff(l.ops, id, Lookup(l.ops, id).value); }
  }

  lemma TerminatedOp(ops: Entries, id: string, state: OpState, detail: string,
                     result: Option<map<string, string>>, ts: int)
    ensures var op := OpOf(ops, Terminate(id, state, detail, result, ts));
      && op.opId == id && op.state == state && op.ts == ts
      && (detail != "" ==> op.detail == detail) && (result.Some? ==> op.result == result.value)
      && match Lookup(ops, id)
         case Some(p) =>
           (p.opId == id ==> op.user == p.user && op.kind == p.kind)
           && (detail == "" ==> op.detail == p.detail) && (result == None ==> op.result == p.result)
         case None =>
           op.user == "" && op.kind == ""
           && (detail == "" ==> op.detail == "") && (result == None ==> op.result == map[])
  {
  }

  // ------------------------------------------------------------------ what a client may read

  /** A user is shown exactly the op of that id, and only if it is theirs or nobody's. */
  lemma GetShowsOwnOps(max: nat, acts: seq<Act>, id: string, user: string, op: OpStatus)
    ensures var ops := After(max, acts).ops;
      Get(ops, id, user) == Some(op) <==> op in ops && op.opId == id && op.user in {"", user}
  {
    hide Run;
    UniqueAfter(max, acts);
    hide After;
    LookupIff(After(max, acts).ops, id, op);
  }

  /** An op that has ended is shown to exactly the users to whom its entry was shown before, or to everybody if it had
      been evicted or never started. */
  lemma EndedOpShownIff(max: nat, acts: seq<Act>, id: string, state: OpState, detail: string,
                        result: Option<map<string, string>>, ts: int, user: string)
    ensures Get(After(max, acts + [Terminate(id, state, detail, result, ts)]).ops, id, user).Some?
      <==> forall p | p in After(max, acts).ops && p.opId == id :: p.user in {"", user}
  {
    hide Run, Get, After;
    var more := acts + [Terminate(id, state, detail, result, ts)];
    var before, after := After(max, acts).ops, After(max, more).ops;
    TerminateFields(max, acts, id, state, detail, result, ts);
    var op := after[|after| - 1];
    GetShowsOwnOps(max, more, id, user, op);
    if Get(after, id, user).Some? {
      var got := Get(after, id, user).value;
      GetShowsOwnOps(max, more, id, user, got);
      UniqueAfter(max, more);
      var i :| 0 <= i < |after| && after[i] == got;
      assert got == op;
    }
  }

  /** An op that was evicted while it ran belongs to nobody when it ends: another user is shown it. */
  lemma EvictedOpLosesItsUser()
    ensures var started := [Start("a", "first", "kind", "", 0)];
      var ended := started + [Start("b", "second", "kind", "", 1)] + [Terminate("a", Succeeded, "", None, 2)];
      Get(After(1, started).ops, "a", "second") == None && Get(After(1, ended).ops, "a", "second").Some?
  {
    hide Run, Get, After, Step;
    var started := [Start("a", "first", "kind", "", 0)];
    var two := started + [Start("b", "second", "kind", "", 1)];
    assert [] + started == started;
    StartFields(1, [], "a", "first", "kind", "", 0);
    StartFields(1, started, "b", "second", "kind", "", 1);
    AtMost(1, [], Start("a", "first", "kind", "", 0));
    AtMost(1, started, Start("b", "second", "kind", "", 1));
    EndedOpShownIff(1, two, "a", Succeeded, "", None, 2, "second");
    var ops := After(1, started).ops;
    if Get(ops, "a", "second").Some? {
      GetShowsOwnOps(1, started, "a", "second", Get(ops, "a", "second").value);
    }
  }

  lemma AtMost(max: nat, acts: seq<Act>, a: Act)
    requires a.Start?
    ensures |After(max, acts + [a]).ops| <= max
  {
    hide Run, Step;
    RunSnoc(Log([], []), max, acts, a);
    StartRestoresCap(After(max, acts).ops, max, a);
  }

  // ------------------------------------------------------------------ a whole life

  /** An op that is started, and later ended while it is still registered, keeps its user, kind and, without a new one,
      its detail. */
  lemma EndKeepsOwner(max: nat, acts: seq<Act>, id: string, user: string, kind: string, detail: string, ts: int,
                      state: OpState, result: Option<map<string, string>>, end: int)
    requires max > 0
    ensures var l := After(max, (acts + [Start(id, user, kind, detail, ts)]) + [Terminate(id, state, "", result, end)]);
      Get(l.ops, id, user) == Some(OpStatus(id, user, kind, state, detail,
                                            if result.Some? then result.value else map[], end))
  {
    hide Run, Get, After;
    var started := acts + [Start(id, user, kind, detail, ts)];
    StartFields(max, acts, id, user, kind, detail, ts);
    TerminateFields(max, started, id, state, "", result, end);
    var l := After(max, started + [Terminate(id, state, "", result, end)]);
    var op := OpStatus(id, user, kind, state, detail, if result.Some? then result.value else map[], end);
    GetShowsOwnOps(max, started + [Terminate(id, state, "", result, end)], id, user, op);
    var s := OpStatus(id, user, kind, Running, detail, map[], ts);
    assert s in After(max, started).ops;
  }
}
