/** `_OpRegistry`: a bounded ordered registry of operation states. */
module Operations {
  import opened Options

  datatype OpState = Running | Succeeded | Failed

  /** `result` is the JSON object of the source, as a map. */
  datatype OpStatus = OpStatus(opId: string, user: string, kind: string, state: OpState,
                               detail: string, result: map<string, string>, ts: int)

  type Entries = seq<OpStatus>

  // ------------------------------------------------------------------ the ordered dictionary

  function IndexOf(ops: Entries, id: string): (i: nat)
    ensures i <= |ops| && (i < |ops| ==> ops[i].opId == id)
    ensures forall j | 0 <= j < i :: ops[j].opId != id
  {
    if ops == [] || ops[0].opId == id then 0 else 1 + IndexOf(ops[1..], id)
  }

  predicate Has(ops: Entries, id: string) { IndexOf(ops, id) < |ops| }

  function Lookup(ops: Entries, id: string): Option<OpStatus> {
    if Has(ops, id) then Some(ops[IndexOf(ops, id)]) else None
  }

  function Without(ops: Entries, id: string): Entries {
    if Has(ops, id) then ops[..IndexOf(ops, id)] + ops[IndexOf(ops, id) + 1..] else ops
  }

  /** The entry becomes the newest one. */
  function Record(ops: Entries, op: OpStatus): Entries { Without(ops, op.opId) + [op] }

  function Evict(ops: Entries, max: nat): Entries {
    if |ops| > max then ops[|ops| - max..] else ops
  }

  function StartOp(id: string, user: string, kind: string, detail: string, ts: int): OpStatus {
    OpStatus(id, user, kind, Running, detail, map[], ts)
  }

  /** `_terminate`: an unknown op is synthesised; an empty detail or result keeps the old one. */
  function TerminateOp(ops: Entries, id: string, state: OpState, detail: string,
                       result: Option<map<string, string>>, ts: int): OpStatus {
    var prev := match Lookup(ops, id) case Some(p) => p case None => OpStatus(id, "", "", Running, "", map[], 0);
    prev.(state := state, detail := if detail != "" then detail else prev.detail,
          result := if result.Some? then result.value else prev.result, ts := ts)
  }

  function Get(ops: Entries, id: string, user: string): Option<OpStatus> {
    match Lookup(ops, id)
    case None => None
    case Some(op) => if op.user != "" && op.user != user then None else Some(op)
  }

  // ------------------------------------------------------------------ the object

  /** `published` is what was handed to the event bus, in order. */
  class OpRegistry {
    const max: nat
    var ops: Entries
    ghost var published: seq<OpStatus>

    constructor (max: nat)
      ensures ops == [] && published == [] && this.max == max
    {
      this.max, ops, published := max, [], [];
    }

    method Start(id: string, user: string, kind: string, detail: string, ts: int) returns (op: OpStatus)
      modifies this
      ensures op == StartOp(id, user, kind, detail, ts) == OpStatus(id, user, kind, Running, detail, map[], ts)
      ensures ops == Evict(Record(old(ops), op), max) && published == old(published) + [op]
    {
      op := StartOp(id, user, kind, detail, ts);
      ops := Without(ops, id);
      ops := ops + [op];
      ghost var full := ops;
      while |ops| > max
        invariant |ops| <= |full| && ops == full[|full| - |ops|..]
        invariant |full| > max ==> |ops| >= max
        invariant |full| <= max ==> ops == full
        invariant published == old(published)
        decreases |ops|
      {
        ops := ops[1..];
      }
      published := published + [op];
    }

    method Terminate(id: string, state: OpState, detail: string, result: Option<map<string, string>>, ts: int)
      returns (op: OpStatus)
      modifies this
      ensures op == TerminateOp(old(ops), id, state, detail, result, ts)
      ensures op.opId == id && op.state == state && op.ts == ts
      ensures detail != "" ==> op.detail == detail
      ensures result.Some? ==> op.result == result.value
      ensures ops == Record(old(ops), op) && published == old(published) + [op]
    {
      op := TerminateOp(ops, id, state, detail, result, ts);
      var i := IndexOf(ops, id);
      if i < |ops| {
        ops := ops[i := op];
        ops := ops[..i] + ops[i + 1..] + [op];
      } else {
        ops := ops + [op];
      }
      published := published + [op];
    }

    method GetOp(id: string, user: string) returns (r: Option<OpStatus>)
      ensures r == Get(ops, id, user)
    {
      var i := IndexOf(ops, id);
      if i == |ops| || (ops[i].user != "" && ops[i].user != user) {
        return None;
      }
      return Some(ops[i]);
    }
  }

  // ------------------------------------------------------------------ histories

  datatype Act =
    | Start(id: string, user: string, kind: string, detail: string, ts: int)
    | Terminate(id: string, state: OpState, detail: string, result: Option<map<string, string>>, ts: int)

  function OpOf(ops: Entries, a: Act): OpStatus {
    match a
    case Start(id, user, kind, detail, ts) => StartOp(id, user, kind, detail, ts)
    case Terminate(id, state, detail, result, ts) => TerminateOp(ops, id, state, detail, result, ts)
  }

  function Step(ops: Entries, max: nat, a: Act): Entries {
    var next := Record(ops, OpOf(ops, a));
    if a.Start? then Evict(next, max) else next
  }

  /** Position of the latest transition of `id` in the record, or -1. */
  function Latest(record: seq<OpStatus>, id: string): (k: int)
    ensures -1 <= k < |record|
    ensures k >= 0 ==> record[k].opId == id
    ensures forall j | k < j < |record| :: record[j].opId != id
  {
    if record == [] then -1
    else if record[|record| - 1].opId == id then |record| - 1
    else Latest(record[..|record| - 1], id)
  }

  ghost predicate Sorted(ops: Entries, record: seq<OpStatus>) {
    forall i, j | 0 <= i < j < |ops| :: Latest(record, ops[i].opId) < Latest(record, ops[j].opId)
  }

  ghost predicate IsCurrent(op: OpStatus, record: seq<OpStatus>) {
    Latest(record, op.opId) >= 0 && op == record[Latest(record, op.opId)]
  }

  ghost predicate AbsentIsOlder(ops: Entries, record: seq<OpStatus>, id: string) {
    !Has(ops, id) ==> forall i | 0 <= i < |ops| :: Latest(record, id) < Latest(record, ops[i].opId)
  }

  /** The registry holds the most recently moved ops, oldest transition first, each as last recorded. */
  ghost predicate Mirrors(ops: Entries, record: seq<OpStatus>) {
    && (forall i | 0 <= i < |ops| :: IsCurrent(ops[i], record))
    && Sorted(ops, record)
    && (forall id :: AbsentIsOlder(ops, record, id))
  }

  lemma LatestSnoc(record: seq<OpStatus>, op: OpStatus)
    ensures Latest(record + [op], op.opId) == |record|
    ensures forall id | id != op.opId :: Latest(record + [op], id) == Latest(record, id)
    ensures forall k | 0 <= k < |record| :: (record + [op])[k] == record[k]
  {
    assert (record + [op])[..|record|] == record;
  }

  lemma HasIff(ops: Entries, id: string)
    ensures Has(ops, id) <==> exists i | 0 <= i < |ops| :: ops[i].opId == id
  {
  }

  lemma MirrorsUnique(ops: Entries, record: seq<OpStatus>)
    requires Mirrors(ops, record)
    ensures forall i, j | 0 <= i < j < |ops| :: ops[i].opId != ops[j].opId
  {
    hide Latest, IsCurrent, AbsentIsOlder;
    forall i, j | 0 <= i < j < |ops| ensures ops[i].opId != ops[j].opId {
      assert Latest(record, ops[i].opId) < Latest(record, ops[j].opId);
    }
  }

  /** The entries that are left, by position. */
  lemma WithoutAt(ops: Entries, id: string)
    ensures IndexOf(ops, id) == |ops| ==> Without(ops, id) == ops
    ensures IndexOf(ops, id) < |ops| ==> |Without(ops, id)| == |ops| - 1
    ensures forall i | 0 <= i < |Without(ops, id)| ::
      Without(ops, id)[i] == ops[if i < IndexOf(ops, id) then i else i + 1]
  {
    var n := IndexOf(ops, id);
    if n < |ops| { SpliceAt(ops, n); }
  }

  lemma SpliceAt(ops: Entries, n: nat)
    requires n < |ops|
    ensures var w := ops[..n] + ops[n + 1..];
      |w| == |ops| - 1 && forall i | 0 <= i < |w| :: w[i] == ops[if i < n then i else i + 1]
  {
  }

  /** Removing an entry keeps the others. */
  lemma WithoutProps(ops: Entries, id: string)
    requires forall i, j | 0 <= i < j < |ops| :: ops[i].opId != ops[j].opId
    ensures forall x :: x in Without(ops, id) <==> x in ops && x.opId != id
    ensures forall x | x != id :: Has(Without(ops, id), x) <==> Has(ops, x)
  {
    hide Without, Has;
    WithoutAt(ops, id);
    var w, n := Without(ops, id), IndexOf(ops, id);
    if n < |ops| {
      forall x | x in ops && x.opId != id ensures x in w {
        var i :| 0 <= i < |ops| && ops[i] == x;
        assert if i < n then w[i] == x else w[i - 1] == x;
      }
    }
    forall x | x != id ensures Has(w, x) <==> Has(ops, x) { HasWithout(ops, id, x); }
  }

  lemma HasWithout(ops: Entries, id: string, x: string)
    requires x != id && forall i, j | 0 <= i < j < |ops| :: ops[i].opId != ops[j].opId
    ensures Has(Without(ops, id), x) <==> Has(ops, x)
  {
    hide Without, Has;
    WithoutAt(ops, id);
    var w, n := Without(ops, id), IndexOf(ops, id);
    HasIff(w, x);
    HasIff(ops, x);
    if i :| 0 <= i < |ops| && ops[i].opId == x {
      if n < |ops| { assert w[if i < n then i else i - 1].opId == x; } else { assert w[i].opId == x; }
    }
    if i :| 0 <= i < |w| && w[i].opId == x {
      if n < |ops| { assert ops[if i < n then i else i + 1].opId == x; } else { assert ops[i].opId == x; }
    }
  }

  lemma WithoutSorted(ops: Entries, record: seq<OpStatus>, id: string)
    requires Sorted(ops, record)
    ensures Sorted(Without(ops, id), record)
  {
    hide Without, Latest;
    WithoutAt(ops, id);
    var w, n := Without(ops, id), IndexOf(ops, id);
    if n < |ops| {
      forall i, j | 0 <= i < j < |w| ensures Latest(record, w[i].opId) < Latest(record, w[j].opId) {
        assert w[i] == ops[if i < n then i else i + 1] && w[j] == ops[if j < n then j else j + 1];
      }
    }
  }

  lemma CurrentKept(record: seq<OpStatus>, op: OpStatus, x: OpStatus)
    requires IsCurrent(x, record) && x.opId != op.opId
    ensures IsCurrent(x, record + [op])
  {
    hide Latest;
    LatestSnoc(record, op);
  }

  lemma CurrentNew(record: seq<OpStatus>, op: OpStatus)
    ensures IsCurrent(op, record + [op])
  {
    hide Latest;
    LatestSnoc(record, op);
  }

  lemma RecordMirrors(ops: Entries, record: seq<OpStatus>, op: OpStatus)
    requires Mirrors(ops, record)
    ensures Mirrors(Record(ops, op), record + [op])
  {
    hide Latest, Sorted, AbsentIsOlder, IsCurrent, Without, Has;
    var w := Without(ops, op.opId);
    var next := w + [op];
    var r2 := record + [op];
    MirrorsUnique(ops, record);
    WithoutProps(ops, op.opId);
    WithoutSorted(ops, record, op.opId);
    forall i | 0 <= i < |next| ensures IsCurrent(next[i], r2) {
      if i < |w| {
        assert next[i] in w;
        CurrentKept(record, op, next[i]);
      } else {
        CurrentNew(record, op);
      }
    }
    assert forall i | 0 <= i < |w| :: w[i] in w && w[i].opId != op.opId;
    SortedSnoc(w, record, op);
    forall id ensures AbsentIsOlder(next, r2, id) { RecordAbsent(ops, record, op, id); }
  }

  lemma SortedSnoc(w: Entries, record: seq<OpStatus>, op: OpStatus)
    requires Sorted(w, record) && forall i | 0 <= i < |w| :: w[i].opId != op.opId
    ensures Sorted(w + [op], record + [op])
  {
    hide Latest;
    LatestSnoc(record, op);
  }

  lemma RecordAbsent(ops: Entries, record: seq<OpStatus>, op: OpStatus, id: string)
    requires Mirrors(ops, record)
    ensures AbsentIsOlder(Record(ops, op), record + [op], id)
  {
    hide Latest, Without, IsCurrent, Has, Sorted;
    var w := Without(ops, op.opId);
    var next := w + [op];
    MirrorsUnique(ops, record);
    WithoutProps(ops, op.opId);
    LatestSnoc(record, op);
    HasIff(next, id);
    HasIff(w, id);
    HasIff(ops, id);
    if !Has(next, id) {
      assert next[|w|].opId != id;
      assert forall i | 0 <= i < |w| :: next[i].opId == w[i].opId;
      assert !Has(ops, id) && AbsentIsOlder(ops, record, id);
      forall i | 0 <= i < |next| ensures Latest(record + [op], id) < Latest(record + [op], next[i].opId) {
        if i < |w| {
          assert w[i] in w;
          var k :| 0 <= k < |ops| && ops[k] == w[i];
        }
      }
    }
  }

  lemma EvictMirrors(ops: Entries, record: seq<OpStatus>, max: nat)
    requires Mirrors(ops, record)
    ensures Mirrors(Evict(ops, max), record)
  {
    hide Latest, Sorted, IsCurrent, AbsentIsOlder, Has;
    var kept := Evict(ops, max);
    var d := |ops| - |kept|;
    EvictSorted(ops, record, max);
    forall i | 0 <= i < |kept| ensures IsCurrent(kept[i], record) { assert kept[i] == ops[d + i]; }
    forall id ensures AbsentIsOlder(kept, record, id) { EvictAbsent(ops, record, max, id); }
  }

  lemma EvictSorted(ops: Entries, record: seq<OpStatus>, max: nat)
    requires Sorted(ops, record)
    ensures Sorted(Evict(ops, max), record)
  {
    hide Latest;
    var kept := Evict(ops, max);
    var d := |ops| - |kept|;
    forall i, j | 0 <= i < j < |kept| ensures Latest(record, kept[i].opId) < Latest(record, kept[j].opId) {
      assert kept[i] == ops[d + i] && kept[j] == ops[d + j];
    }
  }

  lemma EvictAbsent(ops: Entries, record: seq<OpStatus>, max: nat, id: string)
    requires Sorted(ops, record) && AbsentIsOlder(ops, record, id)
    ensures AbsentIsOlder(Evict(ops, max), record, id)
  {
    var kept := Evict(ops, max);
    var d := |ops| - |kept|;
    assert forall i | 0 <= i < |kept| :: kept[i] == ops[d + i];
    assert forall i | d <= i < |ops| :: ops[i] == kept[i - d];
    HasIff(kept, id);
  }

  lemma StepMirrors(ops: Entries, record: seq<OpStatus>, max: nat, a: Act)
    requires Mirrors(ops, record)
    ensures Mirrors(Step(ops, max, a), record + [OpOf(ops, a)])
  {
    var op := OpOf(ops, a);
    RecordMirrors(ops, record, op);
    EvictMirrors(Record(ops, op), record + [op], max);
  }

  datatype Log = Log(ops: Entries, record: seq<OpStatus>)

  function Run(l: Log, max: nat, acts: seq<Act>): Log
    decreases |acts|
  {
    if acts == [] then l
    else Run(Log(Step(l.ops, max, acts[0]), l.record + [OpOf(l.ops, acts[0])]), max, acts[1..])
  }

  lemma {:induction false} RunMirrors(l: Log, max: nat, acts: seq<Act>)
    requires Mirrors(l.ops, l.record)
    ensures Mirrors(Run(l, max, acts).ops, Run(l, max, acts).record)
    decreases |acts|
  {
    hide Mirrors, Step, OpOf;
    if acts != [] {
      StepMirrors(l.ops, l.record, max, acts[0]);
      RunMirrors(Log(Step(l.ops, max, acts[0]), l.record + [OpOf(l.ops, acts[0])]), max, acts[1..]);
    }
  }

  /** After any history the registry is ordered by last transition, every entry is the op's latest
      transition, and whatever was evicted moved before everything that is still there. */
  lemma RegistryHoldsTheLatest(max: nat, acts: seq<Act>)
    ensures Mirrors(Run(Log([], []), max, acts).ops, Run(Log([], []), max, acts).record)
  {
    RunMirrors(Log([], []), max, acts);
  }

  /** `start` restores the cap whatever happened before and evicts only the entries that moved longest ago. */
  lemma StartRestoresCap(ops: Entries, max: nat, a: Act)
    requires a.Start?
    ensures |Step(ops, max, a)| <= max
    ensures var next := Record(ops, OpOf(ops, a)); var d := |next| - |Step(ops, max, a)|;
      0 <= d && Step(ops, max, a) == next[d..]
  {
  }

  /** An op that was never started ends while the registry is full: two entries under a cap of one. */
  lemma UnknownOpBreaksCap()
    ensures var full := [StartOp("a", "user", "kind", "", 0)];
      |full| == 1 && |Step(full, 1, Terminate("b", Failed, "", None, 1))| == 2
  {
    var full := [StartOp("a", "user", "kind", "", 0)];
    assert full[1..] == [];
    TerminateKeepsCapIff(full, 1, Terminate("b", Failed, "", None, 1));
  }

  /** `_terminate` does not evict: it breaks the cap exactly when the op is unknown and the registry full. */
  lemma TerminateKeepsCapIff(ops: Entries, max: nat, a: Act)
    requires a.Terminate? && |ops| <= max
    ensures |Step(ops, max, a)| <= max <==> Has(ops, a.id) || |ops| < max
  {
    assert OpOf(ops, a).opId == a.id;
  }
}
