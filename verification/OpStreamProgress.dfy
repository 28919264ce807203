/** A client that follows an op can always drain, and then its last frame is what the registry shows. */
module OpStreamProgress {
  import opened Options
  import Feeds
  import opened Operations
  import opened OpStream

  /** Steps of the client alone: no op moves. */
  predicate ClientOnly(events: seq<Event>) { forall i | 0 <= i < |events| :: !events[i].Transition? }

  lemma {:induction false} RunConcat(w: World, c: Client, events: seq<Event>, more: seq<Event>)
    ensures OpStream.Run(w, c, events + more) == OpStream.Run(OpStream.Run(w, c, events), c, more)
    decreases |events|
  {
    hide OpStream.Step;
    if events == [] {
      assert [] + more == more;
    } else {
      assert (events + more)[1..] == events[1..] + more;
      RunConcat(OpStream.Step(w, c, events[0]), c, events[1..], more);
    }
  }

  predicate Drained(w: World) { w.snapshot.Some? && w.feed.Some? && w.feed.value.queue == [] }

  /** Subscribe, look at the registry, and forward what is waiting: nothing else is needed. */
  lemma {:induction false} Drains(w: World, c: Client) returns (more: seq<Event>)
    requires w.feed.Some? ==> |w.feed.value.queue| <= |w.feed.value.published|
    ensures ClientOnly(more) && Drained(OpStream.Run(w, c, more))
    ensures OpStream.Run(w, c, more).ops == w.ops && OpStream.Run(w, c, more).record == w.record
    decreases if w.feed == None then 2 else if w.snapshot == None then 1 else 0,
              if w.feed.Some? then |w.feed.value.queue| else 0
  {
    if Drained(w) {
      more := [];
    } else {
      var e := if w.feed == None then Subscribe else if w.snapshot == None then Snapshot else Send;
      var rest := Drains(OpStream.Step(w, c, e), c);
      more := [e] + rest;
      assert more[1..] == rest;
    }
  }

  /** However much was published, the client can drain without any further transition. */
  lemma EveryClientCanDrain(c: Client, events: seq<Event>) returns (more: seq<Event>)
    ensures ClientOnly(more) && Drained(OpStream.Run(START, c, events + more))
    ensures OpStream.Run(START, c, events + more).ops == OpStream.Run(START, c, events).ops
  {
    hide OpStream.Run, Inv;
    EmptyInv(c);
    RunKeeps(START, c, events);
    var w := OpStream.Run(START, c, events);
    QueueWithin(w, c);
    more := Drains(w, c);
    RunConcat(START, c, events, more);
  }

  lemma QueueWithin(w: World, c: Client)
    requires Inv(w, c)
    ensures w.feed.Some? ==> |w.feed.value.queue| <= |w.feed.value.published|
  {
    hide Mirrors, SentOk;
    if w.feed.Some? { InvSuffix(w.feed.value, c.size); }
  }

  // ------------------------------------------------------------------ nothing visible is withheld

  /** If the snapshot showed nothing and nothing came since, then there is nothing to show. */
  ghost predicate NothingHidden(w: World, c: Client) {
    w.snapshot == Some(None) && w.feed.Some? && w.feed.value.published == [] ==> Get(w.ops, c.id, c.user) == None
  }

  /** Another op's transition keeps the entry or evicts it. */
  lemma OtherStep(ops: Entries, record: seq<OpStatus>, max: nat, a: Act, id: string)
    requires Mirrors(ops, record) && a.id != id
    ensures Lookup(Operations.Step(ops, max, a), id) in {None, Lookup(ops, id)}
  {
    hide Mirrors, OpOf, Without, Has;
    MirrorsUnique(ops, record);
    var op := OpOf(ops, a);
    OpOfId(ops, a);
    WithoutProps(ops, op.opId);
    var next := Operations.Step(ops, max, a);
    InRecord(ops, op, id);
    assert forall x | x in next :: x in Record(ops, op);
    LookupOf(next, id);
    LookupOf(ops, id);
    if Lookup(next, id).Some? { LookupUnique(ops, id, Lookup(next, id).value); }
  }

  lemma InRecord(ops: Entries, op: OpStatus, id: string)
    requires forall x :: x in Without(ops, op.opId) <==> x in ops && x.opId != op.opId
    requires op.opId != id
    ensures forall x | x in Record(ops, op) && x.opId == id :: x in ops
  {
    hide Without;
  }

  lemma LookupOf(ops: Entries, id: string)
    ensures Lookup(ops, id).Some? ==> Lookup(ops, id).value in ops && Lookup(ops, id).value.opId == id
  {
  }

  lemma LookupUnique(ops: Entries, id: string, p: OpStatus)
    requires forall i, j | 0 <= i < j < |ops| :: ops[i].opId != ops[j].opId
    requires p in ops && p.opId == id
    ensures Lookup(ops, id) == Some(p)
  {
    var i :| 0 <= i < |ops| && ops[i] == p;
    assert IndexOf(ops, id) <= i;
  }

  lemma StepHidesNothing(w: World, c: Client, e: Event)
    requires Inv(w, c) && NothingHidden(w, c)
    ensures NothingHidden(OpStream.Step(w, c, e), c)
  {
    hide Mirrors, Lookup, Operations.Step, FeedOk, SentOk, OpOf;
    if e.Transition? {
      OpOfId(w.ops, e.a);
      if e.a.id != c.id { OtherStep(w.ops, w.record, c.max, e.a, c.id); }
    } else if e == Subscribe {
      assert FeedOk(w, c);
      SubscribeHides(w, c);
    }
  }

  lemma SubscribeHides(w: World, c: Client)
    requires FeedOk(w, c) && NothingHidden(w, c)
    ensures NothingHidden(OpStream.Step(w, c, Subscribe), c)
  {
  }

  lemma {:induction false} RunHidesNothing(w: World, c: Client, events: seq<Event>)
    requires Inv(w, c) && NothingHidden(w, c)
    ensures NothingHidden(OpStream.Run(w, c, events), c)
    decreases |events|
  {
    hide Inv, OpStream.Step, NothingHidden;
    if events != [] {
      StepHidesNothing(w, c, events[0]);
      var next := OpStream.Step(w, c, events[0]);
      assert OpStream.Run(w, c, [events[0]]) == next by { OneStep(w, c, events[0]); }
      RunKeeps(w, c, [events[0]]);
      RunHidesNothing(next, c, events[1..]);
    }
  }

  lemma OneStep(w: World, c: Client, e: Event)
    ensures OpStream.Run(w, c, [e]) == OpStream.Step(w, c, e)
  {
    hide OpStream.Step;
    assert [e][1..] == [];
  }

  /** Once the client has drained, the last frame it was sent is the op as the registry shows it to that user. */
  lemma DrainedSeesRegistry(c: Client, events: seq<Event>)
    requires Drained(OpStream.Run(START, c, events))
    ensures var w := OpStream.Run(START, c, events);
      Get(w.ops, c.id, c.user).Some? ==> w.sent != [] && Some(w.sent[|w.sent| - 1]) == Get(w.ops, c.id, c.user)
  {
    hide OpStream.Run, Get, Mirrors, FeedOk, SentOk;
    EmptyInv(c);
    RunKeeps(START, c, events);
    RunHidesNothing(START, c, events);
    StreamConverges(c, events);
    var w := OpStream.Run(START, c, events);
    GetIsLatest(w.ops, w.record, c.id, c.user);
  }
}
