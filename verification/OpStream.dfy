/** `op_event_stream`: subscribe, then snapshot the registry, then drain the queue. */
module OpStream {
  import opened Options
  import Feeds
  import opened Operations

  /** One client follows one op of one user; `record` is every transition of every op so far. */
  datatype World = World(ops: Entries, record: seq<OpStatus>,
                         feed: Option<Feeds.Feed<OpStatus>>, snapshot: Option<Option<OpStatus>>, sent: seq<OpStatus>)

  const START := World([], [], None, None, [])

  datatype Event =
    | Transition(a: Act, flagged: bool)   // recorded and published in one step; the flag may come from other queues
    | Subscribe
    | Snapshot
    | Send                                // the drain task forwards one frame

  datatype Client = Client(id: string, user: string, size: int, max: nat)

  function Step(w: World, c: Client, e: Event): World {
    match e
    case Transition(a, flagged) =>
      var op := OpOf(w.ops, a);
      var w1 := w.(ops := Operations.Step(w.ops, c.max, a), record := w.record + [op]);
      if w.feed.Some? && op.opId == c.id then
        w1.(feed := Some(Feeds.PublishStep(w.feed.value, c.size, op, flagged)))
      else w1
    case Subscribe => if w.feed == None then w.(feed := Some(Feeds.Subscribed())) else w
    case Snapshot =>
      if w.feed.Some? && w.snapshot == None then
        var got := Get(w.ops, c.id, c.user);
        w.(snapshot := Some(got), sent := match got case Some(op) => [op] case None => [])
      else w
    case Send =>
      if w.snapshot.Some? && w.feed.Some? && w.feed.value.queue != [] then
        w.(feed := Some(Feeds.GetStep(w.feed.value)), sent := w.sent + [w.feed.value.queue[0].event])
      else w
  }

  function Run(w: World, c: Client, events: seq<Event>): World
    decreases |events|
  {
    if events == [] then w else Run(Step(w, c, events[0]), c, events[1..])
  }

  /** `op` is the latest recorded transition of the followed op. */
  ghost predicate IsLatest(record: seq<OpStatus>, id: string, op: OpStatus) {
    Latest(record, id) >= 0 && op == record[Latest(record, id)]
  }

  ghost predicate FeedOk(w: World, c: Client) {
    match w.feed
    case None => w.snapshot == None && w.sent == []
    case Some(f) =>
      && Feeds.Inv(f, c.size) && Feeds.NewestKept(f)
      && (f.published != [] ==> IsLatest(w.record, c.id, f.published[|f.published| - 1]))
      && (w.snapshot == None ==> w.sent == [] && f.delivered == [])
  }

  ghost predicate SentOk(w: World, c: Client) {
    w.snapshot.Some? && w.feed.Some? ==>
      var f := w.feed.value;
      var first := if w.snapshot.value.Some? then [w.snapshot.value.value] else [];
      && |w.sent| == |first| + |f.delivered|
      && (first != [] ==> w.sent[0] == first[0] && (f.published == [] ==> IsLatest(w.record, c.id, first[0])))
      && (forall i | 0 <= i < |f.delivered| :: w.sent[|first| + i] == f.delivered[i].frame.event)
  }

  ghost predicate Inv(w: World, c: Client) {
    Mirrors(w.ops, w.record) && FeedOk(w, c) && SentOk(w, c)
  }

  lemma OpOfId(ops: Entries, a: Act)
    ensures OpOf(ops, a).opId == a.id
  {
  }

  lemma GetIsLatest(ops: Entries, record: seq<OpStatus>, id: string, user: string)
    requires Mirrors(ops, record)
    ensures Get(ops, id, user).Some? ==> IsLatest(record, id, Get(ops, id, user).value)
  {
    if Has(ops, id) {
      assert IsCurrent(ops[IndexOf(ops, id)], record);
    }
  }

  lemma TransitionKeeps(w: World, c: Client, a: Act, flagged: bool)
    requires Inv(w, c)
    ensures Inv(Step(w, c, Transition(a, flagged)), c)
  {
    hide Mirrors, Feeds.Inv, Feeds.NewestKept, Latest, OpOf, Operations.Step;
    var op := OpOf(w.ops, a);
    OpOfId(w.ops, a);
    StepMirrors(w.ops, w.record, c.max, a);
    LatestSnoc(w.record, op);
    if w.feed.Some? {
      Feeds.StepKeepsInv(w.feed.value, c.size, Feeds.Publish(op, flagged));
      InvSuffix(w.feed.value, c.size);
      Feeds.StepKeepsNewest(w.feed.value, c.size, Feeds.Publish(op, flagged));
    }
    TransitionSent(w, c, a, flagged, op);
  }

  lemma InvSuffix<E>(f: Feeds.Feed<E>, size: int)
    requires Feeds.Inv(f, size)
    ensures Feeds.QueueIsSuffix(f, size)
  {
  }

  lemma TransitionSent(w: World, c: Client, a: Act, flagged: bool, op: OpStatus)
    requires SentOk(w, c) && op == OpOf(w.ops, a)
    requires forall id | id != op.opId :: Latest(w.record + [op], id) == Latest(w.record, id)
    requires forall k | 0 <= k < |w.record| :: (w.record + [op])[k] == w.record[k]
    ensures SentOk(Step(w, c, Transition(a, flagged)), c)
  {
    hide Latest, OpOf, Operations.Step;
  }

  lemma SnapshotKeeps(w: World, c: Client)
    requires Inv(w, c)
    ensures Inv(Step(w, c, Snapshot), c)
  {
    hide Mirrors, Feeds.Inv, Feeds.NewestKept, Latest;
    GetIsLatest(w.ops, w.record, c.id, c.user);
  }

  lemma SendKeeps(w: World, c: Client)
    requires Inv(w, c)
    ensures Inv(Step(w, c, Send), c)
  {
    hide Mirrors, Feeds.Inv, Feeds.NewestKept, Latest;
    if w.snapshot.Some? && w.feed.Some? && w.feed.value.queue != [] {
      var f := w.feed.value;
      InvSuffix(f, c.size);
      Feeds.StepKeepsInv(f, c.size, Feeds.Get);
      Feeds.StepKeepsNewest(f, c.size, Feeds.Get);
    }
  }

  lemma SubscribeKeeps(w: World, c: Client)
    requires Inv(w, c)
    ensures Inv(Step(w, c, Subscribe), c)
  {
  }

  lemma {:induction false} RunKeeps(w: World, c: Client, events: seq<Event>)
    requires Inv(w, c)
    ensures Inv(Run(w, c, events), c)
    decreases |events|
  {
    hide Inv, Step;
    if events != [] {
      match events[0] {
        case Transition(a, flagged) => TransitionKeeps(w, c, a, flagged);
        case Subscribe => SubscribeKeeps(w, c);
        case Snapshot => SnapshotKeeps(w, c);
        case Send => SendKeeps(w, c);
      }
      RunKeeps(Step(w, c, events[0]), c, events[1..]);
    }
  }

  /** Once the client has its snapshot and has drained its queue, the last frame it was sent is the
      latest recorded transition of its op, however many frames were dropped on the way; it was
      sent nothing only if the registry showed it nothing and nothing happened since. */
  lemma StreamConverges(c: Client, events: seq<Event>)
    requires var w := Run(START, c, events);
      w.snapshot.Some? && w.feed.Some? && w.feed.value.queue == []
    ensures var w := Run(START, c, events);
      && (w.sent != [] ==> IsLatest(w.record, c.id, w.sent[|w.sent| - 1]))
      && (w.sent == [] <==> w.snapshot == Some(None) && w.feed.value.published == [])
  {
    EmptyInv(c);
    RunKeeps(START, c, events);
    DrainedIsLatest(Run(START, c, events), c);
  }

  lemma EmptyInv(c: Client)
    ensures Inv(START, c)
  {
  }

  lemma DrainedIsLatest(w: World, c: Client)
    requires Inv(w, c) && w.snapshot.Some? && w.feed.Some? && w.feed.value.queue == []
    ensures w.sent != [] ==> IsLatest(w.record, c.id, w.sent[|w.sent| - 1])
    ensures w.sent == [] <==> w.snapshot == Some(None) && w.feed.value.published == []
  {
    hide Mirrors, IsLatest, Feeds.Inv, Feeds.NewestKept;
    var f := w.feed.value;
    var first := if w.snapshot.value.Some? then [w.snapshot.value.value] else [];
    if f.delivered != [] { DeliveredIsPublished(f, c.size); }
    if f.published != [] {
      DrainedHasNewest(f, c.size);
      var n := |f.delivered| - 1;
      assert w.sent[|first| + n] == f.delivered[n].frame.event;
    }
  }

  lemma DeliveredIsPublished<E>(f: Feeds.Feed<E>, size: int)
    requires Feeds.Inv(f, size) && f.delivered != []
    ensures f.published != []
  {
    assert f.delivered[0].index < |f.published|;
  }

  lemma DrainedHasNewest<E>(f: Feeds.Feed<E>, size: int)
    requires Feeds.Inv(f, size) && Feeds.NewestKept(f) && f.queue == [] && f.published != []
    ensures f.delivered != [] && f.delivered[|f.delivered| - 1].frame.event == f.published[|f.published| - 1]
  {
    hide Feeds.LossAnnounced;
    var last := f.delivered[|f.delivered| - 1];
    assert last.frame.event == f.published[last.index];
  }
}
