/** Whole runs of the event bus: several subscribers on several channels, each seen as one feed. */
module Bus {
  import opened Feeds

  datatype Subscription<E> = Subscription(channel: string, feed: Feed<E>)

  type Subscribers<E> = map<nat, Subscription<E>>

  /** `order` is the order in which the channel's set of queues is iterated. */
  datatype BusOp<E> =
    | Joins(id: nat, channel: string)
    | Leaves(id: nat)
    | Publishes(channel: string, e: E, order: seq<nat>)
    | Takes(id: nat)

  predicate On<E>(bus: Subscribers<E>, id: nat, channel: string) { id in bus && bus[id].channel == channel }

  ghost predicate IsOrder<E>(bus: Subscribers<E>, channel: string, order: seq<nat>) {
    && (forall i, j | 0 <= i < j < |order| :: order[i] != order[j])
    && (forall id :: id in order <==> On(bus, id, channel))
  }

  /** One of the queues served before `id` was full. */
  ghost predicate EarlierFull<E>(bus: Subscribers<E>, order: seq<nat>, size: int, id: nat) {
    exists j, k | 0 <= j < k < |order| && order[k] == id && order[j] in bus :: Full(bus[order[j]].feed.queue, size)
  }

  /** An operation that is not possible changes nothing. */
  ghost function Step<E>(bus: Subscribers<E>, size: int, op: BusOp<E>): Subscribers<E> {
    match op
    case Joins(id, channel) => if id in bus then bus else bus[id := Subscription(channel, Subscribed())]
    case Leaves(id) => bus - {id}
    case Publishes(channel, e, order) =>
      if IsOrder(bus, channel, order) then
        map id | id in bus ::
          if bus[id].channel == channel
          then bus[id].(feed := PublishStep(bus[id].feed, size, e, EarlierFull(bus, order, size, id)))
          else bus[id]
      else bus
    case Takes(id) => if id in bus then bus[id := bus[id].(feed := GetStep(bus[id].feed))] else bus
  }

  ghost function Run<E>(size: int, ops: seq<BusOp<E>>): Subscribers<E> {
    if ops == [] then map[] else Step(Run(size, ops[..|ops| - 1]), size, ops[|ops| - 1])
  }

  // ------------------------------------------------------------------ publish is the fan-out of the broadcaster

  ghost function Queues<E>(bus: Subscribers<E>, order: seq<nat>): (qs: seq<seq<Frame<E>>>)
    requires forall id | id in order :: id in bus
    ensures |qs| == |order| && forall i | 0 <= i < |order| :: qs[i] == bus[order[i]].feed.queue
  {
    seq(|order|, i requires 0 <= i < |order| => assert order[i] in order; bus[order[i]].feed.queue)
  }

  lemma EarlierFullIff<E>(bus: Subscribers<E>, order: seq<nat>, size: int, i: nat)
    requires i < |order| && forall j, k | 0 <= j < k < |order| :: order[j] != order[k]
    requires forall id | id in order :: id in bus
    ensures EarlierFull(bus, order, size, order[i])
      <==> exists j: nat | j < i :: Full(Queues(bus, order)[j], size)
  {
    hide Full;
    var qs := Queues(bus, order);
    if j: nat :| j < i && Full(qs[j], size) {
      assert order[j] in order && order[i] == order[i];
      assert Full(bus[order[j]].feed.queue, size);
    }
    if EarlierFull(bus, order, size, order[i]) {
      var j, k :| 0 <= j < k < |order| && order[k] == order[i] && order[j] in bus
        && Full(bus[order[j]].feed.queue, size);
      assert k == i && Full(qs[j], size);
    }
  }

  /** The new queues of the channel, in iteration order, are those that the loop of `publish` leaves. */
  lemma PublishIsFanOut<E>(bus: Subscribers<E>, size: int, channel: string, e: E, order: seq<nat>)
    requires IsOrder(bus, channel, order)
    ensures forall id | id in order :: id in bus && id in Step(bus, size, Publishes(channel, e, order))
    ensures Queues(Step(bus, size, Publishes(channel, e, order)), order)
         == PublishAll(Queues(bus, order), size, e, false)
  {
    var next := Step(bus, size, Publishes(channel, e, order));
    assert forall id | id in order :: On(bus, id, channel);
    var before, after := Queues(bus, order), Queues(next, order);
    PublishAllLength(before, size, e, false);
    forall i | 0 <= i < |order| ensures after[i] == PublishAll(before, size, e, false)[i] {
      QueueServed(bus, size, channel, e, order, i);
    }
  }

  lemma QueueServed<E>(bus: Subscribers<E>, size: int, channel: string, e: E, order: seq<nat>, i: nat)
    requires IsOrder(bus, channel, order) && i < |order| && forall id | id in order :: id in bus
    ensures |PublishAll(Queues(bus, order), size, e, false)| == |order|
    ensures order[i] in Step(bus, size, Publishes(channel, e, order))
    ensures Step(bus, size, Publishes(channel, e, order))[order[i]].feed.queue
         == PublishAll(Queues(bus, order), size, e, false)[i]
  {
    hide PublishAll, EarlierFull;
    assert order[i] in order && On(bus, order[i], channel);
    var qs := Queues(bus, order);
    PublishAllAt(qs, size, e, false, i);
    EarlierFullIff(bus, order, size, i);
    assert (exists j: nat | j <= i :: Full(qs[j], size))
      <==> Full(qs[i], size) || exists j: nat | j < i :: Full(qs[j], size);
  }

  // ------------------------------------------------------------------ each subscriber sees a feed

  /** The events published on its channel since the subscriber came, by the whole history. */
  ghost function Since<E>(size: int, ops: seq<BusOp<E>>, id: nat): seq<E> {
    if ops == [] then []
    else
      var front := ops[..|ops| - 1];
      var bus := Run(size, front);
      match ops[|ops| - 1]
      case Joins(i, _) => if i == id && id !in bus then [] else Since(size, front, id)
      case Publishes(channel, e, order) =>
        if On(bus, id, channel) && IsOrder(bus, channel, order) then Since(size, front, id) + [e]
        else Since(size, front, id)
      case _ => Since(size, front, id)
  }

  lemma {:induction false} FeedSnoc<E>(f: Feed<E>, size: int, os: seq<Op<E>>, o: Op<E>)
    ensures Feeds.Run(f, size, os + [o]) == Feeds.Step(Feeds.Run(f, size, os), size, o)
    decreases |os|
  {
    hide Feeds.Step;
    if os == [] {
      assert [o][1..] == [];
    } else {
      assert (os + [o])[1..] == os[1..] + [o];
      FeedSnoc(Feeds.Step(f, size, os[0]), size, os[1..], o);
    }
  }

  /** Whatever the others do, a subscriber's feed is one of the runs of a single feed. */
  lemma {:induction false} SubscriberSeesFeed<E>(size: int, ops: seq<BusOp<E>>, id: nat) returns (os: seq<Op<E>>)
    requires id in Run(size, ops)
    ensures Run(size, ops)[id].feed == Feeds.Run(Subscribed(), size, os)
    ensures Run(size, ops)[id].feed.published == Since(size, ops, id)
  {
    hide IsOrder, EarlierFull, Feeds.Run;
    var front, op := ops[..|ops| - 1], ops[|ops| - 1];
    var bus := Run(size, front);
    if id !in bus {
      os := [];
      FreshFeed<E>(size);
    } else {
      os := SubscriberSeesFeed(size, front, id);
      match op {
        case Publishes(channel, e, order) =>
          if On(bus, id, channel) && IsOrder(bus, channel, order) {
            FeedSnoc(Subscribed(), size, os, Feeds.Publish(e, EarlierFull(bus, order, size, id)));
            os := os + [Feeds.Publish(e, EarlierFull(bus, order, size, id))];
          }
        case Takes(i) =>
          if i == id {
            FeedSnoc(Subscribed(), size, os, Get);
            os := os + [Get];
          }
        case _ =>
      }
    }
  }

  lemma FreshFeed<E>(size: int)
    ensures Feeds.Run<E>(Subscribed(), size, []) == Subscribed()
  {
  }

  /**
   * In every run of the bus each subscriber's queue is a contiguous suffix, within the bound, of what was published
   * on its channel since it came; every other event was taken or lost, and each loss is announced.
   */
  lemma EverySubscriberIsServed<E>(size: int, ops: seq<BusOp<E>>, id: nat)
    requires id in Run(size, ops)
    ensures var f := Run(size, ops)[id].feed;
      f.published == Since(size, ops, id) && QueueIsSuffix(f, size) && Accounted(f) && LossAnnounced(f)
  {
    var os := SubscriberSeesFeed(size, ops, id);
    RunKeeps(Subscribed<E>(), size, os);
  }
}
