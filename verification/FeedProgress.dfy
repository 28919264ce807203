/** What subscribers get: everything, in order, unless a queue overflows; and the next event after they join. */
module FeedProgress {
  import opened Feeds
  import opened Bus

  // ------------------------------------------------------------------ lossless exactly without overflow

  /** At some publish the bounded queue was already at its bound. */
  predicate Overflows<E>(f: Feed<E>, size: int, ops: seq<Op<E>>)
    decreases |ops|
  {
    ops != []
    && ((ops[0].Publish? && 0 < size <= |f.queue|) || Overflows(Feeds.Step(f, size, ops[0]), size, ops[1..]))
  }

  function Taken<E>(f: Feed<E>): seq<E> {
    seq(|f.delivered|, i requires 0 <= i < |f.delivered| => f.delivered[i].frame.event)
  }

  function Waiting<E>(f: Feed<E>): seq<E> { seq(|f.queue|, i requires 0 <= i < |f.queue| => f.queue[i].event) }

  /** Everything published was taken or is waiting, in order. */
  ghost predicate Lossless<E>(f: Feed<E>) { Taken(f) + Waiting(f) == f.published }

  function Missing<E>(f: Feed<E>): int { |f.published| - |f.delivered| - |f.queue| }

  lemma StepCounts<E>(f: Feed<E>, size: int, op: Op<E>)
    requires |f.queue| <= |f.published|
    ensures |Feeds.Step(f, size, op).queue| <= |Feeds.Step(f, size, op).published|
    ensures Missing(Feeds.Step(f, size, op)) == Missing(f) + if op.Publish? && 0 < size <= |f.queue| then 1 else 0
  {
  }

  lemma StepKeepsLossless<E>(f: Feed<E>, size: int, op: Op<E>)
    requires |f.queue| <= |f.published| && Lossless(f) && !(op.Publish? && 0 < size <= |f.queue|)
    ensures Lossless(Feeds.Step(f, size, op))
  {
    var g := Feeds.Step(f, size, op);
    match op {
      case Publish(e, flagged) =>
        assert Taken(g) == Taken(f) && Waiting(g) == Waiting(f) + [e];
        assert Taken(f) + (Waiting(f) + [e]) == Taken(f) + Waiting(f) + [e];
      case Get =>
        if f.queue != [] {
          var x := f.queue[0].event;
          assert Taken(g) == Taken(f) + [x] && Waiting(f) == [x] + Waiting(g);
          assert Taken(f) + ([x] + Waiting(g)) == Taken(f) + [x] + Waiting(g);
        }
    }
  }

  lemma {:induction false} RunLoses<E>(f: Feed<E>, size: int, ops: seq<Op<E>>)
    requires |f.queue| <= |f.published| && Missing(f) >= 0
    ensures var g := Feeds.Run(f, size, ops);
      && Missing(g) >= Missing(f) && (Overflows(f, size, ops) ==> Missing(g) > Missing(f))
      && (Lossless(f) && !Overflows(f, size, ops) ==> Lossless(g))
    decreases |ops|
  {
    hide Feeds.Step, Lossless, Missing;
    if ops != [] {
      var g := Feeds.Step(f, size, ops[0]);
      StepCounts(f, size, ops[0]);
      if Lossless(f) && !(ops[0].Publish? && 0 < size <= |f.queue|) { StepKeepsLossless(f, size, ops[0]); }
      RunLoses(g, size, ops[1..]);
    }
  }

  /** A subscriber gets every event, in the order of publication, if and only if its queue never overflows. */
  lemma LosslessIff<E>(size: int, ops: seq<Op<E>>)
    ensures Lossless(Feeds.Run(Subscribed<E>(), size, ops)) <==> !Overflows(Subscribed<E>(), size, ops)
  {
    var f, g := Subscribed<E>(), Feeds.Run(Subscribed<E>(), size, ops);
    assert Taken(f) + Waiting(f) == [];
    RunLoses(f, size, ops);
    assert |Taken(g) + Waiting(g)| == |g.delivered| + |g.queue|;
  }

  /** An unbounded queue never overflows. */
  lemma UnboundedIsLossless<E>(size: int, ops: seq<Op<E>>)
    requires size <= 0
    ensures Lossless(Feeds.Run(Subscribed<E>(), size, ops))
  {
    NeverOverflows(Subscribed<E>(), size, ops);
    LosslessIff(size, ops);
  }

  lemma {:induction false} NeverOverflows<E>(f: Feed<E>, size: int, ops: seq<Op<E>>)
    requires size <= 0
    ensures !Overflows(f, size, ops)
    decreases |ops|
  {
    hide Feeds.Step;
    if ops != [] { NeverOverflows(Feeds.Step(f, size, ops[0]), size, ops[1..]); }
  }

  /** What a publish does to one queue: at the bound the oldest frame goes, and the new one is last and flagged. */
  lemma PublishedQueue<E>(size: int, ops: seq<Op<E>>, e: E, flagged: bool)
    ensures var q := Feeds.Run(Subscribed<E>(), size, ops).queue;
      var r := Feeds.Run(Subscribed<E>(), size, ops + [Feeds.Publish(e, flagged)]).queue;
      && (0 < size <= |q| ==> r == q[1..] + [Frame(e, true)])
      && (!(0 < size <= |q|) ==> r == q + [Frame(e, flagged)])
  {
    hide Feeds.Run;
    FeedSnoc(Subscribed(), size, ops, Feeds.Publish(e, flagged));
  }

  /** Taking as often as frames are waiting takes them all, oldest first. */
  lemma {:induction false} TakesAll<E>(f: Feed<E>, size: int)
    requires |f.queue| <= |f.published|
    ensures var g := Feeds.Run(f, size, seq(|f.queue|, _ => Get));
      && g.queue == [] && g.published == f.published && Taken(g) == Taken(f) + Waiting(f)
    decreases |f.queue|
  {
    var ops: seq<Op<E>> := seq(|f.queue|, _ => Get);
    if f.queue == [] {
      assert Taken(f) + Waiting(f) == Taken(f);
    } else {
      var g := Feeds.Step(f, size, Get);
      assert ops[0] == Get && ops[1..] == seq(|g.queue|, _ => Get);
      TakesAll(g, size);
      var x := f.queue[0].event;
      assert Taken(g) == Taken(f) + [x] && Waiting(f) == [x] + Waiting(g);
    }
  }

  // ------------------------------------------------------------------ the bus

  lemma BusSnoc<E>(size: int, ops: seq<BusOp<E>>, op: BusOp<E>)
    ensures Bus.Run(size, ops + [op]) == Bus.Step(Bus.Run(size, ops), size, op)
  {
    hide Bus.Step;
    assert (ops + [op])[..|ops|] == ops;
  }

  /** The subscribers of a channel can always be listed. */
  lemma {:induction false} OrderOf(ids: set<nat>) returns (order: seq<nat>)
    ensures forall id :: id in order <==> id in ids
    ensures forall i, j | 0 <= i < j < |order| :: order[i] != order[j]
    decreases |ids|
  {
    if ids == {} {
      order := [];
    } else {
      var id :| id in ids;
      var rest := OrderOf(ids - {id});
      order := [id] + rest;
    }
  }

  lemma OrderExists<E>(bus: Subscribers<E>, channel: string) returns (order: seq<nat>)
    ensures IsOrder(bus, channel, order)
  {
    order := OrderOf(set id | id in bus && bus[id].channel == channel);
  }

  /**
   * A publish reaches everybody on its channel and nobody else: each gets the event as the newest frame, everybody else
   * keeps what they had.
   */
  lemma PublishReaches<E>(size: int, ops: seq<BusOp<E>>, channel: string, e: E, order: seq<nat>, id: nat)
    requires IsOrder(Bus.Run(size, ops), channel, order) && id in Bus.Run(size, ops)
    ensures var bus, next := Bus.Run(size, ops), Bus.Run(size, ops + [Publishes(channel, e, order)]);
      && next.Keys == bus.Keys && next[id].channel == bus[id].channel
      && (bus[id].channel != channel ==> next[id] == bus[id])
      && (bus[id].channel == channel ==>
            next[id].feed.published == bus[id].feed.published + [e] && next[id].feed.delivered == bus[id].feed.delivered
            && next[id].feed.queue != [] && next[id].feed.queue[|next[id].feed.queue| - 1].event == e)
  {
    hide Bus.Run, IsOrder, EarlierFull;
    BusSnoc(size, ops, Publishes(channel, e, order));
  }

  /** Who joins has an empty queue, gets the next event of the channel, and takes it; who leaves is gone. */
  lemma JoinedGetsNext<E>(size: int, ops: seq<BusOp<E>>, id: nat, channel: string, e: E, order: seq<nat>)
    requires id !in Bus.Run(size, ops) && IsOrder(Bus.Run(size, ops + [Joins(id, channel)]), channel, order)
    ensures var joined := ops + [Joins(id, channel)];
      var took := joined + [Publishes(channel, e, order)] + [Takes(id)];
      && On(Bus.Run(size, joined), id, channel) && Bus.Run(size, joined)[id].feed.queue == []
      && id in Bus.Run(size, took) && Bus.Run(size, took)[id].feed.queue == []
      && Taken(Bus.Run(size, took)[id].feed) == [e]
      && Bus.Run(size, took + [Leaves(id)]) == Bus.Run(size, took) - {id}
  {
    hide Bus.Run, IsOrder, EarlierFull;
    var joined := ops + [Joins(id, channel)];
    var published := joined + [Publishes(channel, e, order)];
    BusSnoc(size, ops, Joins(id, channel));
    BusSnoc(size, joined, Publishes(channel, e, order));
    BusSnoc(size, published, Takes(id));
    BusSnoc(size, published + [Takes(id)], Leaves(id));
    assert Bus.Run(size, joined)[id] == Subscription(channel, Subscribed());
  }
}
