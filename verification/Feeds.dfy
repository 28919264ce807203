/** What one subscriber of `EventBroadcaster` sees over time. */
module Feeds {

  datatype Frame<+E> = Frame(event: E, dropped: bool)

  /** A queue with `maxsize <= 0` is unbounded. */
  predicate Full<E>(queue: seq<E>, size: int) { size > 0 && |queue| >= size }

  /** Make room by dropping the oldest frame, then append. */
  function Push<E>(queue: seq<Frame<E>>, size: int, f: Frame<E>): seq<Frame<E>> {
    (if Full(queue, size) then queue[1..] else queue) + [f]
  }

  /** One `publish` over the subscribers in iteration order: once one queue was full,
      the payload carries the flag for that queue and for all later ones. */
  function PublishAll<E>(queues: seq<seq<Frame<E>>>, size: int, e: E, flagged: bool): seq<seq<Frame<E>>> {
    if queues == [] then []
    else
      var flag := flagged || Full(queues[0], size);
      [Push(queues[0], size, Frame(e, flag))] + PublishAll(queues[1..], size, e, flag)
  }

  /** Every subscriber gets the event, flagged exactly when it or an earlier one was full. */
  lemma {:induction false} PublishAllAt<E>(queues: seq<seq<Frame<E>>>, size: int, e: E, flagged: bool, i: nat)
    requires i < |queues|
    ensures |PublishAll(queues, size, e, flagged)| == |queues|
    ensures PublishAll(queues, size, e, flagged)[i]
         == Push(queues[i], size, Frame(e, flagged || exists j: nat | j <= i :: Full(queues[j], size)))
  {
    var flag := flagged || Full(queues[0], size);
    if i == 0 {
      PublishAllLength(queues, size, e, flagged);
    } else {
      PublishAllAt(queues[1..], size, e, flag, i - 1);
      assert (exists j: nat | j <= i :: Full(queues[j], size))
        <==> Full(queues[0], size) || exists j: nat | j <= i - 1 :: Full(queues[1..][j], size) by {
        if j: nat :| j <= i && Full(queues[j], size) { if j > 0 { assert queues[1..][j - 1] == queues[j]; } }
        if j: nat :| j <= i - 1 && Full(queues[1..][j], size) { assert queues[j + 1] == queues[1..][j]; }
      }
    }
  }

  lemma {:induction false} PublishAllLength<E>(queues: seq<seq<Frame<E>>>, size: int, e: E, flagged: bool)
    ensures |PublishAll(queues, size, e, flagged)| == |queues|
  {
    if queues != [] { PublishAllLength(queues[1..], size, e, flagged || Full(queues[0], size)); }
  }

  /** A subscriber can be told of a loss it did not have: the flag of an earlier one sticks. */
  lemma FlagWithoutLoss<E>(a: E, e: E)
    ensures var after := PublishAll([[Frame(a, false)], []], 1, e, false);
      after == [[Frame(e, true)], [Frame(e, true)]] && !Full<Frame<E>>([], 1)
  {
    var queues := [[Frame(a, false)], []];
    assert queues[1..] == [[]] && queues[1..][1..] == [];
    assert Push(queues[0], 1, Frame(e, true)) == [Frame(e, true)];
    assert Push<E>([], 1, Frame(e, true)) == [Frame(e, true)];
    assert PublishAll(queues[1..], 1, e, true) == [[Frame(e, true)]] + PublishAll(queues[1..][1..], 1, e, true);
    assert PublishAll(queues, 1, e, false) == [[Frame(e, true)]] + PublishAll(queues[1..], 1, e, true);
  }

  // ------------------------------------------------------------------ one subscription

  datatype Delivery<+E> = Delivery(index: nat, frame: Frame<E>)

  /** All events published since the subscription, the queue, what was taken and what was lost. */
  datatype Feed<E> = Feed(published: seq<E>, queue: seq<Frame<E>>, delivered: seq<Delivery<E>>, lost: set<nat>)

  datatype Op<E> = Publish(e: E, flagged: bool) | Get

  function Subscribed<E>(): Feed<E> { Feed([], [], [], {}) }

  /** Index in `published` of the head of the queue. */
  function Head<E>(f: Feed<E>): int { |f.published| - |f.queue| }

  function PublishStep<E>(f: Feed<E>, size: int, e: E, flagged: bool): Feed<E> {
    var full := Full(f.queue, size);
    f.(published := f.published + [e],
       queue := Push(f.queue, size, Frame(e, flagged || full)),
       lost := if full && Head(f) >= 0 then f.lost + {Head(f)} else f.lost)
  }

  function GetStep<E>(f: Feed<E>): Feed<E> {
    if f.queue == [] || Head(f) < 0 then f
    else f.(queue := f.queue[1..], delivered := f.delivered + [Delivery(Head(f), f.queue[0])])
  }

  function Step<E>(f: Feed<E>, size: int, op: Op<E>): Feed<E> {
    match op
    case Publish(e, flagged) => PublishStep(f, size, e, flagged)
    case Get => GetStep(f)
  }

  function Run<E>(f: Feed<E>, size: int, ops: seq<Op<E>>): Feed<E>
    decreases |ops|
  {
    if ops == [] then f else Run(Step(f, size, ops[0]), size, ops[1..])
  }

  /** The queue is the contiguous suffix of what was published, within the bound. */
  ghost predicate QueueIsSuffix<E>(f: Feed<E>, size: int) {
    && |f.queue| <= |f.published|
    && (size > 0 ==> |f.queue| <= size)
    && forall i | 0 <= i < |f.queue| :: f.queue[i].event == f.published[Head(f) + i]
  }

  /** Every event before the head was either delivered, in order, or lost; none was both. */
  ghost predicate Accounted<E>(f: Feed<E>) {
    && (forall i | 0 <= i < |f.delivered| ::
          f.delivered[i].index < Head(f) && f.delivered[i].index < |f.published|
          && f.delivered[i].frame.event == f.published[f.delivered[i].index])
    && (forall i, j | 0 <= i < j < |f.delivered| :: f.delivered[i].index < f.delivered[j].index)
    && (forall k | k in f.lost :: k < Head(f) && !WasDelivered(f, k))
    && (forall k: nat | k < Head(f) :: k in f.lost || WasDelivered(f, k))
  }

  ghost predicate WasDelivered<E>(f: Feed<E>, k: nat) {
    exists i | 0 <= i < |f.delivered| :: f.delivered[i].index == k
  }

  /** Index of the newest flagged frame that was taken, or -1. */
  function LastFlag<E>(delivered: seq<Delivery<E>>): int {
    if delivered == [] then -1
    else
      var d := delivered[|delivered| - 1];
      if d.frame.dropped then d.index else LastFlag(delivered[..|delivered| - 1])
  }

  /** A loss that no taken flag announced is announced by a flagged frame in the queue. */
  ghost predicate LossAnnounced<E>(f: Feed<E>) {
    (exists k | k in f.lost :: k > LastFlag(f.delivered)) ==> exists i | 0 <= i < |f.queue| :: f.queue[i].dropped
  }

  ghost predicate Inv<E>(f: Feed<E>, size: int) {
    QueueIsSuffix(f, size) && Accounted(f) && LossAnnounced(f)
  }

  lemma PublishKeeps<E>(f: Feed<E>, size: int, e: E, flagged: bool)
    requires Inv(f, size)
    ensures Inv(PublishStep(f, size, e, flagged), size)
  {
    var g := PublishStep(f, size, e, flagged);
    assert g.delivered == f.delivered;
    assert forall k: nat :: WasDelivered(g, k) <==> WasDelivered(f, k);
    assert g.queue[|g.queue| - 1] == Frame(e, flagged || Full(f.queue, size));
    if !Full(f.queue, size) {
      assert forall i | 0 <= i < |f.queue| :: g.queue[i] == f.queue[i];
    }
  }

  lemma GetKeeps<E>(f: Feed<E>, size: int)
    requires Inv(f, size)
    ensures Inv(GetStep(f), size)
  {
    if f.queue != [] {
      hide LossAnnounced;
      var g := GetStep(f);
      assert forall i | 0 <= i < |g.queue| :: g.queue[i] == f.queue[i + 1];
      GetAccounts(f, g, size);
      GetAnnounces(f, g);
    }
  }

  lemma GetAccounts<E>(f: Feed<E>, g: Feed<E>, size: int)
    requires QueueIsSuffix(f, size) && Accounted(f) && f.queue != [] && g == GetStep(f)
    ensures Accounted(g)
  {
    var n := |f.delivered|;
    assert g.delivered[n] == Delivery(Head(f), f.queue[0]);
    assert forall i | 0 <= i < n :: g.delivered[i] == f.delivered[i];
    forall k: nat ensures WasDelivered(g, k) <==> WasDelivered(f, k) || k == Head(f) {
      DeliveredMore(f, g, k);
    }
    hide WasDelivered;
    assert f.queue[0].event == f.published[Head(f)];
  }

  lemma DeliveredMore<E>(f: Feed<E>, g: Feed<E>, k: nat)
    requires f.queue != [] && Head(f) >= 0 && g == GetStep(f)
    ensures WasDelivered(g, k) <==> WasDelivered(f, k) || k == Head(f)
  {
    assert g.delivered[|f.delivered|].index == Head(f);
    if WasDelivered(f, k) {
      var i :| 0 <= i < |f.delivered| && f.delivered[i].index == k;
      assert g.delivered[i].index == k;
    }
  }

  lemma GetAnnounces<E>(f: Feed<E>, g: Feed<E>)
    requires LossAnnounced(f) && f.queue != [] && Head(f) >= 0 && g == GetStep(f)
    requires forall k | k in f.lost :: k < Head(f)
    ensures LossAnnounced(g)
  {
    assert g.delivered[..|f.delivered|] == f.delivered;
    if !f.queue[0].dropped && exists k | k in g.lost :: k > LastFlag(g.delivered) {
      var i :| 0 <= i < |f.queue| && f.queue[i].dropped;
      assert g.queue[i - 1] == f.queue[i];
    }
  }

  lemma {:induction false} RunKeeps<E>(f: Feed<E>, size: int, ops: seq<Op<E>>)
    requires Inv(f, size)
    ensures Inv(Run(f, size, ops), size)
    decreases |ops|
  {
    hide Inv;
    if ops != [] {
      StepKeepsInv(f, size, ops[0]);
      RunKeeps(Step(f, size, ops[0]), size, ops[1..]);
    }
  }

  /** Over every run of publish and get, the queue is a contiguous suffix of what was published since
      the subscription, never longer than the bound, and every other event was delivered or lost. */
  lemma QueueAlwaysSuffix<E>(size: int, ops: seq<Op<E>>)
    ensures QueueIsSuffix(Run(Subscribed<E>(), size, ops), size) && Accounted(Run(Subscribed<E>(), size, ops))
  {
    RunKeeps(Subscribed<E>(), size, ops);
  }

  /** If an event newer than the last flagged frame taken was lost, the queue holds a flagged
      frame that is newer than every lost event. */
  lemma LossIsAnnounced<E>(size: int, ops: seq<Op<E>>, k: nat)
    requires k in Run(Subscribed<E>(), size, ops).lost
    requires k > LastFlag(Run(Subscribed<E>(), size, ops).delivered)
    ensures var f := Run(Subscribed<E>(), size, ops);
      exists i | 0 <= i < |f.queue| :: f.queue[i].dropped && forall m | m in f.lost :: Head(f) + i > m
  {
    RunKeeps(Subscribed<E>(), size, ops);
    var f := Run(Subscribed<E>(), size, ops);
    var i :| 0 <= i < |f.queue| && f.queue[i].dropped;
    assert forall m | m in f.lost :: Head(f) + i > m;
  }

  lemma {:induction false} LastFlagTaken<E>(delivered: seq<Delivery<E>>)
    ensures LastFlag(delivered) >= 0 ==>
      exists i | 0 <= i < |delivered| :: delivered[i].frame.dropped && delivered[i].index == LastFlag(delivered)
  {
    if delivered != [] && !delivered[|delivered| - 1].frame.dropped {
      var front := delivered[..|delivered| - 1];
      LastFlagTaken(front);
      if LastFlag(delivered) >= 0 {
        var i :| 0 <= i < |front| && front[i].frame.dropped && front[i].index == LastFlag(front);
        assert delivered[i] == front[i];
      }
    } else if delivered != [] {
      assert delivered[|delivered| - 1].index == LastFlag(delivered);
    }
  }

  /** A subscriber that has drained its queue and lost anything has seen a flag newer than every loss. */
  lemma DrainedKnowsItsLoss<E>(size: int, ops: seq<Op<E>>)
    requires Run(Subscribed<E>(), size, ops).queue == [] && Run(Subscribed<E>(), size, ops).lost != {}
    ensures var f := Run(Subscribed<E>(), size, ops);
      exists i | 0 <= i < |f.delivered| ::
        f.delivered[i].frame.dropped && forall m | m in f.lost :: f.delivered[i].index > m
  {
    RunKeeps(Subscribed<E>(), size, ops);
    var f := Run(Subscribed<E>(), size, ops);
    LastFlagTaken(f.delivered);
    forall m | m in f.lost ensures m <= LastFlag(f.delivered) {}
    var m :| m in f.lost;
    var i :| 0 <= i < |f.delivered| && f.delivered[i].frame.dropped && f.delivered[i].index == LastFlag(f.delivered);
    assert WasDelivered(f, f.delivered[i].index);
  }

  /** The newest event is never the one that is dropped. */
  ghost predicate NewestKept<E>(f: Feed<E>) {
    f.published != [] && f.queue == [] ==>
      f.delivered != [] && f.delivered[|f.delivered| - 1].index == |f.published| - 1
  }

  lemma StepKeepsNewest<E>(f: Feed<E>, size: int, op: Op<E>)
    requires NewestKept(f) && QueueIsSuffix(f, size)
    ensures NewestKept(Step(f, size, op))
  {
  }

  lemma StepKeepsInv<E>(f: Feed<E>, size: int, op: Op<E>)
    requires Inv(f, size)
    ensures Inv(Step(f, size, op), size)
  {
    hide Inv;
    match op { case Publish(e, flagged) => PublishKeeps(f, size, e, flagged); case Get => GetKeeps(f, size); }
  }
}
