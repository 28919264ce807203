/** `EventBroadcaster`: one bounded queue per subscriber, changed in place by `publish`. */
module Broadcaster {
  import opened Feeds

  /** `asyncio.Queue`, as far as the broadcaster and its consumers use it. */
  class EventQueue<E> {
    const maxsize: int
    var items: seq<Frame<E>>

    constructor (maxsize: int)
      ensures items == [] && this.maxsize == maxsize
    {
      this.maxsize, items := maxsize, [];
    }

    method GetNowait() returns (f: Frame<E>)
      requires items != []
      modifies this
      ensures f == old(items[0]) && items == old(items)[1..]
    {
      f := items[0];
      items := items[1..];
    }

    method PutNowait(f: Frame<E>)
      modifies this
      ensures items == old(items) + [f]
    {
      items := items + [f];
    }
  }

  /** The contents of some queues, in order. */
  ghost function Contents<E>(qs: seq<EventQueue<E>>): (c: seq<seq<Frame<E>>>)
    reads qs
    ensures |c| == |qs| && forall i | 0 <= i < |qs| :: c[i] == qs[i].items
  {
    seq(|qs|, i requires 0 <= i < |qs| reads qs => qs[i].items)
  }

  class EventBroadcaster<E> {
    const queueSize: int
    var subs: map<string, set<EventQueue<E>>>

    ghost predicate Valid()
      reads this
    {
      forall ch | ch in subs :: subs[ch] != {} && forall q | q in subs[ch] :: q.maxsize == queueSize
    }

    ghost function SubsOf(ch: string): set<EventQueue<E>>
      reads this
    {
      if ch in subs then subs[ch] else {}
    }

    constructor (queueSize: int)
      ensures Valid() && subs == map[] && this.queueSize == queueSize
    {
      this.queueSize, subs := queueSize, map[];
    }

    /** Entering the context manager. */
    method Subscribe(ch: string) returns (queue: EventQueue<E>)
      requires Valid()
      modifies this
      ensures Valid() && fresh(queue) && queue.items == []
      ensures SubsOf(ch) == old(SubsOf(ch)) + {queue}
      ensures forall other | other != ch :: SubsOf(other) == old(SubsOf(other))
    {
      queue := new EventQueue<E>(queueSize);
      var current := if ch in subs then subs[ch] else {};
      subs := subs[ch := current + {queue}];
    }

    /** Leaving it: the channel goes with its last subscriber. */
    method Unsubscribe(ch: string, queue: EventQueue<E>)
      requires Valid()
      modifies this
      ensures Valid()
      ensures SubsOf(ch) == old(SubsOf(ch)) - {queue}
      ensures ch in subs <==> SubsOf(ch) != {}
      ensures forall other | other != ch :: SubsOf(other) == old(SubsOf(other))
    {
      var current := if ch in subs then subs[ch] else {};
      var remaining := current - {queue};
      if remaining == {} {
        subs := subs - {ch};
      } else {
        subs := subs[ch := remaining];
      }
    }

    /** Fans the event out.  `order` is the order in which the set was iterated, `was` the queues' old contents. */
    method Publish(ch: string, e: E)
      returns (delivered: nat, ghost order: seq<EventQueue<E>>, ghost was: map<EventQueue<E>, seq<Frame<E>>>)
      requires Valid()
      modifies SubsOf(ch)
      ensures Valid()
      ensures was.Keys == SubsOf(ch) && forall q | q in old(SubsOf(ch)) :: was[q] == old(q.items)
      ensures delivered == |order| && IsOrderOf(order, SubsOf(ch))
      ensures Contents(order) == PublishAll(Lookup(order, was), queueSize, e, false)
    {
      if ch !in subs {
        was, delivered, order := map[], 0, [];
        NothingServed(was, queueSize, e);
        return;
      }
      delivered, order, was := FanOut(subs[ch], queueSize, e);
    }
  }

  /** The loop of `publish` over the subscribers of one channel. */
  method FanOut<E>(targets: set<EventQueue<E>>, size: int, e: E)
    returns (delivered: nat, ghost order: seq<EventQueue<E>>, ghost was: map<EventQueue<E>, seq<Frame<E>>>)
    requires forall q | q in targets :: q.maxsize == size
    modifies targets
    ensures was.Keys == targets && forall q | q in targets :: was[q] == old(q.items)
    ensures delivered == |order| && IsOrderOf(order, targets)
    ensures Contents(order) == PublishAll(Lookup(order, was), size, e, false)
  {
    was := map q | q in targets :: q.items;
    delivered, order := 0, [];
    hide *;
    var rest := targets;
    var flagged := false;
    assert Serving(targets, rest, order, was, size, e, flagged) by { NothingServedYet(targets, was, size, e); }
    while rest != {}
      invariant rest <= targets && delivered == |order|
      invariant Serving(targets, rest, order, was, size, e, flagged)
      decreases |rest|
    {
      var q :| q in rest;
      flagged := ServeOne(targets, rest, q, order, was, size, e, flagged);
      delivered := delivered + 1;
      order := order + [q];
      rest := rest - {q};
    }
    AllServed(targets, order, was, size, e, flagged);
  }

  /** The queues in `order` have been served, those in `rest` are as they `were`. */
  ghost predicate Serving<E>(targets: set<EventQueue<E>>, rest: set<EventQueue<E>>, order: seq<EventQueue<E>>,
                             was: map<EventQueue<E>, seq<Frame<E>>>, size: int, e: E, flagged: bool)
    reads targets
  {
    && was.Keys == targets && rest <= targets && IsOrderOf(order, targets - rest)
    && (forall q | q in order :: q in was)
    && (forall q | q in rest :: q.items == was[q])
    && (flagged <==> AnyFull(Lookup(order, was), size))
    && Contents(order) == PublishAll(Lookup(order, was), size, e, false)
  }

  lemma NothingServedYet<E>(targets: set<EventQueue<E>>, was: map<EventQueue<E>, seq<Frame<E>>>, size: int, e: E)
    requires was.Keys == targets && forall q | q in targets :: was[q] == q.items
    ensures Serving(targets, targets, [], was, size, e, false)
  {
    NothingServed(was, size, e);
    assert targets - targets == {};
  }

  lemma AllServed<E>(targets: set<EventQueue<E>>, order: seq<EventQueue<E>>,
                     was: map<EventQueue<E>, seq<Frame<E>>>, size: int, e: E, flagged: bool)
    requires Serving(targets, {}, order, was, size, e, flagged)
    ensures IsOrderOf(order, targets) && forall q | q in order :: q in was
    ensures Contents(order) == PublishAll(Lookup(order, was), size, e, false)
  {
    hide IsOrderOf, PublishAll, AnyFull;
    assert targets - {} == targets;
  }

  /** The body of the loop, with what it adds to the queues served so far. */
  method ServeOne<E>(ghost targets: set<EventQueue<E>>, ghost rest: set<EventQueue<E>>, q: EventQueue<E>,
                     ghost order: seq<EventQueue<E>>, ghost was: map<EventQueue<E>, seq<Frame<E>>>,
                     ghost size: int, e: E, flagged: bool) returns (flag: bool)
    requires Serving(targets, rest, order, was, size, e, flagged) && q in rest && q.maxsize == size
    modifies q
    ensures Serving(targets, rest - {q}, order + [q], was, size, e, flag)
  {
    hide PublishAll, AnyFull, Full, Push, IsOrderOf;
    ghost var done := targets - rest;
    NotServedYet(order, done, q);
    ghost var served := PublishAll(Lookup(order, was), size, e, false);
    flag := PublishTo(q, e, flagged);
    assert Contents(order) == served;
    PublishSnoc(order, q, done, was, size, e, flag);
    assert targets - (rest - {q}) == done + {q};
  }

  /** One iteration of the loop in `publish`. */
  method PublishTo<E>(q: EventQueue<E>, e: E, flagged: bool) returns (flag: bool)
    modifies q
    ensures flag == (flagged || Full(old(q.items), q.maxsize))
    ensures q.items == Push(old(q.items), q.maxsize, Frame(e, flag))
  {
    flag := flagged;
    if q.maxsize > 0 && |q.items| >= q.maxsize {
      var _ := q.GetNowait();
      flag := true;
    }
    q.PutNowait(Frame(e, flag));
  }

  /** `order` lists the elements of `qs`, each once. */
  ghost predicate IsOrderOf<Q>(order: seq<Q>, qs: set<Q>) {
    (set q | q in order) == qs && forall i, j | 0 <= i < j < |order| :: order[i] != order[j]
  }

  lemma OrderSnoc<Q, V>(order: seq<Q>, q: Q, done: set<Q>, m: map<Q, V>)
    requires IsOrderOf(order, done) && q !in done && q in m && forall x | x in order :: x in m
    ensures IsOrderOf(order + [q], done + {q}) && forall x | x in order + [q] :: x in m
    ensures Lookup(order + [q], m) == Lookup(order, m) + [m[q]]
  {
    assert forall x | x in order :: x in done;
    assert forall x :: x in order + [q] <==> x in order || x == q;
  }

  lemma NotServedYet<Q>(order: seq<Q>, done: set<Q>, q: Q)
    requires IsOrderOf(order, done) && q !in done
    ensures q !in order
  {
  }

  lemma NothingServed<E>(was: map<EventQueue<E>, seq<Frame<E>>>, size: int, e: E)
    ensures Lookup([], was) == [] && Contents<E>([]) == []
    ensures !AnyFull<E>([], size) && PublishAll<E>([], size, e, false) == []
    ensures IsOrderOf<EventQueue<E>>([], {})
  {
  }

  /** One more queue served. */
  lemma PublishSnoc<E>(order: seq<EventQueue<E>>, q: EventQueue<E>, done: set<EventQueue<E>>,
                       was: map<EventQueue<E>, seq<Frame<E>>>, size: int, e: E, flag: bool)
    requires IsOrderOf(order, done) && q !in done && q in was && forall x | x in order :: x in was
    requires Contents(order) == PublishAll(Lookup(order, was), size, e, false)
    requires flag <==> AnyFull(Lookup(order, was), size) || Full(was[q], size)
    requires q.items == Push(was[q], size, Frame(e, flag))
    ensures IsOrderOf(order + [q], done + {q}) && forall x | x in order + [q] :: x in was
    ensures flag <==> AnyFull(Lookup(order + [q], was), size)
    ensures Contents(order + [q]) == PublishAll(Lookup(order + [q], was), size, e, false)
  {
    OrderSnoc(order, q, done, was);
    OrderGrows(Lookup(order, was), was[q], size, e);
    ContentsSnoc(order, q);
  }

  lemma ContentsSnoc<E>(order: seq<EventQueue<E>>, q: EventQueue<E>)
    ensures Contents(order + [q]) == Contents(order) + [q.items]
  {
  }

  ghost function Lookup<Q, V>(order: seq<Q>, m: map<Q, V>): (c: seq<V>)
    requires forall q | q in order :: q in m
    ensures |c| == |order| && forall i | 0 <= i < |order| :: c[i] == m[order[i]]
  {
    seq(|order|, i requires 0 <= i < |order| => m[order[i]])
  }

  ghost predicate AnyFull<E>(queues: seq<seq<Frame<E>>>, size: int) {
    exists i | 0 <= i < |queues| :: Full(queues[i], size)
  }

  lemma {:induction false} PublishAllSnoc<E>(
    queues: seq<seq<Frame<E>>>, last: seq<Frame<E>>, size: int, e: E, flagged: bool)
    ensures PublishAll(queues + [last], size, e, flagged)
         == PublishAll(queues, size, e, flagged)
            + [Push(last, size, Frame(e, flagged || AnyFull(queues, size) || Full(last, size)))]
  {
    if queues == [] {
      assert queues + [last] == [last] && [last][1..] == [];
    } else {
      assert (queues + [last])[1..] == queues[1..] + [last];
      var flag := flagged || Full(queues[0], size);
      PublishAllSnoc(queues[1..], last, size, e, flag);
      assert AnyFull(queues, size) <==> Full(queues[0], size) || AnyFull(queues[1..], size) by {
        if AnyFull(queues, size) {
          var i :| 0 <= i < |queues| && Full(queues[i], size);
          if i > 0 { assert queues[1..][i - 1] == queues[i]; }
        }
        if AnyFull(queues[1..], size) {
          var i :| 0 <= i < |queues[1..]| && Full(queues[1..][i], size);
          assert queues[i + 1] == queues[1..][i];
        }
      }
    }
  }

  lemma OrderGrows<E>(queues: seq<seq<Frame<E>>>, last: seq<Frame<E>>, size: int, e: E)
    ensures AnyFull(queues + [last], size) <==> AnyFull(queues, size) || Full(last, size)
    ensures PublishAll(queues + [last], size, e, false)
         == PublishAll(queues, size, e, false) + [Push(last, size, Frame(e, AnyFull(queues, size) || Full(last, size)))]
  {
    PublishAllSnoc(queues, last, size, e, false);
    var all := queues + [last];
    if AnyFull(queues, size) {
      var i :| 0 <= i < |queues| && Full(queues[i], size);
      assert all[i] == queues[i];
    }
    if Full(last, size) { assert all[|queues|] == last; }
  }
}
