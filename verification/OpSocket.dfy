/** `op_event_stream` and its drain task on the objects they share. */
module OpSocket {
  import opened Options
  import opened Feeds
  import opened Broadcaster
  import opened Operations

  /** The client's end: what it was sent, and when it stops accepting. */
  class Socket {
    var sent: seq<Frame<OpStatus>>

    constructor ()
      ensures sent == []
    {
      sent := [];
    }

    method SendJson(f: Frame<OpStatus>)
      modifies this
      ensures sent == old(sent) + [f]
    {
      sent := sent + [f];
    }
  }

  function Snapshot(op: Option<OpStatus>): seq<Frame<OpStatus>> {
    match op case Some(s) => [Frame(s, false)] case None => []
  }

  /** `op_channel` */
  function OpChannel(opId: string): string { "op:" + opId }

  /** Up to the start of the drain task: the queue is subscribed before the registry is read. */
  method OpenOpStream(bus: EventBroadcaster<OpStatus>, reg: OpRegistry, socket: Socket, opId: string, user: string)
    returns (queue: EventQueue<OpStatus>)
    requires bus.Valid()
    modifies bus, socket
    ensures bus.Valid() && fresh(queue) && queue.items == []
    ensures bus.SubsOf(OpChannel(opId)) == old(bus.SubsOf(OpChannel(opId))) + {queue}
    ensures forall other | other != OpChannel(opId) :: bus.SubsOf(other) == old(bus.SubsOf(other))
    ensures socket.sent == old(socket.sent) + Snapshot(Operations.Get(reg.ops, opId, user))
  {
    queue := bus.Subscribe(OpChannel(opId));
    var snap := reg.GetOp(opId, user);
    if snap.Some? { socket.SendJson(Frame(snap.value, false)); }
  }

  /**
   * `_drain_to_socket` over the frames that are waiting: they are sent in order until the queue is empty or the
   * socket refuses one, which is then gone.
   */
  method DrainToSocket(queue: EventQueue<OpStatus>, socket: Socket, accepts: nat -> bool) returns (n: nat, open: bool)
    modifies queue, socket
    ensures n <= |old(queue.items)| && socket.sent == old(socket.sent) + old(queue.items)[..n]
    ensures forall i: nat | i < n :: accepts(i)
    ensures open ==> n == |old(queue.items)| && queue.items == []
    ensures !open ==> n < |old(queue.items)| && !accepts(n) && queue.items == old(queue.items)[n + 1..]
  {
    ghost var waiting, before := queue.items, socket.sent;
    n := 0;
    while queue.items != []
      invariant n <= |waiting| && queue.items == waiting[n..]
      invariant socket.sent == before + waiting[..n]
      invariant forall i: nat | i < n :: accepts(i)
      decreases |queue.items|
    {
      var event := queue.GetNowait();
      if !accepts(n) { return n, false; }
      socket.SendJson(event);
      n := n + 1;
    }
    return n, true;
  }
}
