/** One forwarded TCP connection (`ch_vpn_socket_proxy_t`) and its bounded
    outbound packet queue: the `pkt_out` array of 100 slots, of which the
    first `pkt_out_size` are in use. A sent slot is set to null in place, so
    the queue is a sequence of optional packets whose length is `pkt_out_size`. */
module ProxyQueue {
  import opened Bytes
  import opened Wire

  /** PROXY_PKT_BUFFER_SIZE. */
  const QueueCapacity: nat := 100

  datatype Proxy = Proxy(
    id: i32,                       // the peer's socket id
    sock: int,                     // the native socket
    ch: nat,                       // the owning channel
    signalToDelete: bool,
    queue: seq<Option<Packet>>,
    bytesSent: u64,                // uint64_t: wraps at 2^64
    lastUsed: int)

  /** A RECV packet carrying bytes read from the forwarded socket. */
  function RecvPacket(id: i32, data: seq<byte>): (p: Packet)
    ensures p.header.sockId == id && p.header.opCode == OpRecv
    ensures DataSize(p.header) == Trunc32(|data|) && p.data == data
  {
    Packet(DataHeader(id, OpRecv, Trunc32(|data|)), data)
  }

  /** The DISCONNECT packet queued when the forwarded socket goes away:
      zeroed header, no payload. */
  function DisconnectPacket(id: i32): (p: Packet)
    ensures p.header.sockId == id && p.header.opCode == OpDisconnect
    ensures DataSize(p.header) == 0 && p.data == []
  {
    Packet(BareHeader(id, OpDisconnect), [])
  }

  datatype WriteOutcome = WriteOutcome(proxy: Proxy, ret: int)

  /** `stream_sf_socket_write`: -1 when 100 or more slots are in use, -2 for
      any op code other than RECV, otherwise the packet is appended and the
      new slot count returned. The op code is a `uint8_t` parameter, so a
      caller's wider value arrives truncated to its low byte. */
  function SocketWrite(p: Proxy, op: byte, data: seq<byte>): (w: WriteOutcome)
    ensures w.ret == -1 <==> |p.queue| >= QueueCapacity
    ensures |p.queue| >= QueueCapacity ==> w.ret == -1 && w.proxy == p
    ensures |p.queue| < QueueCapacity && op != OpRecv ==> w.ret == -2 && w.proxy == p
    ensures w.ret > 0 <==> |p.queue| < QueueCapacity && op == OpRecv
    ensures w.ret > 0 ==>
      && w.proxy == p.(queue := p.queue + [Some(RecvPacket(p.id, data))])
      && w.ret == |w.proxy.queue| <= QueueCapacity
  {
    if |p.queue| >= QueueCapacity then WriteOutcome(p, -1)
    else if op != OpRecv then WriteOutcome(p, -2)
    else
      var p' := p.(queue := p.queue + [Some(RecvPacket(p.id, data))]);
      WriteOutcome(p', |p'.queue|)
  }

  /** A successful write queues exactly one RECV packet carrying the bytes,
      behind every packet already pending; a failed one queues nothing. */
  lemma SocketWritePending(p: Proxy, op: byte, data: seq<byte>)
    ensures var w := SocketWrite(p, op, data);
            && (w.ret > 0 ==> Pending(w.proxy.queue) == Pending(p.queue) + [RecvPacket(p.id, data)])
            && (w.ret <= 0 ==> Pending(w.proxy.queue) == Pending(p.queue))
  {
    var w := SocketWrite(p, op, data);
    if w.ret > 0 {
      PendingAppend(p.queue, [Some(RecvPacket(p.id, data))]);
      assert Pending([Some(RecvPacket(p.id, data))]) == [RecvPacket(p.id, data)];
    }
  }

  /** The queue part of `stream_sf_disconnect`: append a DISCONNECT packet
      with no bound check and mark the proxy for deletion. */
  function SignalDisconnect(p: Proxy): (p': Proxy)
    ensures p'.queue == p.queue + [Some(DisconnectPacket(p.id))]
    ensures p'.signalToDelete
    ensures p' == p.(queue := p'.queue, signalToDelete := true)
  {
    p.(queue := p.queue + [Some(DisconnectPacket(p.id))], signalToDelete := true)
  }

  /** The queued packets still to be sent, in slot order. */
  function Pending(q: seq<Option<Packet>>): (r: seq<Packet>)
    ensures |r| <= |q|
  {
    if |q| == 0 then []
    else
      match q[0]
      case None => Pending(q[1..])
      case Some(p) => [p] + Pending(q[1..])
  }

  lemma {:induction false} PendingAppend(q: seq<Option<Packet>>, r: seq<Option<Packet>>)
    ensures Pending(q + r) == Pending(q) + Pending(r)
  {
    if |q| > 0 {
      assert (q + r)[1..] == q[1..] + r;
      PendingAppend(q[1..], r);
    } else {
      assert q + r == r;
    }
  }

  /** The result of offering one proxy's queue to the transport. */
  datatype QueueFlush = QueueFlush(queue: seq<Option<Packet>>, sent: seq<Packet>, refused: bool)

  /** The inner loop of `ch_sf_packet_out` over one queue, with a transport
      that accepts `room` more packets: null slots are skipped, each accepted
      packet's slot is nulled, and the first refusal stops the walk with the
      rest of the queue untouched. */
  function FlushQueue(q: seq<Option<Packet>>, room: nat): (f: QueueFlush)
    ensures |f.queue| == |q| && |f.sent| <= room
  {
    if |q| == 0 then QueueFlush([], [], false)
    else
      match q[0]
      case None =>
        var rest := FlushQueue(q[1..], room);
        QueueFlush([None] + rest.queue, rest.sent, rest.refused)
      case Some(p) =>
        if room == 0 then QueueFlush(q, [], true)
        else
          var rest := FlushQueue(q[1..], room - 1);
          QueueFlush([None] + rest.queue, [p] + rest.sent, rest.refused)
  }

  /** What one queue's flush does: the transport gets the first `room`
      pending packets in slot order, the walk is refused exactly when more
      are pending than there is room for, and what stays pending is the
      rest, in order. */
  lemma FlushQueueSpec(q: seq<Option<Packet>>, room: nat)
    ensures var f := FlushQueue(q, room);
            && f.sent == Pending(q)[..Min(room, |Pending(q)|)]
            && (f.refused <==> room < |Pending(q)|)
            && Pending(f.queue) == Pending(q)[|f.sent|..]
  {
    FlushQueueSends(q, room);
    FlushQueueLeaves(q, room);
  }

  /** The packets one queue's flush hands over, and when it is refused. */
  lemma {:induction false} FlushQueueSends(q: seq<Option<Packet>>, room: nat)
    ensures var f := FlushQueue(q, room);
            && f.sent == Pending(q)[..Min(room, |Pending(q)|)]
            && (f.refused <==> room < |Pending(q)|)
    decreases |q|
  {
    if |q| > 0 {
      match q[0]
      case None =>
        FlushQueueSends(q[1..], room);
        assert Pending(q) == Pending(q[1..]);
      case Some(p) =>
        var P := Pending(q[1..]);
        assert Pending(q) == [p] + P;
        if room > 0 {
          FlushQueueSends(q[1..], room - 1);
          assert [p] + P[..Min(room - 1, |P|)] == ([p] + P)[..Min(room, |P| + 1)];
        }
    }
  }

  /** What one queue's flush leaves pending: the packets it did not hand
      over, in order. */
  lemma {:induction false} FlushQueueLeaves(q: seq<Option<Packet>>, room: nat)
    ensures var f := FlushQueue(q, room);
            |f.sent| <= |Pending(q)| && Pending(f.queue) == Pending(q)[|f.sent|..]
    decreases |q|
  {
    if |q| > 0 {
      match q[0]
      case None =>
        var rest := FlushQueue(q[1..], room);
        FlushQueueLeaves(q[1..], room);
        assert ([None] + rest.queue)[1..] == rest.queue;
      case Some(p) =>
        if room > 0 {
          var rest := FlushQueue(q[1..], room - 1);
          FlushQueueLeaves(q[1..], room - 1);
          assert ([None] + rest.queue)[1..] == rest.queue;
        }
    }
  }

  /** A queue the transport took in full holds no packet any more. */
  lemma FlushedQueueIsEmpty(q: seq<Option<Packet>>, room: nat)
    requires !FlushQueue(q, room).refused
    ensures Pending(FlushQueue(q, room).queue) == []
    ensures FlushQueue(q, room).sent == Pending(q)
  {
    FlushQueueSpec(q, room);
  }

  /** Two flushes in a row, with a refusal in between, hand over the same
      packets in the same order as one flush with the combined room: a
      partial flush never reorders or drops queued packets. */
  lemma SplitFlushPreservesOrder(q: seq<Option<Packet>>, a: nat, b: nat)
    ensures var f1 := FlushQueue(q, a);
            var f2 := FlushQueue(f1.queue, b);
            f1.sent + f2.sent == FlushQueue(q, a + b).sent
  {
    var P := Pending(q);
    var f1 := FlushQueue(q, a);
    FlushQueueSends(q, a);
    FlushQueueLeaves(q, a);
    FlushQueueSends(f1.queue, b);
    FlushQueueSends(q, a + b);
    TakeTwice(P, a, b);
  }

  /** Taking `a` and then `b` more from what is left takes `a + b`. */
  lemma TakeTwice(P: seq<Packet>, a: nat, b: nat)
    ensures var k := Min(a, |P|);
            P[..k] + P[k..][..Min(b, |P| - k)] == P[..Min(a + b, |P|)]
  {
    var k := Min(a, |P|);
    assert P[..k] + P[k..][..Min(b, |P| - k)] == P[..k + Min(b, |P| - k)];
  }
}
