/** The proxy event loop of `ch_sf_thread`, one event at a time. The event
    names a native socket and carries the epoll flags; the socket is looked
    up in the global index by socket. An unknown socket is dropped from the
    interest set; an error flag disconnects the proxy; a readable socket is
    read (the bytes `recv` returned are a parameter, empty when the peer
    closed or the call failed) into the proxy's queue unless the queue is
    nearly full. */
module Events {
  import opened Bytes
  import opened Wire
  import opened ProxyQueue
  import opened Engine

  /** The size of the receive buffer `buf[1024 * 512]`. */
  const RecvBufSize: nat := 512 * 1024

  const EpollIn: u32 := 0x001
  const EpollErr: u32 := 0x008

  /** `events & flag` for a single-bit flag. */
  predicate HasFlag(events: u32, flag: u32)
    requires flag == EpollIn || flag == EpollErr
  {
    (events / flag) % 2 == 1
  }

  /** `HASH_FIND(hh_sock, ...)` over the global index by socket. The model
      scans the index in the order it keeps and returns the first entry
      whose proxy has socket `fd`; uthash's own order among equal keys is
      its bucket chain's, newest first. Without stale entries at most one
      indexed proxy has a given socket (`FindBySockUnique`), so the order
      decides nothing there. */
  function FindBySock(e: VpnState, hs: seq<Handle>, fd: int): (r: Option<Handle>)
    ensures r.Some? ==> r.value in hs && r.value in e.arena && e.arena[r.value].sock == fd
    ensures r.None? <==> forall h :: h in hs && h in e.arena ==> e.arena[h].sock != fd
  {
    if |hs| == 0 then None
    else if hs[0] in e.arena && e.arena[hs[0]].sock == fd then Some(hs[0])
    else FindBySock(e, hs[1..], fd)
  }

  /** `stream_sf_disconnect`: take the socket out of the interest set,
      append the DISCONNECT packet with no bound check and mark the proxy
      for deletion. */
  function StreamDisconnect(e: VpnState, h: Handle): (e': VpnState)
    requires h in e.arena
    ensures e'.polled == e.polled - {e.arena[h].sock}
    ensures e'.arena == e.arena[h := SignalDisconnect(e.arena[h])]
    ensures e' == e.(polled := e'.polled, arena := e'.arena)
  {
    e.(polled := e.polled - {e.arena[h].sock}, arena := e.arena[h := SignalDisconnect(e.arena[h])])
  }

  /** What handling one event did: a step, or the dereference of a proxy
      that was already freed (the global index still referred to it). */
  datatype EventStep = Handled(step: Step) | UseAfterFree(h: Handle)

  /** The body of the event loop for one event. */
  function SockEvent(e: VpnState, fd: int, events: u32, recv: seq<byte>): (r: EventStep)
    requires |recv| <= RecvBufSize
    ensures r.Handled? ==> r.step.out == []
  {
    match FindBySock(e, e.bySock, fd)
    case None => Handled(Step(e.(polled := e.polled - {fd}), []))
    case Some(h) =>
      if h !in e.live then UseAfterFree(h)
      else if HasFlag(events, EpollErr) then Handled(Step(StreamDisconnect(e, h), []))
      else if HasFlag(events, EpollIn) then
        var p := e.arena[h];
        if |p.queue| >= QueueCapacity - 1 then Handled(Step(e, []))
        else if |recv| > 0 then
          var p' := p.(queue := p.queue + [Some(RecvPacket(p.id, recv))]);
          Handled(Step(SetReady(e.(arena := e.arena[h := p']), p.ch, true), []))
        else
          Handled(Step(StreamDisconnect(SetReady(e, p.ch, true), h), []))
      else Handled(Step(e, []))
  }

  // ---------------------------------------------------------------------
  // What one event does.

  /** The model's scan returns the first entry with the socket in the
      index's order. */
  lemma {:induction false} FindBySockFirst(e: VpnState, hs: seq<Handle>, fd: int)
    ensures var r := FindBySock(e, hs, fd);
            r.Some? ==> exists k :: 0 <= k < |hs| && hs[k] == r.value &&
                          forall j :: 0 <= j < k ==> hs[j] !in e.arena || e.arena[hs[j]].sock != fd
  {
    if |hs| > 0 && !(hs[0] in e.arena && e.arena[hs[0]].sock == fd) {
      FindBySockFirst(e, hs[1..], fd);
      var r := FindBySock(e, hs, fd);
      if r.Some? {
        var k :| 0 <= k < |hs[1..]| && hs[1..][k] == r.value &&
                 forall j :: 0 <= j < k ==> hs[1..][j] !in e.arena || e.arena[hs[1..][j]].sock != fd;
        assert hs[k + 1] == r.value;
        forall j | 0 <= j < k + 1 ensures hs[j] !in e.arena || e.arena[hs[j]].sock != fd {
          if j > 0 { assert hs[j] == hs[1..][j - 1]; }
        }
      }
    } else if |hs| > 0 {
      assert hs[0] == FindBySock(e, hs, fd).value;
    }
  }

  /** With the invariant and no stale index entry, the proxy the lookup
      finds is the only indexed proxy with that socket: any entry carrying
      the socket is the one returned, whatever order the hash table keeps. */
  lemma FindBySockUnique(e: VpnState, fd: int)
    requires Inv(e) && NoStale(e)
    ensures forall h :: h in e.bySock && e.arena[h].sock == fd ==> FindBySock(e, e.bySock, fd) == Some(h)
  {
    forall h | h in e.bySock && e.arena[h].sock == fd
      ensures FindBySock(e, e.bySock, fd) == Some(h)
    {
      var r := FindBySock(e, e.bySock, fd);
      assert r.Some?;
      assert r.value in e.live && h in e.live;
    }
  }

  /** Bytes read from a live proxy's socket are queued behind what was
      already pending, as one RECV packet carrying exactly those bytes, and
      the channel is flagged ready; nothing else changes. */
  lemma RecvQueuesBehind(e: VpnState, fd: int, events: u32, recv: seq<byte>, h: Handle)
    requires |recv| <= RecvBufSize && 0 < |recv|
    requires FindBySock(e, e.bySock, fd) == Some(h) && h in e.live
    requires !HasFlag(events, EpollErr) && HasFlag(events, EpollIn)
    requires |e.arena[h].queue| < QueueCapacity - 1
    ensures var r := SockEvent(e, fd, events, recv);
            var p := e.arena[h];
            && r.Handled?
            && h in r.step.state.arena
            && Pending(r.step.state.arena[h].queue) == Pending(p.queue) + [RecvPacket(p.id, recv)]
            && r.step.state.arena[h] == p.(queue := r.step.state.arena[h].queue)
            && (forall x :: x in e.arena && x != h ==> r.step.state.arena[x] == e.arena[x])
            && (p.ch in e.chans ==> r.step.state.chans[p.ch].readyToWrite)
            && r.step.state.polled == e.polled && r.step.state.live == e.live
            && r.step.state.bySock == e.bySock && r.step.state.byId == e.byId
  {
    var p := e.arena[h];
    var q := p.queue + [Some(RecvPacket(p.id, recv))];
    PendingAppend(p.queue, [Some(RecvPacket(p.id, recv))]);
    assert Pending([Some(RecvPacket(p.id, recv))]) == [RecvPacket(p.id, recv)];
  }

  /** A queue holding 99 or more entries stops the read: the event is
      dropped and the state is left as it was. */
  lemma NearlyFullQueueSkipsRead(e: VpnState, fd: int, events: u32, recv: seq<byte>, h: Handle)
    requires |recv| <= RecvBufSize
    requires FindBySock(e, e.bySock, fd) == Some(h) && h in e.live
    requires !HasFlag(events, EpollErr) && HasFlag(events, EpollIn)
    requires |e.arena[h].queue| >= QueueCapacity - 1
    ensures SockEvent(e, fd, events, recv) == Handled(Step(e, []))
  {
  }

  /** A readable socket that yields no bytes means the peer went away: the
      channel is flagged ready, the socket leaves the interest set, and a
      DISCONNECT for the peer's id is queued last with the proxy marked for
      deletion. An error flag does the same without the ready flag,
      whatever else is set. */
  lemma PeerGoneQueuesDisconnect(e: VpnState, fd: int, events: u32, recv: seq<byte>, h: Handle)
    requires |recv| <= RecvBufSize
    requires FindBySock(e, e.bySock, fd) == Some(h) && h in e.live
    requires HasFlag(events, EpollErr) ||
             (HasFlag(events, EpollIn) && |recv| == 0 && |e.arena[h].queue| < QueueCapacity - 1)
    ensures var r := SockEvent(e, fd, events, recv);
            var p := e.arena[h];
            && r.Handled?
            && h in r.step.state.arena
            && r.step.state.arena[h].signalToDelete
            && r.step.state.arena[h].queue == p.queue + [Some(DisconnectPacket(p.id))]
            && Pending(r.step.state.arena[h].queue) == Pending(p.queue) + [DisconnectPacket(p.id)]
            && fd !in r.step.state.polled
            && r.step.state.live == e.live
            && (!HasFlag(events, EpollErr) && p.ch in e.chans ==> r.step.state.chans[p.ch].readyToWrite)
            && (HasFlag(events, EpollErr) ==> r.step.state.chans == e.chans)
  {
    var p := e.arena[h];
    PendingAppend(p.queue, [Some(DisconnectPacket(p.id))]);
    assert Pending([Some(DisconnectPacket(p.id))]) == [DisconnectPacket(p.id)];
  }

  /** An event for a socket no proxy has only removes the socket from the
      interest set. */
  lemma UnknownSocketUnpolled(e: VpnState, fd: int, events: u32, recv: seq<byte>)
    requires |recv| <= RecvBufSize
    requires forall h :: h in e.bySock && h in e.arena ==> e.arena[h].sock != fd
    ensures SockEvent(e, fd, events, recv) == Handled(Step(e.(polled := e.polled - {fd}), []))
  {
  }

  // ---------------------------------------------------------------------
  // The registry invariant across an event.

  /** An event on a socket of the interest set keeps the invariant and
      never reaches a freed proxy while the indexes hold no stale entry. */
  lemma SockEventInv(e: VpnState, fd: int, events: u32, recv: seq<byte>)
    requires Inv(e) && NoStale(e) && fd in e.polled
    requires |recv| <= RecvBufSize
    ensures var r := SockEvent(e, fd, events, recv);
            r.Handled? && Inv(r.step.state) && NoStale(r.step.state)
  {
    var r := SockEvent(e, fd, events, recv);
    match FindBySock(e, e.bySock, fd)
    case None =>
      assert r == Handled(Step(e.(polled := e.polled - {fd}), []));
      UnpollInv(e, fd);
    case Some(h) =>
      assert h in e.live && LiveOk(e, h);
      var p := e.arena[h];
      assert !p.signalToDelete;
      if HasFlag(events, EpollErr) {
        assert r == Handled(Step(StreamDisconnect(e, h), []));
        StreamDisconnectInv(e, h);
      } else if HasFlag(events, EpollIn) && |p.queue| < QueueCapacity - 1 {
        if |recv| > 0 {
          AppendRecvInv(e, h, recv);
        } else {
          assert r == Handled(Step(StreamDisconnect(SetReady(e, p.ch, true), h), []));
          SetReadyKeeps(e, p.ch);
          StreamDisconnectInv(SetReady(e, p.ch, true), h);
        }
      } else {
        assert r == Handled(Step(e, []));
      }
  }

  lemma UnpollInv(e: VpnState, fd: int)
    requires Inv(e) && NoStale(e)
    ensures Inv(e.(polled := e.polled - {fd})) && NoStale(e.(polled := e.polled - {fd}))
  {
    var e' := e.(polled := e.polled - {fd});
    forall c | c in e'.chans ensures ChanOk(e', c) { assert ChanOk(e, c); }
    forall x | x in e'.live ensures LiveOk(e', x) { assert LiveOk(e, x); }
  }

  lemma SetReadyKeeps(e: VpnState, ch: ChanId)
    requires Inv(e) && NoStale(e)
    ensures var e' := SetReady(e, ch, true);
            Inv(e') && NoStale(e') && e'.arena == e.arena && e'.live == e.live && e'.polled == e.polled
  {
    var e' := SetReady(e, ch, true);
    forall c | c in e'.chans ensures ChanOk(e', c) { assert ChanOk(e, c); }
    forall x | x in e'.live ensures LiveOk(e', x) { assert LiveOk(e, x); }
  }

  /** Disconnecting a live proxy that was not yet marked keeps the
      invariant: its queue had at most 99 entries, so the DISCONNECT fits. */
  lemma StreamDisconnectInv(e: VpnState, h: Handle)
    requires Inv(e) && NoStale(e) && h in e.live && !e.arena[h].signalToDelete
    ensures Inv(StreamDisconnect(e, h)) && NoStale(StreamDisconnect(e, h))
  {
    var e' := StreamDisconnect(e, h);
    assert LiveOk(e, h);
    forall c | c in e'.chans ensures ChanOk(e', c) { assert ChanOk(e, c); }
    forall x | x in e'.live ensures LiveOk(e', x) {
      assert LiveOk(e, x);
      if x != h { assert e.arena[x].sock != e.arena[h].sock; }
    }
  }

  lemma AppendRecvInv(e: VpnState, h: Handle, recv: seq<byte>)
    requires Inv(e) && NoStale(e) && h in e.live && |e.arena[h].queue| < QueueCapacity - 1
    ensures var p := e.arena[h];
            var e' := SetReady(e.(arena := e.arena[h := p.(queue := p.queue + [Some(RecvPacket(p.id, recv))])]), p.ch, true);
            Inv(e') && NoStale(e')
  {
    var p := e.arena[h];
    var e1 := e.(arena := e.arena[h := p.(queue := p.queue + [Some(RecvPacket(p.id, recv))])]);
    assert LiveOk(e, h);
    forall c | c in e1.chans ensures ChanOk(e1, c) { assert ChanOk(e, c); }
    forall x | x in e1.live ensures LiveOk(e1, x) { assert LiveOk(e, x); }
    SetReadyKeeps(e1, p.ch);
  }

  /** After `ch_sf_delete` the event loop can reach a freed proxy: the
      proxy's socket stays in the interest set and in the global index, so
      its next event dereferences the freed object. */
  lemma DeletedChannelEventUseAfterFree(e: VpnState, ch: ChanId, events: u32, recv: seq<byte>)
    requires Inv(e) && NoStale(e) && ch in e.chans && |e.chans[ch].socks| > 0
    requires |recv| <= RecvBufSize
    ensures var h := e.chans[ch].socks[0];
            var e' := ChDelete(e, ch);
            h in e.arena && e.arena[h].sock in e'.openFds &&
            SockEvent(e', e.arena[h].sock, events, recv).UseAfterFree?
  {
    var h := e.chans[ch].socks[0];
    assert ChanOk(e, ch);
    assert LiveOk(e, h);
    var e' := ChDelete(e, ch);
    var fd := e.arena[h].sock;
    assert h in e'.bySock && e'.arena[h].sock == fd;
    var r := FindBySock(e', e'.bySock, fd);
    assert r.Some?;
    var g := r.value;
    assert g in e.bySock && g in e.live && e.arena[g].sock == fd;
    assert LiveOk(e, g);
    assert g == h;
  }
}
