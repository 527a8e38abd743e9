/** `ch_sf_packet_out`: the transport's ready-to-write callback. It walks
    the channel's proxy map in insertion order and hands every queued
    packet to the transport; the first refusal stops the whole walk. A
    proxy whose queue went out in full has its queue reset, and if it was
    marked for deletion it is unlinked and freed. The channel's ready flag
    ends up telling whether any packet was met.

    The model runs the walk over the proxies' queues first and unlinks the
    freed proxies afterwards, in the same order. The two parts touch
    disjoint parts of the state (queues against indexes and liveness), so
    this yields the state the interleaved loop of the source yields. */
module Flush {
  import opened Bytes
  import opened Wire
  import opened ProxyQueue
  import opened Engine

  type Arena = map<Handle, Proxy>

  /** The packets queued on the proxies `hs`, in walk order. */
  function PendingOf(a: Arena, hs: seq<Handle>): (r: seq<Packet>)
    requires forall h :: h in hs ==> h in a
  {
    if |hs| == 0 then [] else Pending(a[hs[0]].queue) + PendingOf(a, hs[1..])
  }

  /** The packets waiting on a channel. */
  ghost function ChanPending(e: VpnState, ch: ChanId): seq<Packet>
    requires ch in e.chans && forall h :: h in e.chans[ch].socks ==> h in e.arena
  {
    PendingOf(e.arena, e.chans[ch].socks)
  }

  /** The queue part of a walk: the proxies afterwards, the packets the
      transport accepted, whether any packet was met, whether a refusal
      ended the walk, and the proxies marked for deletion whose queues went
      out in full, in walk order. */
  datatype Walk = Walk(arena: Arena, sent: seq<Packet>, offered: bool, stopped: bool, freed: seq<Handle>)

  /** The walk over the proxies `hs` with a transport that accepts `room`
      more packets. Each proxy's queue is offered with `FlushQueue`; a
      queue the transport takes in full hands over exactly its pending
      packets (`FlushedQueueIsEmpty`), so that case is written with them
      directly, and only the refused queue keeps `FlushQueue`'s result. */
  function WalkQueues(a: Arena, hs: seq<Handle>, room: nat): (w: Walk)
    requires forall h :: h in hs ==> h in a
    ensures w.arena.Keys == a.Keys
    ensures forall x :: x in w.freed ==> x in hs
    decreases |hs|
  {
    if |hs| == 0 then Walk(a, [], false, false, [])
    else
      var h := hs[0];
      var p := a[h];
      var P := Pending(p.queue);
      if room < |P| then
        var qf := FlushQueue(p.queue, room);
        Walk(a[h := p.(queue := qf.queue)], qf.sent, true, true, [])
      else
        var rest := WalkQueues(a[h := p.(queue := [])], hs[1..], room - |P|);
        Walk(rest.arena, P + rest.sent, |P| > 0 || rest.offered, rest.stopped,
             if p.signalToDelete then [h] + rest.freed else rest.freed)
  }

  /** Unlink and free the proxies `hs` in order, as the end of each
      proxy's turn in the walk does. */
  function Unlink(e: VpnState, ch: ChanId, hs: seq<Handle>): (e': VpnState)
    requires forall h :: h in hs ==> h in e.arena
    ensures e'.arena == e.arena && e'.polled == e.polled && e'.chans.Keys == e.chans.Keys
    ensures e'.leases == e.leases && e'.ring == e.ring
    ensures forall x :: x in e'.live <==> x in e.live && x !in hs
    ensures forall x :: x in e'.byId <==> x in e.byId && x !in hs
    ensures forall x :: x in e'.bySock <==> x in e.bySock && x !in hs
    ensures ch in e.chans ==> forall x :: x in e'.chans[ch].socks <==> x in e.chans[ch].socks && x !in hs
    decreases |hs|
  {
    if |hs| == 0 then e else Unlink(TearDownFlushed(e, ch, hs[0]), ch, hs[1..])
  }

  /** The channel-level callback: walk the channel's proxy map, unlink the
      freed proxies, hand each accepted packet to the transport with length
      16 + `data_size`, and set the ready flag to whether anything was met. */
  function Flush(e: VpnState, ch: ChanId, room: nat): (s: Step)
    requires ch in e.chans && forall h :: h in e.chans[ch].socks ==> h in e.arena
    ensures ch in s.state.chans
  {
    var w := WalkQueues(e.arena, e.chans[ch].socks, room);
    var e1 := Unlink(e.(arena := w.arena), ch, w.freed);
    Step(SetReady(e1, ch, w.offered), ChWrites(ch, w.sent))
  }

  /** One transport write per packet, in order. */
  function ChWrites(ch: ChanId, ps: seq<Packet>): (r: seq<Effect>)
    ensures |r| == |ps|
    ensures forall i :: 0 <= i < |ps| ==> r[i] == ChWrite(ch, 'd', ps[i], TransmitLen(ps[i].header))
  {
    seq(|ps|, i requires 0 <= i < |ps| => ChWrite(ch, 'd', ps[i], TransmitLen(ps[i].header)))
  }

  // ---------------------------------------------------------------------
  // Helpers about handle lists and pending packets.

  lemma NoDupHead(hs: seq<Handle>)
    requires NoDup(hs) && |hs| > 0
    ensures hs[0] !in hs[1..]
  {
    forall k | 0 <= k < |hs| - 1 ensures hs[1..][k] != hs[0] {
      assert hs[1..][k] == hs[k + 1];
    }
  }

  lemma NoDupTail(hs: seq<Handle>)
    requires NoDup(hs) && |hs| > 0
    ensures NoDup(hs[1..])
  {
    forall i, j | 0 <= i < j < |hs| - 1 ensures hs[1..][i] != hs[1..][j] {
      assert hs[1..][i] == hs[i + 1] && hs[1..][j] == hs[j + 1];
    }
  }

  lemma NoDupCons(h: Handle, hs: seq<Handle>)
    requires NoDup(hs) && h !in hs
    ensures NoDup([h] + hs)
  {
    var s := [h] + hs;
    forall i, j | 0 <= i < j < |s| ensures s[i] != s[j] {
      if i > 0 { assert s[i] == hs[i - 1] && s[j] == hs[j - 1]; }
      else { assert s[j] == hs[j - 1]; }
    }
  }

  /** Pending packets depend only on the proxies walked. */
  lemma {:induction false} PendingOfFrame(a: Arena, a': Arena, hs: seq<Handle>)
    requires forall h :: h in hs ==> h in a && h in a' && a'[h] == a[h]
    ensures PendingOf(a', hs) == PendingOf(a, hs)
  {
    if |hs| > 0 {
      PendingOfFrame(a, a', hs[1..]);
    }
  }

  /** A head proxy with nothing queued adds nothing to the pending packets. */
  lemma PendingOfDrainedHead(a: Arena, hs: seq<Handle>)
    requires forall h :: h in hs ==> h in a
    requires |hs| > 0 && a[hs[0]].queue == []
    ensures PendingOf(a, hs) == PendingOf(a, hs[1..])
  {
    assert PendingOf(a, hs) == [] + PendingOf(a, hs[1..]);
  }

  /** Dropping a handle with nothing queued leaves the pending packets as
      they were. */
  lemma {:induction false} PendingOfWithout(a: Arena, hs: seq<Handle>, h: Handle)
    requires forall x :: x in hs ==> x in a
    requires h in a && Pending(a[h].queue) == []
    ensures PendingOf(a, Without(hs, h)) == PendingOf(a, hs)
  {
    if |hs| > 0 {
      PendingOfWithout(a, hs[1..], h);
      if hs[0] != h {
        var w := Without(hs, h);
        assert w[0] == hs[0] && w[1..] == Without(hs[1..], h);
      }
    }
  }

  /** The walk changes nothing of a proxy but its queue, and only shortens
      that. */
  lemma {:induction false} WalkOnlyQueues(a: Arena, hs: seq<Handle>, room: nat, x: Handle)
    requires forall h :: h in hs ==> h in a
    requires x in a
    ensures var w := WalkQueues(a, hs, room);
            w.arena[x] == a[x].(queue := w.arena[x].queue) && |w.arena[x].queue| <= |a[x].queue|
    decreases |hs|
  {
    if |hs| > 0 {
      var p := a[hs[0]];
      var P := Pending(p.queue);
      if room >= |P| {
        WalkOnlyQueues(a[hs[0] := p.(queue := [])], hs[1..], room - |P|, x);
      }
    }
  }

  /** Proxies outside the walk are left alone. */
  lemma {:induction false} WalkKeepsOthers(a: Arena, hs: seq<Handle>, room: nat, x: Handle)
    requires forall h :: h in hs ==> h in a
    requires x in a && x !in hs
    ensures WalkQueues(a, hs, room).arena[x] == a[x]
    decreases |hs|
  {
    if |hs| > 0 {
      var p := a[hs[0]];
      var P := Pending(p.queue);
      if room >= |P| {
        WalkKeepsOthers(a[hs[0] := p.(queue := [])], hs[1..], room - |P|, x);
      }
    }
  }

  /** A freed proxy was marked for deletion and has nothing queued. */
  lemma {:induction false} WalkFreedDrained(a: Arena, hs: seq<Handle>, room: nat)
    requires NoDup(hs) && forall h :: h in hs ==> h in a
    ensures var w := WalkQueues(a, hs, room);
            forall x :: x in w.freed ==> a[x].signalToDelete && Pending(w.arena[x].queue) == []
    decreases |hs|
  {
    if |hs| > 0 {
      var h := hs[0];
      var p := a[h];
      var P := Pending(p.queue);
      if room >= |P| {
        var a1 := a[h := p.(queue := [])];
        NoDupHead(hs);
        NoDupTail(hs);
        WalkFreedDrained(a1, hs[1..], room - |P|);
        WalkKeepsOthers(a1, hs[1..], room - |P|, h);
      }
    }
  }

  /** Taking a prefix of a concatenation. */
  lemma TakeConcat(Q: seq<Packet>, R: seq<Packet>, room: nat)
    ensures room < |Q| ==> (Q + R)[..Min(room, |Q + R|)] == Q[..room]
    ensures room >= |Q| ==> (Q + R)[..Min(room, |Q + R|)] == Q + R[..Min(room - |Q|, |R|)]
  {
    if room >= |Q| {
      assert (Q + R)[..Min(room, |Q + R|)] == Q + R[..Min(room - |Q|, |R|)];
    }
  }

  /** Dropping a prefix of a concatenation. */
  lemma DropConcat(Q: seq<Packet>, R: seq<Packet>, k: nat)
    ensures k <= |Q| ==> (Q + R)[k..] == Q[k..] + R
    ensures |Q| <= k <= |Q| + |R| ==> (Q + R)[k..] == R[k - |Q|..]
  {
  }

  // ---------------------------------------------------------------------
  // What the walk hands over and what it leaves.

  /** What the walk over `hs` hands over: the first `room` pending packets
      in walk order; it stops early exactly when more than `room` are
      pending, and it met a packet exactly when any is pending. */
  ghost predicate SentOk(a: Arena, hs: seq<Handle>, room: nat)
    requires forall h :: h in hs ==> h in a
  {
    var P := PendingOf(a, hs);
    var w := WalkQueues(a, hs, room);
    && w.sent == P[..Min(room, |P|)]
    && (w.stopped <==> room < |P|)
    && (w.offered <==> |P| > 0)
  }

  /** What the walk over `hs` leaves queued on those proxies: the pending
      packets the transport did not take, in the same order. */
  ghost predicate RemainsOk(a: Arena, hs: seq<Handle>, room: nat)
    requires forall h :: h in hs ==> h in a
  {
    var P := PendingOf(a, hs);
    var w := WalkQueues(a, hs, room);
    && (forall h :: h in hs ==> h in w.arena)
    && PendingOf(w.arena, hs) == P[Min(room, |P|)..]
  }

  /** The walk hands over the first `room` pending packets in walk order;
      it stops early exactly when more than `room` are pending and reports
      having met a packet exactly when any is pending. */
  lemma {:induction false} WalkSent(a: Arena, hs: seq<Handle>, room: nat)
    requires NoDup(hs) && forall h :: h in hs ==> h in a
    ensures var P := PendingOf(a, hs);
            var w := WalkQueues(a, hs, room);
            && w.sent == P[..Min(room, |P|)]
            && (w.stopped <==> room < |P|)
            && (w.offered <==> |P| > 0)
    decreases |hs|
  {
    if |hs| > 0 {
      var p := a[hs[0]];
      var Q := Pending(p.queue);
      if room < |Q| {
        SentRefused(a, hs, room);
      } else {
        var a1 := a[hs[0] := p.(queue := [])];
        NoDupTail(hs);
        WalkSent(a1, hs[1..], room - |Q|);
        SentAccepted(a, hs, room);
      }
    }
  }

  /** The walk step at a head queue the transport refuses. */
  lemma SentRefused(a: Arena, hs: seq<Handle>, room: nat)
    requires forall h :: h in hs ==> h in a
    requires |hs| > 0 && room < |Pending(a[hs[0]].queue)|
    ensures SentOk(a, hs, room)
  {
    var p := a[hs[0]];
    var Q := Pending(p.queue);
    var R := PendingOf(a, hs[1..]);
    assert PendingOf(a, hs) == Q + R;
    TakeConcat(Q, R, room);
    FlushQueueSpec(p.queue, room);
  }

  /** The walk step at a head queue the transport takes in full. */
  lemma SentAccepted(a: Arena, hs: seq<Handle>, room: nat)
    requires NoDup(hs) && forall h :: h in hs ==> h in a
    requires |hs| > 0 && room >= |Pending(a[hs[0]].queue)|
    requires var p := a[hs[0]];
             SentOk(a[hs[0] := p.(queue := [])], hs[1..], room - |Pending(p.queue)|)
    ensures SentOk(a, hs, room)
  {
    var h := hs[0];
    var p := a[h];
    var Q := Pending(p.queue);
    var R := PendingOf(a, hs[1..]);
    var a1 := a[h := p.(queue := [])];
    assert PendingOf(a, hs) == Q + R;
    PendingOfFrame(a, a1, hs[1..]);
    var rest := WalkQueues(a1, hs[1..], room - |Q|);
    CombineSends(Q, R, room, rest.sent, rest.stopped, rest.offered);
  }

  /** What stays queued on the walked proxies after the walk is what the
      transport did not take, in the same order. */
  lemma {:induction false} WalkRemains(a: Arena, hs: seq<Handle>, room: nat)
    requires NoDup(hs) && forall h :: h in hs ==> h in a
    ensures var P := PendingOf(a, hs);
            var w := WalkQueues(a, hs, room);
            && (forall h :: h in hs ==> h in w.arena)
            && PendingOf(w.arena, hs) == P[Min(room, |P|)..]
    decreases |hs|
  {
    if |hs| > 0 {
      var p := a[hs[0]];
      var Q := Pending(p.queue);
      if room < |Q| {
        RemainsRefused(a, hs, room);
      } else {
        var a1 := a[hs[0] := p.(queue := [])];
        NoDupTail(hs);
        WalkRemains(a1, hs[1..], room - |Q|);
        RemainsAccepted(a, hs, room);
      }
    }
  }

  /** The walk step at a head queue the transport refuses. */
  lemma RemainsRefused(a: Arena, hs: seq<Handle>, room: nat)
    requires NoDup(hs) && forall h :: h in hs ==> h in a
    requires |hs| > 0 && room < |Pending(a[hs[0]].queue)|
    ensures RemainsOk(a, hs, room)
  {
    var h := hs[0];
    var p := a[h];
    var Q := Pending(p.queue);
    var R := PendingOf(a, hs[1..]);
    assert PendingOf(a, hs) == Q + R;
    NoDupHead(hs);
    var qf := FlushQueue(p.queue, room);
    FlushQueueSpec(p.queue, room);
    var a1 := a[h := p.(queue := qf.queue)];
    PendingOfFrame(a, a1, hs[1..]);
    assert PendingOf(a1, hs) == Q[room..] + R;
    DropConcat(Q, R, room);
  }

  /** The walk step at a head queue the transport takes in full. */
  lemma RemainsAccepted(a: Arena, hs: seq<Handle>, room: nat)
    requires NoDup(hs) && forall h :: h in hs ==> h in a
    requires |hs| > 0 && room >= |Pending(a[hs[0]].queue)|
    requires var p := a[hs[0]];
             RemainsOk(a[hs[0] := p.(queue := [])], hs[1..], room - |Pending(p.queue)|)
    ensures RemainsOk(a, hs, room)
  {
    var h := hs[0];
    var p := a[h];
    var Q := Pending(p.queue);
    var R := PendingOf(a, hs[1..]);
    var a1 := a[h := p.(queue := [])];
    assert PendingOf(a, hs) == Q + R;
    NoDupHead(hs);
    PendingOfFrame(a, a1, hs[1..]);
    WalkKeepsOthers(a1, hs[1..], room - |Q|, h);
    var rest := WalkQueues(a1, hs[1..], room - |Q|);
    assert WalkQueues(a, hs, room).arena == rest.arena;
    PendingOfDrainedHead(rest.arena, hs);
    DropAfterHead(Q, R, room, PendingOf(rest.arena, hs[1..]));
  }

  /** The packets left after the walk over a taken head are those left by
      the walk over the rest. */
  lemma DropAfterHead(Q: seq<Packet>, R: seq<Packet>, room: nat, S: seq<Packet>)
    requires room >= |Q| && S == R[Min(room - |Q|, |R|)..]
    ensures S == (Q + R)[Min(room, |Q + R|)..]
  {
    DropConcat(Q, R, |Q| + Min(room - |Q|, |R|));
  }

  /** No proxy is freed twice. */
  lemma {:induction false} WalkFreedNoDup(a: Arena, hs: seq<Handle>, room: nat)
    requires NoDup(hs) && forall h :: h in hs ==> h in a
    ensures NoDup(WalkQueues(a, hs, room).freed)
    decreases |hs|
  {
    if |hs| > 0 {
      var h := hs[0];
      var p := a[h];
      var P := Pending(p.queue);
      if room >= |P| {
        var a1 := a[h := p.(queue := [])];
        NoDupHead(hs);
        NoDupTail(hs);
        WalkFreedNoDup(a1, hs[1..], room - |P|);
        if p.signalToDelete {
          NoDupCons(h, WalkQueues(a1, hs[1..], room - |P|).freed);
        }
      }
    }
  }

  /** The packet counting of an accepted head: its packets `Q` and those of
      the rest `R` recombine into the prefix of `Q + R`. */
  lemma CombineSends(Q: seq<Packet>, R: seq<Packet>, room: nat, s: seq<Packet>, stopped: bool, offered: bool)
    requires room >= |Q|
    requires s == R[..Min(room - |Q|, |R|)] && (stopped <==> room - |Q| < |R|) && (offered <==> |R| > 0)
    ensures Q + s == (Q + R)[..Min(room, |Q + R|)]
    ensures stopped <==> room < |Q + R|
    ensures (|Q| > 0 || offered) <==> |Q + R| > 0
  {
    assert (Q + R)[..Min(room, |Q + R|)] == Q + R[..Min(room - |Q|, |R|)];
  }

  /** With room for everything pending, every proxy marked for deletion
      is freed. */
  lemma {:induction false} WalkFreesSignalled(a: Arena, hs: seq<Handle>, room: nat)
    requires NoDup(hs) && forall h :: h in hs ==> h in a
    requires room >= |PendingOf(a, hs)|
    ensures forall x :: x in hs && a[x].signalToDelete ==> x in WalkQueues(a, hs, room).freed
    decreases |hs|
  {
    if |hs| > 0 {
      var h := hs[0];
      var p := a[h];
      var P := Pending(p.queue);
      assert PendingOf(a, hs) == P + PendingOf(a, hs[1..]);
      var a1 := a[h := p.(queue := [])];
      NoDupHead(hs);
      NoDupTail(hs);
      PendingOfFrame(a, a1, hs[1..]);
      var rest := WalkQueues(a1, hs[1..], room - |P|);
      WalkFreesSignalled(a1, hs[1..], room - |P|);
      var freed := WalkQueues(a, hs, room).freed;
      assert freed == if p.signalToDelete then [h] + rest.freed else rest.freed;
      forall x | x in hs && a[x].signalToDelete ensures x in freed {
        if x != h { assert x in hs[1..] && a1[x] == a[x]; assert x in rest.freed; }
      }
    }
  }

  // ---------------------------------------------------------------------
  // The registry invariant across the flush.

  /** Shortening the queues of the proxies keeps the invariant. */
  lemma QueuesInv(e: VpnState, a: Arena)
    requires Inv(e)
    requires a.Keys == e.arena.Keys
    requires forall x :: x in e.arena ==> a[x] == e.arena[x].(queue := a[x].queue)
    requires forall x :: x in e.arena ==> |a[x].queue| <= |e.arena[x].queue|
    ensures Inv(e.(arena := a)) && (NoStale(e) ==> NoStale(e.(arena := a)))
  {
    var e' := e.(arena := a);
    forall c | c in e'.chans ensures ChanOk(e', c) { assert ChanOk(e, c); }
    forall x | x in e'.live ensures LiveOk(e', x) { assert LiveOk(e, x); }
  }

  /** `s` with every handle of `hs` removed, one after the other. */
  function Drop(s: seq<Handle>, hs: seq<Handle>): seq<Handle>
    decreases |hs|
  {
    if |hs| == 0 then s else Drop(Without(s, hs[0]), hs[1..])
  }

  /** Unlinking distinct proxies of the channel keeps the invariant, keeps
      the indexes free of stale entries, and removes exactly those handles
      from the channel's map. */
  lemma {:induction false} UnlinkInv(e: VpnState, ch: ChanId, hs: seq<Handle>)
    requires Inv(e) && ch in e.chans && NoDup(hs)
    requires forall h :: h in hs ==> h in e.chans[ch].socks
    ensures forall h :: h in hs ==> h in e.arena
    ensures var e' := Unlink(e, ch, hs);
            && Inv(e')
            && (NoStale(e) ==> NoStale(e'))
            && ch in e'.chans
            && e'.chans[ch].socks == Drop(e.chans[ch].socks, hs)
    decreases |hs|
  {
    assert ChanOk(e, ch);
    if |hs| > 0 {
      var h := hs[0];
      TearDownFlushedInv(e, ch, h);
      var e1 := TearDownFlushed(e, ch, h);
      NoDupHead(hs);
      NoDupTail(hs);
      UnlinkInv(e1, ch, hs[1..]);
    }
  }

  /** Removing handles with nothing queued keeps the pending packets. */
  lemma {:induction false} PendingOfDrop(a: Arena, s: seq<Handle>, hs: seq<Handle>)
    requires forall x :: x in s ==> x in a
    requires forall x :: x in hs ==> x in a && Pending(a[x].queue) == []
    ensures forall x :: x in Drop(s, hs) ==> x in a
    ensures PendingOf(a, Drop(s, hs)) == PendingOf(a, s)
    decreases |hs|
  {
    if |hs| > 0 {
      PendingOfWithout(a, s, hs[0]);
      PendingOfDrop(a, Without(s, hs[0]), hs[1..]);
    }
  }

  /** The callback keeps the invariant and leaves no stale index entry,
      and what stays queued on the channel is exactly what the transport
      did not take, in the same order. */
  lemma FlushInv(e: VpnState, ch: ChanId, room: nat)
    requires Inv(e) && ch in e.chans
    ensures forall h :: h in e.chans[ch].socks ==> h in e.arena
    ensures var s := Flush(e, ch, room);
            && Inv(s.state)
            && (NoStale(e) ==> NoStale(s.state))
            && |s.out| <= |ChanPending(e, ch)|
            && ChanPending(s.state, ch) == ChanPending(e, ch)[|s.out|..]
  {
    assert ChanOk(e, ch);
    var hs := e.chans[ch].socks;
    var w := WalkQueues(e.arena, hs, room);
    WalkSent(e.arena, hs, room);
    WalkRemains(e.arena, hs, room);
    WalkFreedNoDup(e.arena, hs, room);
    forall x | x in e.arena
      ensures w.arena[x] == e.arena[x].(queue := w.arena[x].queue) && |w.arena[x].queue| <= |e.arena[x].queue|
    {
      WalkOnlyQueues(e.arena, hs, room, x);
    }
    WalkFreedDrained(e.arena, hs, room);
    var e0 := e.(arena := w.arena);
    QueuesInv(e, w.arena);
    UnlinkInv(e0, ch, w.freed);
    var e1 := Unlink(e0, ch, w.freed);
    SetReadyInv(e1, ch, w.offered);
    PendingOfDrop(w.arena, hs, w.freed);
  }

  /** The callback's output and ready flag come from the walk alone. */
  lemma FlushParts(e: VpnState, ch: ChanId, room: nat)
    requires ch in e.chans && forall h :: h in e.chans[ch].socks ==> h in e.arena
    ensures var w := WalkQueues(e.arena, e.chans[ch].socks, room);
            var s := Flush(e, ch, room);
            s.out == ChWrites(ch, w.sent) && s.state.chans[ch].readyToWrite == w.offered
  {
    var w := WalkQueues(e.arena, e.chans[ch].socks, room);
    var e1 := Unlink(e.(arena := w.arena), ch, w.freed);
    assert ch in e1.chans;
  }

  /** What the callback hands to the transport: the first `room` packets
      waiting on the channel, in walk order, each with length 16 +
      `data_size`; the ready flag ends up telling whether any was waiting. */
  lemma FlushHandsOver(e: VpnState, ch: ChanId, room: nat)
    requires Inv(e) && ch in e.chans
    ensures forall h :: h in e.chans[ch].socks ==> h in e.arena
    ensures var s := Flush(e, ch, room);
            var P := ChanPending(e, ch);
            && |s.out| == Min(room, |P|)
            && (forall i :: 0 <= i < |s.out| ==>
                  s.out[i] == ChWrite(ch, 'd', P[i], HeaderSize + DataSize(P[i].header)))
            && s.state.chans[ch].readyToWrite == (|P| > 0)
  {
    FlushOutPrefix(e, ch, room);
    FlushReady(e, ch, room);
  }

  /** The ready flag after the callback tells whether anything was waiting. */
  lemma FlushReady(e: VpnState, ch: ChanId, room: nat)
    requires Inv(e) && ch in e.chans
    ensures forall h :: h in e.chans[ch].socks ==> h in e.arena
    ensures Flush(e, ch, room).state.chans[ch].readyToWrite == (|ChanPending(e, ch)| > 0)
  {
    assert ChanOk(e, ch);
    WalkSent(e.arena, e.chans[ch].socks, room);
    FlushParts(e, ch, room);
  }

  /** The callback's output is the transport writes of a prefix of what
      was waiting on the channel. */
  lemma FlushOutPrefix(e: VpnState, ch: ChanId, room: nat)
    requires Inv(e) && ch in e.chans
    ensures forall h :: h in e.chans[ch].socks ==> h in e.arena
    ensures var P := ChanPending(e, ch);
            Flush(e, ch, room).out == ChWrites(ch, P[..Min(room, |P|)])
  {
    assert ChanOk(e, ch);
    WalkSent(e.arena, e.chans[ch].socks, room);
    FlushParts(e, ch, room);
  }

  /** Transport writes of consecutive packet runs concatenate. */
  lemma ChWritesConcat(ch: ChanId, p: seq<Packet>, q: seq<Packet>)
    ensures ChWrites(ch, p) + ChWrites(ch, q) == ChWrites(ch, p + q)
  {
    assert |ChWrites(ch, p) + ChWrites(ch, q)| == |ChWrites(ch, p + q)|;
    forall i | 0 <= i < |p + q| ensures (ChWrites(ch, p) + ChWrites(ch, q))[i] == ChWrites(ch, p + q)[i] {
      if i >= |p| { assert (p + q)[i] == q[i - |p|]; }
    }
  }

  /** A flush the transport cut short loses and reorders nothing: flushing
      with room `a` and then with room `b` hands over the same packets, in
      the same order, as one flush with room `a + b`. */
  lemma SplitFlush(e: VpnState, ch: ChanId, a: nat, b: nat)
    requires Inv(e) && ch in e.chans
    ensures forall h :: h in e.chans[ch].socks ==> h in e.arena
    ensures var s1 := Flush(e, ch, a);
            && Inv(s1.state) && ch in s1.state.chans
            && (forall h :: h in s1.state.chans[ch].socks ==> h in s1.state.arena)
            && s1.out + Flush(s1.state, ch, b).out == Flush(e, ch, a + b).out
  {
    assert ChanOk(e, ch);
    FlushInv(e, ch, a);
    var s1 := Flush(e, ch, a);
    assert ChanOk(s1.state, ch);
    var P := ChanPending(e, ch);
    var P1 := ChanPending(s1.state, ch);
    FlushOutPrefix(e, ch, a);
    FlushOutPrefix(s1.state, ch, b);
    FlushOutPrefix(e, ch, a + b);
    var k := Min(a, |P|);
    assert P1 == P[k..];
    SplitPrefix(P, a, b);
    ChWritesConcat(ch, P[..k], P1[..Min(b, |P1|)]);
  }

  /** The prefix of length `a`, then the prefix of length `b` of the rest,
      make the prefix of length `a + b`. */
  lemma SplitPrefix(P: seq<Packet>, a: nat, b: nat)
    ensures var k := Min(a, |P|);
            P[..k] + P[k..][..Min(b, |P[k..]|)] == P[..Min(a + b, |P|)]
  {
  }

  /** A proxy marked for deletion is gone from the channel's map, both
      global indexes and the live set after a flush with room for
      everything waiting on the channel. */
  lemma FlushFreesSignalled(e: VpnState, ch: ChanId, room: nat, h: Handle)
    requires Inv(e) && ch in e.chans && h in e.chans[ch].socks
    requires e.arena[h].signalToDelete
    requires room >= |ChanPending(e, ch)|
    ensures var s := Flush(e, ch, room);
            ch in s.state.chans && h !in s.state.chans[ch].socks &&
            h !in s.state.live && h !in s.state.byId && h !in s.state.bySock
  {
    assert ChanOk(e, ch);
    WalkFreesSignalled(e.arena, e.chans[ch].socks, room);
  }
}
