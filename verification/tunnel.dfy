/** One turn of the tunnel thread `ch_sf_thread_raw`. When the select
    breaker fires, one slot is taken from the outbound ring and its payload
    written to the device. When the device is readable, up to 100000 bytes
    are read into a buffer that lives as long as the thread; the IPv4
    destination at bytes 16..19 of that buffer picks the leased session,
    which receives the bytes as a VPN_RECV packet. The bytes the device
    returns are a parameter. */
module Tunnel {
  import opened Bytes
  import opened Wire
  import opened Engine
  import Lease
  import OutRing
  import Dispatch

  /** `tun_MTU`, the size of the thread's read buffer. */
  const TunMtu: nat := 100000

  /** Offset of the IPv4 destination address in `struct iphdr`. */
  const DaddrOffset: nat := 16

  /** The read buffer, zeroed by `calloc` when the thread starts. */
  function FreshBuffer(): (b: seq<byte>)
    ensures |b| == TunMtu && forall i :: 0 <= i < |b| ==> b[i] == 0
  {
    seq(TunMtu, _ => 0)
  }

  /** The VPN_RECV packet for a read of `d`: socket id is the tunnel
      descriptor, `data_size` the byte count, the payload the bytes. */
  function VpnRecvPacket(tunFd: i32, d: seq<byte>): (p: Packet)
    requires |d| <= TunMtu
    ensures p.header.sockId == tunFd && p.header.opCode == OpVpnRecv
    ensures DataSize(p.header) == |d| && p.data == d
  {
    Packet(DataHeader(tunFd, OpVpnRecv, |d|), d)
  }

  datatype Routed = Routed(step: Step, buf: seq<byte>)

  /** The device read: the buffer keeps whatever lies past the bytes just
      read, and the destination is read from the buffer, not from the bytes. */
  function RouteInbound(e: VpnState, buf: seq<byte>, d: seq<byte>): (r: Routed)
    requires |buf| == TunMtu && |d| <= TunMtu
    ensures |r.buf| == TunMtu && r.buf[..|d|] == d && r.buf[|d|..] == buf[|d|..]
    ensures r.step.state == e.(chans := r.step.state.chans)
    ensures r.step.state.chans.Keys == e.chans.Keys
    ensures forall c :: c in e.chans ==> r.step.state.chans[c] == e.chans[c].(readyToWrite := r.step.state.chans[c].readyToWrite)
    ensures |r.step.out| <= 1 && forall i :: 0 <= i < |r.step.out| ==> r.step.out[i].ChWrite?
  {
    var buf' := d + buf[|d|..];
    var dst := Load32(buf'[DaddrOffset..DaddrOffset + 4]);
    if dst in e.leases.clients then
      var c := e.leases.clients[dst];
      var pkt := VpnRecvPacket(e.tunFd, buf'[..|d|]);
      Routed(Step(SetReady(e, c, true), [ChWrite(c, 'd', pkt, HeaderSize + |d|)]), buf')
    else
      Routed(Step(e, []), buf')
  }

  /** The breaker branch: `ch_sf_raw_read`, then a device write of the
      taken slot's payload, `data_size` bytes long, if the slot held one. */
  function TunDrain(e: VpnState): (s: Step)
    requires OutRing.Valid(e.ring)
    ensures s.state == e.(ring := s.state.ring) && OutRing.Valid(s.state.ring)
    ensures |s.out| <= 1 && forall i :: 0 <= i < |s.out| ==> s.out[i].TunWrite?
  {
    var rd := OutRing.Read(e.ring);
    var e' := e.(ring := rd.ring);
    match rd.pkt
    case None => Step(e', [])
    case Some(p) => Step(e', [TunWrite(DataSize(p.header), p.data)])
  }

  /** One turn: the breaker branch first, then the device branch. */
  function RawTurn(e: VpnState, buf: seq<byte>, breaker: bool, read: Option<seq<byte>>): (r: Routed)
    requires OutRing.Valid(e.ring) && |buf| == TunMtu
    requires read.Some? ==> |read.value| <= TunMtu
  {
    var s1 := if breaker then TunDrain(e) else Step(e, []);
    match read
    case None => Routed(s1, buf)
    case Some(d) =>
      var r := RouteInbound(s1.state, buf, d);
      Routed(Step(r.step.state, s1.out + r.step.out), r.buf)
  }

  // ---------------------------------------------------------------------
  // Inbound routing.

  /** A read of at least 20 bytes goes to the session leased its
      destination, as one VPN_RECV packet carrying exactly the bytes read
      with `data_size` set to their count and transport length 16 plus
      that count, and flags the session ready; a destination nobody leased
      is dropped. The leases, the ring and the proxy registry are left
      alone either way. */
  lemma RouteByDestination(e: VpnState, buf: seq<byte>, d: seq<byte>)
    requires |buf| == TunMtu && DaddrOffset + 4 <= |d| <= TunMtu
    ensures var r := RouteInbound(e, buf, d);
            var dst := Load32(d[DaddrOffset..DaddrOffset + 4]);
            && (dst in e.leases.clients ==>
                  var c := e.leases.clients[dst];
                  && r.step.out == [ChWrite(c, 'd', VpnRecvPacket(e.tunFd, d), TransmitLen(VpnRecvPacket(e.tunFd, d).header))]
                  && TransmitLen(VpnRecvPacket(e.tunFd, d).header) == HeaderSize + |d|
                  && r.step.state == SetReady(e, c, true))
            && (dst !in e.leases.clients ==> r.step == Step(e, []))
  {
    var buf' := d + buf[|d|..];
    assert buf'[DaddrOffset..DaddrOffset + 4] == d[DaddrOffset..DaddrOffset + 4];
    assert buf'[..|d|] == d;
  }

  /** What the session receives parses back, on its side, into the packet
      that was sent: the header and exactly the bytes read. */
  lemma RoutedFrameParses(e: VpnState, buf: seq<byte>, d: seq<byte>)
    requires |buf| == TunMtu && DaddrOffset + 4 <= |d| <= TunMtu
    requires Load32(d[DaddrOffset..DaddrOffset + 4]) in e.leases.clients
    ensures var r := RouteInbound(e, buf, d);
            |r.step.out| == 1 && r.step.out[0].ChWrite? &&
            var f := Frame(r.step.out[0].pkt);
            |f| == r.step.out[0].len &&
            ParseFrame(f).data == d && DataSize(ParseFrame(f).header) == |d| &&
            ParseFrame(f).header.opCode == OpVpnRecv
  {
    RouteByDestination(e, buf, d);
    FrameRoundTrip(VpnRecvPacket(e.tunFd, d));
  }

  /** A read shorter than the IPv4 header is routed by bytes left in the
      buffer by an earlier read: a read of at most 16 bytes goes wherever
      the previous buffer's destination word points. */
  lemma ShortReadRoutesByStaleBytes(e: VpnState, buf: seq<byte>, d: seq<byte>)
    requires |buf| == TunMtu && |d| <= DaddrOffset
    ensures var r := RouteInbound(e, buf, d);
            var stale := Load32(buf[DaddrOffset..DaddrOffset + 4]);
            && (stale in e.leases.clients ==>
                  r.step.out == [ChWrite(e.leases.clients[stale], 'd', VpnRecvPacket(e.tunFd, d), HeaderSize + |d|)])
            && (stale !in e.leases.clients ==> r.step.out == [])
  {
    var buf' := d + buf[|d|..];
    assert buf'[DaddrOffset..DaddrOffset + 4] == buf[DaddrOffset..DaddrOffset + 4];
    assert buf'[..|d|] == d;
  }

  /** A session that asked for an address twice keeps receiving traffic
      for the first address after it is detached: detaching releases only
      the address it holds now, so the lease table still names the
      detached channel for the first one. */
  lemma DetachedSessionStillRouted(e: VpnState, ch: ChanId, buf: seq<byte>, d: seq<byte>)
    requires ch in e.chans && |buf| == TunMtu && DaddrOffset + 4 <= |d| <= TunMtu
    requires var s1 := Dispatch.AddrRequest(e, ch);
             && Load32(d[DaddrOffset..DaddrOffset + 4]) == s1.state.chans[ch].tunAddr
             && Lease.Allocate(s1.state.leases, ch).addr != s1.state.chans[ch].tunAddr
    ensures var s1 := Dispatch.AddrRequest(e, ch);
            var s2 := Dispatch.AddrRequest(s1.state, ch);
            var e3 := ChDelete(s2.state, ch);
            ch !in e3.chans &&
            RouteInbound(e3, buf, d).step.out ==
              [ChWrite(ch, 'd', VpnRecvPacket(e.tunFd, d), HeaderSize + |d|)]
  {
    var s1 := Dispatch.AddrRequest(e, ch);
    var a := s1.state.chans[ch].tunAddr;
    var s2 := Dispatch.AddrRequest(s1.state, ch);
    var b := s2.state.chans[ch].tunAddr;
    assert b == Lease.Allocate(s1.state.leases, ch).addr;
    assert a in s2.state.leases.clients && s2.state.leases.clients[a] == ch;
    var e3 := ChDelete(s2.state, ch);
    assert a in e3.leases.clients && e3.leases.clients[a] == ch;
    assert e3.tunFd == e.tunFd;
    RouteByDestination(e3, buf, d);
  }

  // ---------------------------------------------------------------------
  // Draining the ring to the device.

  /** A packet stored by `ch_sf_raw_write` into a drained ring is what the
      next breaker turn writes to the device: its `data_size` and payload. */
  lemma WrittenPacketReachesDevice(e: VpnState, p: Packet)
    requires OutRing.Drained(e.ring)
    ensures var w := OutRing.Write(e.ring, p);
            w.ret > 0 &&
            TunDrain(e.(ring := w.ring)).out == [TunWrite(DataSize(p.header), p.data)] &&
            OutRing.Drained(TunDrain(e.(ring := w.ring)).state.ring)
  {
    OutRing.WriteThenRead(e.ring, p);
  }

  /** A breaker turn on a drained ring still takes a slot: a slot that
      holds a packet from an earlier lap is written to the device again. */
  lemma DrainedRingReplaysStaleSlot(e: VpnState, p: Packet)
    requires OutRing.Drained(e.ring) && OutRing.Wrap(e.ring.rindex) == e.ring.windex
    requires e.ring.slots[e.ring.windex] == Some(p)
    ensures TunDrain(e).out == [TunWrite(DataSize(p.header), p.data)]
    ensures TunDrain(e).state.ring.size == OutRing.SizeModulus - 1
  {
    OutRing.EmptyReadUnderflows(e.ring);
  }

  /** A turn changes neither the proxy registry nor the leases, and emits
      at most one device write followed by at most one transport write. */
  lemma RawTurnFrame(e: VpnState, buf: seq<byte>, breaker: bool, read: Option<seq<byte>>)
    requires OutRing.Valid(e.ring) && |buf| == TunMtu
    requires read.Some? ==> |read.value| <= TunMtu
    ensures var r := RawTurn(e, buf, breaker, read);
            && r.step.state.arena == e.arena && r.step.state.live == e.live
            && r.step.state.byId == e.byId && r.step.state.bySock == e.bySock
            && r.step.state.polled == e.polled && r.step.state.leases == e.leases
            && r.step.state.chans.Keys == e.chans.Keys
            && (forall c :: c in e.chans ==> r.step.state.chans[c].socks == e.chans[c].socks)
            && |r.step.out| <= 2
            && (forall i :: 0 <= i < |r.step.out| ==> r.step.out[i].TunWrite? || r.step.out[i].ChWrite?)
            && (!breaker ==> forall i :: 0 <= i < |r.step.out| ==> r.step.out[i].ChWrite?)
            && (read.None? ==> forall i :: 0 <= i < |r.step.out| ==> r.step.out[i].TunWrite?)
            && (|r.step.out| == 2 ==> r.step.out[0].TunWrite? && r.step.out[1].ChWrite?)
  {
  }
}
