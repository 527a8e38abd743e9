/** The input handler `ch_sf_packet_in` and the five operation handlers it
    dispatches to: CONNECT, SEND, DISCONNECT, VPN_ADDR_REQUEST and VPN_SEND. */
module Dispatch {
  import opened Bytes
  import opened Wire
  import opened ProxyQueue
  import opened Engine
  import Lease

  /** Results of the socket, clock and device calls the handlers make. */
  datatype InOracle = InOracle(
    now: int,           // time()
    ptonRet: int,       // inet_pton() on the CONNECT address text
    fd: int,            // socket()
    connectOk: bool,    // connect() succeeded
    epollAddOk: bool,   // registering the new socket with the event loop succeeded
    sendRet: int,       // send() on the forwarded socket
    tunWriteRet: int)   // write() to the tunnel device

  /** The socket() contract: a new descriptor is not one still open here. */
  ghost predicate FreshFd(e: VpnState, o: InOracle)
  {
    o.fd < 0 || o.fd !in e.openFds
  }

  /** Lookup in a channel's proxy map by peer socket id. */
  function FindById(e: VpnState, hs: seq<Handle>, id: i32): (r: Option<Handle>)
    ensures r.Some? ==> r.value in hs && r.value in e.arena && e.arena[r.value].id == id
    ensures r.None? ==> forall h :: h in hs && h in e.arena ==> e.arena[h].id != id
  {
    if |hs| == 0 then None
    else if hs[0] in e.arena && e.arena[hs[0]].id == id then Some(hs[0])
    else FindById(e, hs[1..], id)
  }

  /** The VPN_ADDR_REPLY packet: socket id is the tunnel descriptor, 8 bytes
      of payload holding the leased address then the gateway. */
  function AddrReply(tunFd: i32, addr: Lease.Addr, gateway: Lease.Addr): (p: Packet)
    ensures p.header.opCode == OpVpnAddrReply && p.header.sockId == tunFd
    ensures DataSize(p.header) == 8 && |p.data| == 8
    ensures p.data[0..4] == Mem32(addr) && p.data[4..8] == Mem32(gateway)
  {
    var d := Mem32(addr) + Mem32(gateway);
    assert d[0..4] == Mem32(addr) && d[4..8] == Mem32(gateway);
    Packet(DataHeader(tunFd, OpVpnAddrReply, 8), d)
  }

  /** VPN_ADDR_REQUEST: lease an address to the channel, record it in the
      session and reply with the address and the gateway. The exhaustion
      reply is never sent: its guard tests an address that is still zero. */
  function AddrRequest(e: VpnState, ch: ChanId): (s: Step)
    requires ch in e.chans
    ensures ch in s.state.chans
    ensures var a := s.state.chans[ch].tunAddr;
            && s.state.leases == Lease.Allocate(e.leases, ch).leases
            && a == Lease.Allocate(e.leases, ch).addr
            && s.state.leases.clients[a] == ch && s.state.leases.last == a
            && s.out == [ChWrite(ch, 'd', AddrReply(e.tunFd, a, e.leases.host), 24)]
    ensures forall x :: x in s.out ==> !(x.ChWrite? && x.pkt.header.opCode == OpProblem)
    ensures s.state.chans[ch].readyToWrite
    ensures s.state.chans.Keys == e.chans.Keys
    ensures forall c :: c in e.chans ==> s.state.chans[c].socks == e.chans[c].socks
    ensures forall c :: c in e.chans && c != ch ==> s.state.chans[c] == e.chans[c]
    ensures s.state == e.(leases := s.state.leases, chans := s.state.chans)
  {
    var g := Lease.Allocate(e.leases, ch);
    var reply := AddrReply(e.tunFd, g.addr, e.leases.host);
    var e1 := e.(leases := g.leases,
                 chans := e.chans[ch := e.chans[ch].(tunAddr := g.addr, readyToWrite := true)]);
    Step(e1, [ChWrite(ch, 'd', reply, TransmitLen(reply.header))])
  }

  /** The PROBLEM reply for a tunnel write failure. */
  function PacketLostReply(tunFd: i32): (p: Packet)
    ensures p.header.opCode == OpProblem && ProblemCode(p.header) == ProblemPacketLost
    ensures p.data == []
  {
    Packet(ProblemHeader(tunFd, ProblemPacketLost), [])
  }

  /** VPN_SEND: write `data_size` bytes of the payload straight to the
      tunnel device. Neither the source address nor the sender's lease is
      checked, the ring is bypassed, and `data_size` is not compared with
      the payload actually received. On a write error the peer gets a
      PACKET_LOST problem, handed over with length 16 + 3. */
  function VpnSend(e: VpnState, ch: ChanId, pkt: Packet, writeRet: int): (s: Step)
    ensures |s.out| >= 1 && s.out[0] == TunWrite(DataSize(pkt.header), pkt.data)
    ensures writeRet >= 0 ==> s == Step(e, [TunWrite(DataSize(pkt.header), pkt.data)])
    ensures writeRet < 0 ==>
      && s.state == SetReady(e, ch, true)
      && s.out == [TunWrite(DataSize(pkt.header), pkt.data), ChWrite(ch, 'd', PacketLostReply(e.tunFd), 19)]
  {
    var write := TunWrite(DataSize(pkt.header), pkt.data);
    if writeRet < 0 then
      var prob := PacketLostReply(e.tunFd);
      Step(SetReady(e, ch, true), [write, ChWrite(ch, 'd', prob, TransmitLen(prob.header))])
    else
      Step(e, [write])
  }

  /** The proxy a successful CONNECT creates. */
  function NewProxy(id: i32, fd: int, ch: ChanId): Proxy
  {
    Proxy(id, fd, ch, false, [], 0, 0)
  }

  /** The CONNECTED acknowledgement: a bare header with the peer's id. */
  function ConnectedPacket(id: i32): (p: Packet)
    ensures p.header.opCode == OpConnected && p.header.sockId == id && DataSize(p.header) == 0
  {
    Packet(BareHeader(id, OpConnected), [])
  }

  /** Insert a proxy for a connected socket into the channel map and both
      global indexes. */
  function Register(e: VpnState, ch: ChanId, id: i32, fd: int): (e': VpnState)
    requires ch in e.chans
  {
    var h := e.nextHandle;
    e.(arena := e.arena[h := NewProxy(id, fd, ch)],
       live := e.live + {h},
       nextHandle := h + 1,
       chans := e.chans[ch := e.chans[ch].(socks := e.chans[ch].socks + [h])],
       byId := e.byId + [h],
       bySock := e.bySock + [h],
       openFds := e.openFds + {fd})
  }

  /** The end of CONNECT once the socket is connected: register the proxy,
      then, if the event loop accepts the socket, acknowledge with CONNECTED
      and set the global `client_connected` flag. */
  function Accept(e: VpnState, ch: ChanId, id: i32, fd: int, epollAddOk: bool): (s: Step)
    requires ch in e.chans
    ensures s.state.leases == e.leases && s.state.ring == e.ring && s.state.tunFd == e.tunFd
    ensures s.state.chans.Keys == e.chans.Keys
    ensures forall c :: c in e.chans && c != ch ==> s.state.chans[c] == e.chans[c]
    ensures s.state.clientConnected == (e.clientConnected || epollAddOk)
    ensures var h := e.nextHandle;
            && s.state.arena == e.arena[h := NewProxy(id, fd, ch)]
            && s.state.live == e.live + {h}
            && s.state.chans[ch].socks == e.chans[ch].socks + [h]
            && s.state.byId == e.byId + [h] && s.state.bySock == e.bySock + [h]
            && s.state.chans[ch].readyToWrite
            && (epollAddOk ==> s.state.polled == e.polled + {fd} &&
                               s.out == [ChWrite(ch, 's', ConnectedPacket(id), 16)])
            && (!epollAddOk ==> s.state.polled == e.polled && s.out == [])
  {
    var e1 := Register(e, ch, id, fd);
    if epollAddOk then
      var ack := ConnectedPacket(id);
      Step(SetReady(e1.(polled := e1.polled + {fd}, clientConnected := true), ch, true),
           [ChWrite(ch, 's', ack, TransmitLen(ack.header))])
    else
      Step(SetReady(e1, ch, true), [])
  }

  /** CONNECT: refuse an id already in the channel's map; otherwise open and
      connect a socket (the outcomes come from the oracle). A refused connect
      answers with the diagnostic text and registers nothing. A connected
      socket becomes a proxy in all three indexes; if the event loop accepts
      it, CONNECTED is sent and the global `client_connected` flag is set. */
  function Connect(e: VpnState, ch: ChanId, pkt: Packet, o: InOracle): (s: Step)
    requires ch in e.chans
    ensures FindById(e, e.chans[ch].socks, pkt.header.sockId).Some? ==> s == Step(e, [])
    ensures (o.ptonRet < 0 || o.fd < 0) ==> s == Step(e, [])
    ensures s.state.leases == e.leases && s.state.ring == e.ring && s.state.tunFd == e.tunFd
    ensures s.state.chans.Keys == e.chans.Keys
    ensures forall c :: c in e.chans && c != ch ==> s.state.chans[c] == e.chans[c]
    ensures forall h :: h in e.arena && h != e.nextHandle ==> h in s.state.arena && s.state.arena[h] == e.arena[h]
    ensures forall h :: h in s.state.arena ==> h in e.arena || h == e.nextHandle
    ensures s.state.clientConnected ==
      (e.clientConnected ||
       (FindById(e, e.chans[ch].socks, pkt.header.sockId).None? &&
        o.ptonRet >= 0 && o.fd >= 0 && o.connectOk && o.epollAddOk))
    ensures FindById(e, e.chans[ch].socks, pkt.header.sockId).None? && o.ptonRet >= 0 && o.fd >= 0 ==>
      if !o.connectOk then
        s == Step(SetReady(e, ch, true), [ChDiag(ch, pkt.header.sockId, pkt.header.opCode)])
      else
        var h := e.nextHandle;
        && s.state.arena == e.arena[h := NewProxy(pkt.header.sockId, o.fd, ch)]
        && s.state.live == e.live + {h}
        && s.state.chans[ch].socks == e.chans[ch].socks + [h]
        && s.state.byId == e.byId + [h] && s.state.bySock == e.bySock + [h]
        && s.state.chans[ch].readyToWrite
        && (o.epollAddOk ==> s.state.polled == e.polled + {o.fd} &&
                             s.out == [ChWrite(ch, 's', ConnectedPacket(pkt.header.sockId), 16)])
        && (!o.epollAddOk ==> s.state.polled == e.polled && s.out == [])
  {
    var id := pkt.header.sockId;
    if FindById(e, e.chans[ch].socks, id).Some? then Step(e, [])
    else if o.ptonRet < 0 then Step(e, [])
    else if o.fd < 0 then Step(e, [])
    else if !o.connectOk then
      Step(SetReady(e, ch, true), [ChDiag(ch, id, pkt.header.opCode)])
    else Accept(e, ch, id, o.fd, o.epollAddOk)
  }

  /** SEND: dropped unless the process-wide flag is set; otherwise
      `data_size` bytes of the payload go to the socket. A failed send tears
      the proxy down; a successful one adds to its 64-bit byte count, which
      wraps. */
  function Send(e: VpnState, ch: ChanId, h: Handle, pkt: Packet, sendRet: int): (s: Step)
    requires h in e.arena
    ensures !e.clientConnected ==> s == Step(e, [])
    ensures e.clientConnected ==>
      s.out == [SockSend(e.arena[h].sock, DataSize(pkt.header), pkt.data)]
    ensures e.clientConnected && sendRet < 0 ==> s.state == TearDown(e, ch, h)
    ensures e.clientConnected && sendRet >= 0 ==>
      && h in s.state.arena
      && s.state == e.(arena := e.arena[h := s.state.arena[h]])
      && s.state.arena[h] == e.arena[h].(bytesSent := s.state.arena[h].bytesSent)
      && s.state.arena[h].bytesSent == (e.arena[h].bytesSent + sendRet) % TwoTo64
  {
    if !e.clientConnected then Step(e, [])
    else
      var p := e.arena[h];
      var send := SockSend(p.sock, DataSize(pkt.header), pkt.data);
      if sendRet < 0 then Step(TearDown(e, ch, h), [send])
      else Step(e.(arena := e.arena[h := p.(bytesSent := (p.bytesSent + sendRet) % TwoTo64)]), [send])
  }

  /** DISCONNECT: tear the proxy down with no further I/O. */
  function Disconnect(e: VpnState, ch: ChanId, h: Handle): (s: Step)
    requires h in e.arena
    ensures s.out == [] && s.state == TearDown(e, ch, h)
    ensures h !in s.state.live && h !in s.state.byId && h !in s.state.bySock
    ensures ch in e.chans ==> ch in s.state.chans && h !in s.state.chans[ch].socks
    ensures e.arena[h].sock !in s.state.polled
    ensures forall c :: c in e.chans && c != ch ==> s.state.chans[c] == e.chans[c]
  {
    Step(TearDown(e, ch, h), [])
  }

  /** Record the time of use on a proxy. */
  function Touch(e: VpnState, h: Handle, now: int): (e': VpnState)
    requires h in e.arena
    ensures e'.arena == e.arena[h := e.arena[h].(lastUsed := now)]
    ensures e' == e.(arena := e'.arena)
  {
    e.(arena := e.arena[h := e.arena[h].(lastUsed := now)])
  }

  /** `ch_sf_packet_in`: read the frame's first 16 bytes as the header.
      Tunnel codes (0xb0 and up) reach only the address-request and
      VPN_SEND handlers; CONNECT runs without a lookup; every other code
      needs the socket id in the channel's map, touches the proxy's
      last-used time, and acts only for SEND and DISCONNECT. */
  function PacketIn(e: VpnState, ch: ChanId, frame: seq<byte>, o: InOracle): (s: Step)
    requires ch in e.chans && |frame| >= HeaderSize
  {
    var pkt := ParseFrame(frame);
    var op := pkt.header.opCode;
    if op >= RawOpThreshold then
      if op == OpVpnAddrRequest then AddrRequest(e, ch)
      else if op == OpVpnSend then VpnSend(e, ch, pkt, o.tunWriteRet)
      else Step(e, [])
    else if op == OpConnect then Connect(e, ch, pkt, o)
    else
      match FindById(e, e.chans[ch].socks, pkt.header.sockId)
      case None => Step(e, [])
      case Some(h) =>
        var e1 := Touch(e, h, o.now);
        if op == OpSend then Send(e1, ch, h, pkt, o.sendRet)
        else if op == OpDisconnect then Disconnect(e1, ch, h)
        else Step(e1, [])
  }

  /** The registry part of the state: proxy maps, liveness, global indexes
      and the event loop's interest set. */
  ghost predicate SameRegistry(e: VpnState, e': VpnState)
  {
    && e'.chans.Keys == e.chans.Keys
    && (forall c :: c in e.chans ==> e'.chans[c].socks == e.chans[c].socks)
    && e'.live == e.live && e'.byId == e.byId && e'.bySock == e.bySock
    && e'.polled == e.polled && e'.openFds == e.openFds
  }

  /** How `ch_sf_packet_in` routes a frame: a tunnel code other than the
      address request and VPN_SEND is dropped, an unknown socket id is
      dropped, and any code but CONNECT, SEND and DISCONNECT leaves the
      registry as it was, touching at most one proxy's last-used time. */
  lemma DispatchTable(e: VpnState, ch: ChanId, frame: seq<byte>, o: InOracle)
    requires ch in e.chans && |frame| >= HeaderSize
    ensures var op := Load32(frame[4..8]);
            var id := Signed32(Load32(frame[0..4]));
            var s := PacketIn(e, ch, frame, o);
            && (op >= 0xb0 && op != 0xb2 && op != 0xbc ==> s == Step(e, []))
            && (op == 0xb2 ==> s == AddrRequest(e, ch))
            && (op == 0xbc ==> s == VpnSend(e, ch, ParseFrame(frame), o.tunWriteRet))
            && (op == 0xaa ==> s == Connect(e, ch, ParseFrame(frame), o))
            && (op < 0xb0 && op != 0xaa && FindById(e, e.chans[ch].socks, id).None? ==> s == Step(e, []))
            && (op != 0xaa && op != 0xab && op != 0xac && op != 0xb2 && op != 0xbc ==>
                  SameRegistry(e, s.state) && s.out == [])
            && (op != 0xaa && op != 0xab && op != 0xac && op < 0xb0 ==>
                  forall h :: h in e.arena && h in s.state.arena && s.state.arena[h] != e.arena[h] ==>
                    s.state.arena[h] == e.arena[h].(lastUsed := o.now))
  {
    var pkt := ParseFrame(frame);
    HeaderRoundTrip(pkt.header);
    assert frame[..HeaderSize][0..4] == frame[0..4];
    assert frame[..HeaderSize][4..8] == frame[4..8];
  }

  /** The tunnel codes never touch the proxy registry. */
  lemma TunnelCodesLeaveRegistry(e: VpnState, ch: ChanId, frame: seq<byte>, o: InOracle)
    requires ch in e.chans && |frame| >= HeaderSize
    requires ParseFrame(frame).header.opCode >= RawOpThreshold
    ensures SameRegistry(e, PacketIn(e, ch, frame, o).state)
    ensures PacketIn(e, ch, frame, o).state.arena == e.arena
  {
    var pkt := ParseFrame(frame);
    var s := PacketIn(e, ch, frame, o);
    if pkt.header.opCode == OpVpnAddrRequest {
      assert s == AddrRequest(e, ch);
      AddrRequestKeepsRegistry(e, ch);
    } else if pkt.header.opCode == OpVpnSend {
      assert s == VpnSend(e, ch, pkt, o.tunWriteRet);
      VpnSendKeepsRegistry(e, ch, pkt, o.tunWriteRet);
    }
  }

  lemma AddrRequestKeepsRegistry(e: VpnState, ch: ChanId)
    requires ch in e.chans
    ensures SameRegistry(e, AddrRequest(e, ch).state) && AddrRequest(e, ch).state.arena == e.arena
  {
  }

  lemma VpnSendKeepsRegistry(e: VpnState, ch: ChanId, pkt: Packet, writeRet: int)
    requires ch in e.chans
    ensures SameRegistry(e, VpnSend(e, ch, pkt, writeRet).state) && VpnSend(e, ch, pkt, writeRet).state.arena == e.arena
  {
  }

  /** A second DISCONNECT for the same id finds nothing and changes nothing:
      teardown happens once. */
  lemma DisconnectTwice(e: VpnState, ch: ChanId, frame: seq<byte>, o: InOracle, o2: InOracle)
    requires Inv(e) && ch in e.chans && |frame| >= HeaderSize
    requires ParseFrame(frame).header.opCode == OpDisconnect
    ensures var s1 := PacketIn(e, ch, frame, o);
            ch in s1.state.chans &&
            PacketIn(s1.state, ch, frame, o2) == Step(s1.state, [])
  {
    var pkt := ParseFrame(frame);
    var s1 := PacketIn(e, ch, frame, o);
    assert ChanOk(e, ch);
    match FindById(e, e.chans[ch].socks, pkt.header.sockId)
    case None =>
    case Some(h) =>
      var e1 := Touch(e, h, o.now);
      var e2 := TearDown(e1, ch, h);
      assert s1.state == e2;
      forall x | x in e2.chans[ch].socks && x in e2.arena
        ensures e2.arena[x].id != pkt.header.sockId
      {
        assert x in e.chans[ch].socks && x != h;
      }
  }

  /** The SEND gate is one flag for the whole process: a SEND on channel B
      is dropped until any channel's CONNECT is registered with the event
      loop, and a CONNECT on another channel A opens the gate for B. */
  lemma SendGateIsGlobal(e: VpnState, chA: ChanId, chB: ChanId, connect: seq<byte>, send: seq<byte>, o: InOracle)
    requires Inv(e) && chA in e.chans && chB in e.chans && chA != chB && !e.clientConnected
    requires |connect| >= HeaderSize && |send| >= HeaderSize
    requires ParseFrame(connect).header.opCode == OpConnect
    requires ParseFrame(send).header.opCode == OpSend
    requires FindById(e, e.chans[chA].socks, ParseFrame(connect).header.sockId).None?
    requires FindById(e, e.chans[chB].socks, ParseFrame(send).header.sockId).Some?
    requires o.ptonRet >= 0 && o.fd >= 0 && o.connectOk && o.epollAddOk
    ensures PacketIn(e, chB, send, o).out == []
    ensures var e1 := PacketIn(e, chA, connect, o).state;
            && e1.clientConnected
            && chB in e1.chans
            && |PacketIn(e1, chB, send, o).out| == 1
            && PacketIn(e1, chB, send, o).out[0].SockSend?
  {
    var cp := ParseFrame(connect);
    var sp := ParseFrame(send);
    var c := Connect(e, chA, cp, o);
    assert PacketIn(e, chA, connect, o) == c;
    var e1 := c.state;
    assert e1.chans[chB] == e.chans[chB];
    assert ChanOk(e, chB);
    FindByIdSameEntries(e, e1, e.chans[chB].socks, sp.header.sockId);
    var h := FindById(e1, e1.chans[chB].socks, sp.header.sockId).value;
    var t := Touch(e1, h, o.now);
    assert PacketIn(e1, chB, send, o) == Send(t, chB, h, sp, o.sendRet);
    var h0 := FindById(e, e.chans[chB].socks, sp.header.sockId).value;
    assert PacketIn(e, chB, send, o) == Send(Touch(e, h0, o.now), chB, h0, sp, o.sendRet);
  }

  /** Lookup only depends on the arena entries of the handles searched. */
  lemma {:induction false} FindByIdSameEntries(e: VpnState, e': VpnState, hs: seq<Handle>, id: i32)
    requires forall h :: h in hs && h in e.arena ==> h in e'.arena && e'.arena[h] == e.arena[h]
    requires forall h :: h in hs && h in e'.arena ==> h in e.arena
    ensures FindById(e', hs, id) == FindById(e, hs, id)
  {
    if |hs| > 0 {
      FindByIdSameEntries(e, e', hs[1..], id);
    }
  }

  // ---------------------------------------------------------------------
  // The input handler keeps the registry invariant.

  lemma ConnectInv(e: VpnState, ch: ChanId, pkt: Packet, o: InOracle)
    requires Inv(e) && ch in e.chans && FreshFd(e, o)
    ensures Inv(Connect(e, ch, pkt, o).state)
    ensures NoStale(e) ==> NoStale(Connect(e, ch, pkt, o).state)
  {
    var id := pkt.header.sockId;
    if FindById(e, e.chans[ch].socks, id).None? && o.ptonRet >= 0 && o.fd >= 0 {
      if !o.connectOk {
        SetReadyInv(e, ch, true);
      } else {
        var e1 := Register(e, ch, id, o.fd);
        RegisterInv(e, ch, id, o.fd);
        if o.epollAddOk {
          PollInv(e1, o.fd);
          SetReadyInv(e1.(polled := e1.polled + {o.fd}, clientConnected := true), ch, true);
        } else {
          SetReadyInv(e1, ch, true);
        }
      }
    }
  }

  /** Adding a socket no proxy marked for deletion uses to the event loop. */
  lemma PollInv(e: VpnState, fd: int)
    requires Inv(e)
    requires forall x :: x in e.live && e.arena[x].signalToDelete ==> e.arena[x].sock != fd
    ensures Inv(e.(polled := e.polled + {fd}, clientConnected := true))
    ensures NoStale(e) ==> NoStale(e.(polled := e.polled + {fd}, clientConnected := true))
  {
    var e' := e.(polled := e.polled + {fd}, clientConnected := true);
    forall c | c in e'.chans ensures ChanOk(e', c) { assert ChanOk(e, c); }
    forall x | x in e'.live ensures LiveOk(e', x) { assert LiveOk(e, x); }
  }

  lemma RegisterInv(e: VpnState, ch: ChanId, id: i32, fd: int)
    requires Inv(e) && ch in e.chans && fd >= 0 && fd !in e.openFds
    requires FindById(e, e.chans[ch].socks, id).None?
    ensures Inv(Register(e, ch, id, fd))
    ensures NoStale(e) ==> NoStale(Register(e, ch, id, fd))
    ensures var e' := Register(e, ch, id, fd);
            forall x :: x in e'.live && e'.arena[x].signalToDelete ==> e'.arena[x].sock != fd
  {
    var h := e.nextHandle;
    var e' := Register(e, ch, id, fd);
    forall c | c in e'.chans ensures ChanOk(e', c) {
      RegisterChanOk(e, ch, id, fd, c);
    }
    forall x | x in e'.live ensures LiveOk(e', x) && (e'.arena[x].signalToDelete ==> e'.arena[x].sock != fd) {
      RegisterLiveOk(e, ch, id, fd, x);
    }
    forall h1, h2 | h1 in e'.live && h2 in e'.live && h1 != h2
      ensures e'.arena[h1].sock != e'.arena[h2].sock
    {
      if h1 != h { assert LiveOk(e, h1); }
      if h2 != h { assert LiveOk(e, h2); }
    }
  }

  /** `Register` keeps each channel's map in order. */
  lemma RegisterChanOk(e: VpnState, ch: ChanId, id: i32, fd: int, c: ChanId)
    requires Inv(e) && ch in e.chans && c in e.chans
    requires FindById(e, e.chans[ch].socks, id).None?
    ensures ChanOk(Register(e, ch, id, fd), c)
  {
    var h := e.nextHandle;
    assert h !in e.arena;
    assert ChanOk(e, c);
    if c == ch {
      var s := e.chans[ch].socks;
      assert h !in s;
      forall i, j | 0 <= i < j < |s + [h]| ensures (s + [h])[i] != (s + [h])[j] {
        if j == |s| { assert s[i] in s; }
      }
    }
  }

  /** `Register` keeps every live proxy in order, the new one included. */
  lemma RegisterLiveOk(e: VpnState, ch: ChanId, id: i32, fd: int, x: Handle)
    requires Inv(e) && ch in e.chans && fd >= 0 && fd !in e.openFds
    requires x in Register(e, ch, id, fd).live
    ensures var e' := Register(e, ch, id, fd);
            LiveOk(e', x) && (e'.arena[x].signalToDelete ==> e'.arena[x].sock != fd)
  {
    if x != e.nextHandle { assert LiveOk(e, x); }
  }

  lemma SendInv(e: VpnState, ch: ChanId, h: Handle, pkt: Packet, sendRet: int)
    requires Inv(e) && ch in e.chans && h in e.chans[ch].socks
    ensures h in e.arena
    ensures Inv(Send(e, ch, h, pkt, sendRet).state)
    ensures NoStale(e) ==> NoStale(Send(e, ch, h, pkt, sendRet).state)
  {
    assert ChanOk(e, ch);
    if e.clientConnected {
      if sendRet < 0 {
        TearDownInv(e, ch, h);
      } else {
        var e' := Send(e, ch, h, pkt, sendRet).state;
        forall c | c in e'.chans ensures ChanOk(e', c) { assert ChanOk(e, c); }
        forall x | x in e'.live ensures LiveOk(e', x) { assert LiveOk(e, x); }
      }
    }
  }

  lemma TouchInv(e: VpnState, h: Handle, now: int)
    requires Inv(e) && h in e.arena
    ensures Inv(Touch(e, h, now)) && (NoStale(e) ==> NoStale(Touch(e, h, now)))
  {
    var e' := Touch(e, h, now);
    forall c | c in e'.chans ensures ChanOk(e', c) { assert ChanOk(e, c); }
    forall x | x in e'.live ensures LiveOk(e', x) { assert LiveOk(e, x); }
  }

  /** Every input frame keeps the registry invariant, provided socket()
      hands out a descriptor that is not already open. */
  lemma PacketInInv(e: VpnState, ch: ChanId, frame: seq<byte>, o: InOracle)
    requires Inv(e) && ch in e.chans && |frame| >= HeaderSize && FreshFd(e, o)
    ensures Inv(PacketIn(e, ch, frame, o).state)
    ensures NoStale(e) ==> NoStale(PacketIn(e, ch, frame, o).state)
  {
    var pkt := ParseFrame(frame);
    var op := pkt.header.opCode;
    if op >= RawOpThreshold {
      if op == OpVpnAddrRequest {
        AddrRequestInv(e, ch);
      } else if op == OpVpnSend {
        SetReadyInv(e, ch, true);
      }
    } else if op == OpConnect {
      ConnectInv(e, ch, pkt, o);
    } else {
      match FindById(e, e.chans[ch].socks, pkt.header.sockId)
      case None =>
      case Some(h) =>
        ProxyOpInv(e, ch, h, pkt, o);
    }
  }

  /** Leasing an address leaves the registry alone. */
  lemma AddrRequestInv(e: VpnState, ch: ChanId)
    requires Inv(e) && ch in e.chans
    ensures Inv(AddrRequest(e, ch).state)
    ensures NoStale(e) ==> NoStale(AddrRequest(e, ch).state)
  {
    var e' := AddrRequest(e, ch).state;
    forall c | c in e'.chans ensures ChanOk(e', c) { assert ChanOk(e, c); }
    forall x | x in e'.live ensures LiveOk(e', x) { assert LiveOk(e, x); }
  }

  /** SEND, DISCONNECT and the codes without a handler, on a proxy found by
      its socket id, keep the invariant. */
  lemma ProxyOpInv(e: VpnState, ch: ChanId, h: Handle, pkt: Packet, o: InOracle)
    requires Inv(e) && ch in e.chans && h in e.chans[ch].socks && h in e.arena
    ensures var e1 := Touch(e, h, o.now);
            var op := pkt.header.opCode;
            var s := if op == OpSend then Send(e1, ch, h, pkt, o.sendRet)
                     else if op == OpDisconnect then Disconnect(e1, ch, h)
                     else Step(e1, []);
            Inv(s.state) && (NoStale(e) ==> NoStale(s.state))
  {
    TouchInv(e, h, o.now);
    var e1 := Touch(e, h, o.now);
    if pkt.header.opCode == OpSend {
      SendInv(e1, ch, h, pkt, o.sendRet);
    } else if pkt.header.opCode == OpDisconnect {
      TearDownInv(e1, ch, h);
    }
  }
}
