/** The state the VPN channel keeps, as one immutable record: the attached
    channels, an arena of socket proxies with the three indexes that refer
    to them, the readiness-interest set of the proxy event loop, the lease
    manager and the tunnel's outbound ring. Each handler of the channel is a
    pure step from one state to the next, with the I/O it performs listed as
    effects and the outcomes of sockets, the device and the transport
    passed in. */
module Engine {
  import opened Bytes
  import opened Wire
  import opened ProxyQueue
  import Lease
  import OutRing

  /** A proxy object's address in the arena. */
  type Handle = nat
  type ChanId = nat

  /** Per-channel state: the channel's proxy map (`socks`, in uthash
      insertion order), the transport's ready-to-write flag, and the
      session's leased tunnel address (0 when none). */
  datatype Chan = Chan(socks: seq<Handle>, readyToWrite: bool, tunAddr: Lease.Addr)

  datatype VpnState = VpnState(
    chans: map<ChanId, Chan>,
    arena: map<Handle, Proxy>,   // every proxy ever created
    live: set<Handle>,           // the ones not yet freed
    nextHandle: nat,
    byId: seq<Handle>,           // global index by peer id (`sf_socks`)
    bySock: seq<Handle>,         // global index by native socket (`sf_socks_client`)
    polled: set<int>,            // sockets registered with the proxy event loop
    openFds: set<int>,           // sockets opened here and not closed
    clientConnected: bool,       // the process-wide `client_connected` flag
    leases: Lease.Leases,
    ring: OutRing.Ring,
    tunFd: i32)

  /** I/O performed by a step. */
  datatype Effect =
    | ChWrite(ch: ChanId, kind: char, pkt: Packet, len: nat)   // `dap_stream_ch_pkt_write`
    | ChDiag(ch: ChanId, sockId: i32, opCode: u32)            // the formatted "result=-1" reply
    | TunWrite(len: nat, avail: seq<byte>)                    // write to the tunnel device
    | SockSend(sock: int, len: nat, avail: seq<byte>)         // `send` on a forwarded socket

  datatype Step = Step(state: VpnState, out: seq<Effect>)

  /** The state once the channel is initialised and the tunnel addresses
      are set up: nothing attached, nothing leased, an empty ring. */
  function Init(netAddr: Lease.Addr, mask: Lease.Addr, tunFd: i32): (e: VpnState)
    ensures e.chans == map[] && e.live == {} && !e.clientConnected
    ensures e.leases == Lease.TunCreate(netAddr, mask)
  {
    VpnState(map[], map[], {}, 0, [], [], {}, {}, false, Lease.TunCreate(netAddr, mask), OutRing.Empty(), tunFd)
  }

  ghost predicate NoDup(s: seq<Handle>)
  {
    forall i, j :: 0 <= i < j < |s| ==> s[i] != s[j]
  }

  /** `s` with every occurrence of `h` removed, order kept. */
  function Without(s: seq<Handle>, h: Handle): (r: seq<Handle>)
    ensures forall x :: x in r <==> x in s && x != h
    ensures NoDup(s) ==> NoDup(r)
  {
    if |s| == 0 then []
    else if s[0] == h then Without(s[1..], h)
    else
      var rest := Without(s[1..], h);
      assert NoDup(s) ==> s[0] !in s[1..] by {
        forall k | 0 <= k < |s| - 1 ensures NoDup(s) ==> s[1..][k] != s[0] {
          assert s[1..][k] == s[k + 1];
        }
      }
      [s[0]] + rest
  }

  function SetReady(e: VpnState, ch: ChanId, ready: bool): (e': VpnState)
    ensures ch in e.chans ==> e'.chans == e.chans[ch := e.chans[ch].(readyToWrite := ready)]
    ensures ch !in e.chans ==> e' == e
    ensures e' == e.(chans := e'.chans)
  {
    if ch in e.chans then e.(chans := e.chans[ch := e.chans[ch].(readyToWrite := ready)]) else e
  }

  /** Remove a proxy from the channel's map and both global indexes. */
  function Unindex(e: VpnState, ch: ChanId, h: Handle): (e': VpnState)
    ensures e'.chans.Keys == e.chans.Keys
    ensures forall c :: c in e.chans ==>
      e'.chans[c] == e.chans[c].(socks := e'.chans[c].socks) &&
      (forall x :: x in e'.chans[c].socks <==> x in e.chans[c].socks && (c != ch || x != h))
    ensures ch in e.chans ==> e'.chans[ch].socks == Without(e.chans[ch].socks, h)
    ensures forall c :: c in e.chans && c != ch ==> e'.chans[c] == e.chans[c]
    ensures forall x :: x in e'.byId <==> x in e.byId && x != h
    ensures forall x :: x in e'.bySock <==> x in e.bySock && x != h
    ensures e' == e.(chans := e'.chans, byId := e'.byId, bySock := e'.bySock)
  {
    var chans := if ch in e.chans then e.chans[ch := e.chans[ch].(socks := Without(e.chans[ch].socks, h))] else e.chans;
    e.(chans := chans, byId := Without(e.byId, h), bySock := Without(e.bySock, h))
  }

  /** `stream_sf_socket_delete`: close the socket if positive, free the proxy. */
  function SocketDelete(e: VpnState, h: Handle): (e': VpnState)
    requires h in e.arena
    ensures e'.live == e.live - {h}
    ensures e'.openFds == if e.arena[h].sock > 0 then e.openFds - {e.arena[h].sock} else e.openFds
    ensures e' == e.(live := e'.live, openFds := e'.openFds)
  {
    var s := e.arena[h].sock;
    e.(live := e.live - {h}, openFds := if s > 0 then e.openFds - {s} else e.openFds)
  }

  /** Teardown on SEND failure and on DISCONNECT: out of all three indexes,
      out of the event loop's interest set, then deleted. Only `h` is
      unlinked: every other index entry, every other channel and every
      other socket stays as it was. */
  function TearDown(e: VpnState, ch: ChanId, h: Handle): (e': VpnState)
    requires h in e.arena
    ensures h !in e'.live && h !in e'.byId && h !in e'.bySock
    ensures ch in e.chans ==> ch in e'.chans && h !in e'.chans[ch].socks
    ensures e'.chans.Keys == e.chans.Keys
    ensures ch in e.chans ==> e'.chans[ch] == e.chans[ch].(socks := Without(e.chans[ch].socks, h))
    ensures forall c :: c in e.chans && c != ch ==> e'.chans[c] == e.chans[c]
    ensures e'.live == e.live - {h}
    ensures forall x :: x in e'.byId <==> x in e.byId && x != h
    ensures forall x :: x in e'.bySock <==> x in e.bySock && x != h
    ensures e'.polled == e.polled - {e.arena[h].sock}
    ensures e'.openFds == if e.arena[h].sock > 0 then e.openFds - {e.arena[h].sock} else e.openFds
    ensures e' == e.(chans := e'.chans, live := e'.live, byId := e'.byId, bySock := e'.bySock,
                     polled := e'.polled, openFds := e'.openFds)
  {
    var e1 := Unindex(e, ch, h);
    var e2 := e1.(polled := e1.polled - {e.arena[h].sock});
    SocketDelete(e2, h)
  }

  /** Teardown at the end of a flush of a proxy marked for deletion: out of
      all three indexes and deleted (its socket already left the interest set). */
  function TearDownFlushed(e: VpnState, ch: ChanId, h: Handle): (e': VpnState)
    requires h in e.arena
    ensures h !in e'.live && h !in e'.byId && h !in e'.bySock
    ensures ch in e.chans ==> ch in e'.chans && h !in e'.chans[ch].socks
    ensures e'.chans.Keys == e.chans.Keys
    ensures ch in e.chans ==> e'.chans[ch].socks == Without(e.chans[ch].socks, h)
    ensures e'.live == e.live - {h}
    ensures forall x :: x in e'.byId <==> x in e.byId && x != h
    ensures forall x :: x in e'.bySock <==> x in e.bySock && x != h
    ensures forall c :: c in e.chans && c != ch ==> e'.chans[c] == e.chans[c]
    ensures e'.openFds == if e.arena[h].sock > 0 then e.openFds - {e.arena[h].sock} else e.openFds
    ensures e'.arena == e.arena && e'.polled == e.polled
    ensures e' == e.(chans := e'.chans, live := e'.live, byId := e'.byId, bySock := e'.bySock,
                     openFds := e'.openFds)
  {
    SocketDelete(Unindex(e, ch, h), h)
  }

  /** `ch_sf_client_new`: attach a channel with an empty proxy map. */
  function ClientNew(e: VpnState, ch: ChanId): (e': VpnState)
    requires ch !in e.chans
    ensures e'.chans == e.chans[ch := Chan([], false, 0)]
    ensures e' == e.(chans := e'.chans)
  {
    e.(chans := e.chans[ch := Chan([], false, 0)])
  }

  /** `ch_sf_delete`: release the session's lease, then free every proxy of
      the channel after taking it out of the channel's map only; the global
      indexes keep referring to the freed proxies and their sockets stay
      open and registered. */
  function ChDelete(e: VpnState, ch: ChanId): (e': VpnState)
    requires ch in e.chans
    ensures e'.leases == Lease.Release(e.leases, e.chans[ch].tunAddr)
    ensures e'.live == e.live - (set h | h in e.chans[ch].socks)
    ensures e'.chans == e.chans - {ch}
    ensures e'.byId == e.byId && e'.bySock == e.bySock && e'.polled == e.polled && e'.openFds == e.openFds
    ensures e'.arena == e.arena
  {
    var c := e.chans[ch];
    e.(leases := Lease.Release(e.leases, c.tunAddr),
       live := e.live - (set h | h in c.socks),
       chans := e.chans - {ch})
  }

  // ---------------------------------------------------------------------
  // The registry invariant.

  /** Queue bound: at most 99 entries until the DISCONNECT is appended, 100 after. */
  function QueueLimit(p: Proxy): nat
  {
    if p.signalToDelete then QueueCapacity else QueueCapacity - 1
  }

  ghost predicate ChanOk(e: VpnState, c: ChanId)
  {
    && c in e.chans
    && NoDup(e.chans[c].socks)
    && (forall h :: h in e.chans[c].socks ==> h in e.live && h in e.arena && e.arena[h].ch == c)
    && (forall h1, h2 :: h1 in e.chans[c].socks && h2 in e.chans[c].socks && h1 != h2 ==>
          e.arena[h1].id != e.arena[h2].id)
  }

  ghost predicate LiveOk(e: VpnState, h: Handle)
  {
    && h in e.arena
    && e.arena[h].ch in e.chans
    && h in e.chans[e.arena[h].ch].socks
    && h in e.byId && h in e.bySock
    && e.arena[h].sock in e.openFds
    && |e.arena[h].queue| <= QueueLimit(e.arena[h])
    && (e.arena[h].signalToDelete ==> e.arena[h].sock !in e.polled)
  }

  /** Every live proxy sits in its channel's map and both global indexes;
      a channel's map holds live proxies of that channel with distinct ids;
      live proxies have distinct open sockets; queues stay within their
      bound, and a proxy marked for deletion no longer receives events. */
  ghost predicate Inv(e: VpnState)
  {
    && e.live <= e.arena.Keys
    && (forall h :: h in e.arena ==> h < e.nextHandle)
    && (forall c :: c in e.chans ==> ChanOk(e, c))
    && (forall h :: h in e.live ==> LiveOk(e, h))
    && (forall h1, h2 :: h1 in e.live && h2 in e.live && h1 != h2 ==>
          e.arena[h1].sock != e.arena[h2].sock)
  }

  /** No index refers to a freed proxy. */
  ghost predicate NoStale(e: VpnState)
  {
    (forall h :: h in e.byId ==> h in e.live) && (forall h :: h in e.bySock ==> h in e.live)
  }

  lemma InitInv(netAddr: Lease.Addr, mask: Lease.Addr, tunFd: i32)
    ensures Inv(Init(netAddr, mask, tunFd)) && NoStale(Init(netAddr, mask, tunFd))
  {
  }

  /** Setting a channel's ready-to-write flag touches no proxy and no index. */
  lemma SetReadyInv(e: VpnState, ch: ChanId, b: bool)
    requires Inv(e)
    ensures Inv(SetReady(e, ch, b)) && (NoStale(e) ==> NoStale(SetReady(e, ch, b)))
  {
    var e' := SetReady(e, ch, b);
    forall c | c in e'.chans ensures ChanOk(e', c) { assert ChanOk(e, c); }
    forall x | x in e'.live ensures LiveOk(e', x) { assert LiveOk(e, x); }
  }

  lemma ClientNewInv(e: VpnState, ch: ChanId)
    requires Inv(e) && ch !in e.chans
    ensures Inv(ClientNew(e, ch))
  {
    var e' := ClientNew(e, ch);
    forall c | c in e'.chans ensures ChanOk(e', c) {
      if c != ch { assert ChanOk(e, c); }
    }
    forall h | h in e'.live ensures LiveOk(e', h) {
      assert LiveOk(e, h);
      assert e.arena[h].ch != ch;
    }
  }

  lemma ChDeleteInv(e: VpnState, ch: ChanId)
    requires Inv(e) && ch in e.chans
    ensures Inv(ChDelete(e, ch))
  {
    var e' := ChDelete(e, ch);
    forall c | c in e'.chans ensures ChanOk(e', c) {
      assert ChanOk(e, c);
      assert ChanOk(e, ch);
      forall h | h in e'.chans[c].socks ensures h in e'.live {
        assert e.arena[h].ch == c;
        assert h !in e.chans[ch].socks;
      }
    }
    forall h | h in e'.live ensures LiveOk(e', h) {
      assert LiveOk(e, h);
    }
  }

  /** Tearing a proxy down through the SEND-failure / DISCONNECT path keeps the invariant. */
  lemma TearDownInv(e: VpnState, ch: ChanId, h: Handle)
    requires Inv(e) && ch in e.chans && h in e.chans[ch].socks
    ensures Inv(TearDown(e, ch, h)) && (NoStale(e) ==> NoStale(TearDown(e, ch, h)))
  {
    assert ChanOk(e, ch);
    var e' := TearDown(e, ch, h);
    forall c | c in e'.chans ensures ChanOk(e', c) {
      assert ChanOk(e, c);
      if c == ch {
        assert e'.chans[c].socks == Without(e.chans[c].socks, h);
      }
    }
    forall x | x in e'.live ensures LiveOk(e', x) {
      assert LiveOk(e, x);
      assert e.arena[x].sock != e.arena[h].sock;
      if e.arena[x].ch == ch { assert x != h; }
    }
  }

  /** A teardown unlinks one proxy and no other: every other live proxy
      stays live, in its channel's map and both global indexes, with its
      socket still open and exactly as polled as before. */
  lemma TearDownKeepsSiblings(e: VpnState, ch: ChanId, h: Handle)
    requires Inv(e) && ch in e.chans && h in e.chans[ch].socks
    ensures var e' := TearDown(e, ch, h);
            forall x :: x in e.live && x != h ==>
              && x in e'.live && x in e'.byId && x in e'.bySock
              && e'.arena[x] == e.arena[x]
              && e.arena[x].ch in e'.chans && x in e'.chans[e.arena[x].ch].socks
              && e.arena[x].sock in e'.openFds
              && (e.arena[x].sock in e'.polled <==> e.arena[x].sock in e.polled)
  {
    assert ChanOk(e, ch);
    var e' := TearDown(e, ch, h);
    forall x | x in e.live && x != h
      ensures && x in e'.live && x in e'.byId && x in e'.bySock
              && e'.arena[x] == e.arena[x]
              && e.arena[x].ch in e'.chans && x in e'.chans[e.arena[x].ch].socks
              && e.arena[x].sock in e'.openFds
              && (e.arena[x].sock in e'.polled <==> e.arena[x].sock in e.polled)
    {
      assert LiveOk(e, x);
      assert e.arena[x].sock != e.arena[h].sock;
    }
  }

  /** The same for the teardown at the end of a flush. */
  lemma TearDownFlushedInv(e: VpnState, ch: ChanId, h: Handle)
    requires Inv(e) && ch in e.chans && h in e.chans[ch].socks
    ensures Inv(TearDownFlushed(e, ch, h)) && (NoStale(e) ==> NoStale(TearDownFlushed(e, ch, h)))
  {
    assert ChanOk(e, ch);
    var e' := TearDownFlushed(e, ch, h);
    forall c | c in e'.chans ensures ChanOk(e', c) {
      assert ChanOk(e, c);
      if c == ch {
        assert e'.chans[c].socks == Without(e.chans[c].socks, h);
      }
    }
    forall x | x in e'.live ensures LiveOk(e', x) {
      assert LiveOk(e, x);
      assert e.arena[x].sock != e.arena[h].sock;
      if e.arena[x].ch == ch { assert x != h; }
    }
  }

  /** `ch_sf_delete` leaves the global indexes pointing at freed proxies
      whenever the channel had any: the registry is no longer free of
      stale references. */
  lemma ChDeleteLeavesStale(e: VpnState, ch: ChanId)
    requires Inv(e) && ch in e.chans && |e.chans[ch].socks| > 0
    ensures !NoStale(ChDelete(e, ch))
    ensures exists h :: h in ChDelete(e, ch).bySock && h !in ChDelete(e, ch).live
  {
    assert ChanOk(e, ch);
    var h := e.chans[ch].socks[0];
    assert LiveOk(e, h);
    assert h in ChDelete(e, ch).bySock && h !in ChDelete(e, ch).live;
  }
}
