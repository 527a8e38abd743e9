/** The address lease manager of the local network state: the gateway and
    last-leased address set up when the tunnel is created, the free-address
    list, and the lease table from client address to owning channel.
    Addresses are `in_addr.s_addr` values: the four octets in network order
    in memory, read by the little-endian host as one 32-bit number. */
module Lease {
  import opened Bytes

  type Addr = u32
  type ChanId = nat

  datatype Leases = Leases(
    netAddr: Addr,              // client_addr: the configured network address
    mask: Addr,                 // client_addr_mask
    host: Addr,                 // client_addr_host: the gateway handed to clients
    last: Addr,                 // client_addr_last
    clients: map<Addr, ChanId>, // lease table
    free: seq<Addr>)            // released addresses, head first

  /** The `s_addr` of dotted address a.b.c.d. */
  function Dotted(a: byte, b: byte, c: byte, d: byte): (x: Addr)
    ensures Mem32(x) == [a, b, c, d]
  {
    Load32([a, b, c, d])
  }

  /** `x | 0x01000000` on a 32-bit value. */
  function OrGatewayBit(x: Addr): (y: Addr)
    ensures (y / 0x100_0000) % 2 == 1
    ensures y % 0x100_0000 == x % 0x100_0000
    ensures y / 0x200_0000 == x / 0x200_0000
  {
    if (x / 0x100_0000) % 2 == 1 then x else x + 0x100_0000
  }

  /** On the little-endian host the gateway bit is the low bit of the last
      octet: network a.b.c.d yields gateway a.b.c.(d|1). */
  lemma GatewayIsLastOctetOr1(a: byte, b: byte, c: byte, d: byte)
    ensures OrGatewayBit(Dotted(a, b, c, d)) == Dotted(a, b, c, if d % 2 == 1 then d else d + 1)
  {
    var d' := if d % 2 == 1 then d else d + 1;
    var lo := a + 256 * (b + 256 * c);
    Load32Value(a, b, c, d);
    Load32Value(a, b, c, d');
    assert Dotted(a, b, c, d) == lo + 0x100_0000 * d;
    assert Dotted(a, b, c, d') == lo + 0x100_0000 * d';
    HighByte(lo, d);
  }

  /** The top byte of a 32-bit value split as `lo` below 2^24 and `d` above. */
  lemma HighByte(lo: int, d: byte)
    requires 0 <= lo < 0x100_0000
    ensures (lo + 0x100_0000 * d) / 0x100_0000 == d
  {
  }

  /** The address after `last` in host byte order:
      `htonl(ntohl(last) + 1)`, wrapping at 2^32 like the `in_addr_t` it is computed in. */
  function NextAddr(last: Addr): (n: Addr)
    ensures ByteSwap32(n) == (ByteSwap32(last) + 1) % TwoTo32
  {
    var h := (ByteSwap32(last) + 1) % TwoTo32;
    ByteSwapInvolution(h);
    ByteSwap32(h)
  }

  /** The address part of `ch_sf_tun_create`: the gateway is the configured
      address with the gateway bit set, and leasing starts after it. */
  function TunCreate(netAddr: Addr, mask: Addr): (l: Leases)
    ensures l.host == OrGatewayBit(netAddr) && l.last == l.host
    ensures l.clients == map[] && l.free == []
  {
    var host := OrGatewayBit(netAddr);
    Leases(netAddr, mask, host, host, map[], [])
  }

  datatype Grant = Grant(leases: Leases, addr: Addr)

  /** The lease half of `ch_sf_packet_ADDR_REQUEST`: take the head of the
      free list if there is one, otherwise the address after the last one;
      either way it becomes the last-leased address and is mapped to `ch`. */
  function Allocate(l: Leases, ch: ChanId): (g: Grant)
    ensures |l.free| > 0 ==> g.addr == l.free[0] && g.leases.free == l.free[1..]
    ensures |l.free| == 0 ==>
      ByteSwap32(g.addr) == (ByteSwap32(l.last) + 1) % TwoTo32 && g.leases.free == []
    ensures g.leases.last == g.addr
    ensures g.leases.clients == l.clients[g.addr := ch]
    ensures g.leases.host == l.host && g.leases.mask == l.mask && g.leases.netAddr == l.netAddr
  {
    var a := if |l.free| > 0 then l.free[0] else NextAddr(l.last);
    var free := if |l.free| > 0 then l.free[1..] else l.free;
    Grant(l.(last := a, clients := l.clients[a := ch], free := free), a)
  }

  /** The lease half of `ch_sf_delete` for a session holding address `a`:
      the address goes to the tail of the free list (whether or not the
      table still has it) and its table entry is removed. A zero address
      releases nothing. */
  function Release(l: Leases, a: Addr): (l': Leases)
    ensures a != 0 ==> l'.free == l.free + [a] && l'.clients == l.clients - {a}
    ensures a == 0 ==> l' == l
    ensures l'.last == l.last && l'.host == l.host
  {
    if a == 0 then l else l.(free := l.free + [a], clients := l.clients - {a})
  }

  /** Addresses granted by `n` consecutive requests from channel `ch`. */
  function AllocateMany(l: Leases, ch: ChanId, n: nat): (r: (Leases, seq<Addr>))
    ensures |r.1| == n
    decreases n
  {
    if n == 0 then (l, [])
    else
      var g := Allocate(l, ch);
      var rest := AllocateMany(g.leases, ch, n - 1);
      (rest.0, [g.addr] + rest.1)
  }

  /** The free list is first-in first-out: the next |free| requests are
      granted exactly the free list, in order, and empty it. */
  lemma {:induction false} FreeListIsFifo(l: Leases, ch: ChanId)
    ensures AllocateMany(l, ch, |l.free|).1 == l.free
    ensures AllocateMany(l, ch, |l.free|).0.free == []
    decreases |l.free|
  {
    if |l.free| > 0 {
      var g := Allocate(l, ch);
      FreeListIsFifo(g.leases, ch);
    }
  }

  /** Releasing `a` then `b` and requesting twice returns `a` first: the
      first released address is the first reused. */
  lemma ReleaseOrderIsReuseOrder(l: Leases, a: Addr, b: Addr, ch: ChanId)
    requires l.free == [] && a != 0 && b != 0
    ensures AllocateMany(Release(Release(l, a), b), ch, 2).1 == [a, b]
  {
    var l2 := Release(Release(l, a), b);
    assert l2.free == [a, b];
    FreeListIsFifo(l2, ch);
  }

  /** The first lease on a fresh 10.0.0.0/24 network is 10.0.0.2, with
      gateway 10.0.0.1. */
  lemma FirstLeaseScenario(ch: ChanId)
    ensures var l := TunCreate(Dotted(10, 0, 0, 0), Dotted(255, 255, 255, 0));
            var g := Allocate(l, ch);
            && l.host == Dotted(10, 0, 0, 1)
            && g.addr == Dotted(10, 0, 0, 2)
            && g.leases.clients[g.addr] == ch
  {
    GatewayIsLastOctetOr1(10, 0, 0, 0);
    var l := TunCreate(Dotted(10, 0, 0, 0), Dotted(255, 255, 255, 0));
    SwapIncrement(10, 0, 0, 1);
    FreshLease(l, ch);
  }

  /** Incrementing in host order bumps the last octet when it is below 255. */
  lemma SwapIncrement(a: byte, b: byte, c: byte, d: byte)
    requires d < 255
    ensures NextAddr(Dotted(a, b, c, d)) == Dotted(a, b, c, d + 1)
  {
    var x := Dotted(a, b, c, d);
    var y := Dotted(a, b, c, d + 1);
    SwapDotted(a, b, c, d);
    SwapDotted(a, b, c, d + 1);
    var n := NextAddr(x);
    assert ByteSwap32(n) == ByteSwap32(y);
    ByteSwapInvolution(n);
    ByteSwapInvolution(y);
  }

  /** The host-order value of a.b.c.d. */
  lemma SwapDotted(a: byte, b: byte, c: byte, d: byte)
    ensures ByteSwap32(Dotted(a, b, c, d)) == d + 256 * (c + 256 * (b + 256 * a))
  {
    var x := Dotted(a, b, c, d);
    assert Reverse(Mem32(x)) == [d, c, b, a];
    Mem32Injective(ByteSwap32(x), Load32([d, c, b, a]));
    Load32Value(d, c, b, a);
  }

  /** Because a reused address also overwrites the last-leased counter, the
      next fresh lease can hand out an address that is still leased: A gets
      .2, B gets .3, A releases .2, C reuses .2, and D is then given .3,
      which B still holds. */
  lemma DuplicateLeaseReachable(chA: ChanId, chB: ChanId, chC: ChanId, chD: ChanId)
    requires chB != chD
    ensures var l0 := TunCreate(Dotted(10, 0, 0, 0), Dotted(255, 255, 255, 0));
            var gA := Allocate(l0, chA);
            var gB := Allocate(gA.leases, chB);
            var l3 := Release(gB.leases, gA.addr);
            var gC := Allocate(l3, chC);
            var gD := Allocate(gC.leases, chD);
            && gD.addr == gB.addr
            && gD.addr in gC.leases.clients && gC.leases.clients[gD.addr] == chB
            && gD.leases.clients[gD.addr] == chD
  {
    var l0 := TunCreate(Dotted(10, 0, 0, 0), Dotted(255, 255, 255, 0));
    FirstLeaseScenario(chA);
    FreshLease(l0, chA);
    var x2 := Dotted(10, 0, 0, 2);
    var x3 := Dotted(10, 0, 0, 3);
    SwapIncrement(10, 0, 0, 2);
    assert x2 != x3 by {
      assert Mem32(x2)[3] != Mem32(x3)[3];
    }
    Load32Value(10, 0, 0, 2);
    DuplicateLeaseAfterReuse(l0, chA, chB, chC, chD);
  }

  /** The scenario on any fresh lease state whose next two addresses are
      distinct and the first non-zero. */
  lemma DuplicateLeaseAfterReuse(l0: Leases, chA: ChanId, chB: ChanId, chC: ChanId, chD: ChanId)
    requires l0.free == [] && chB != chD
    requires NextAddr(l0.last) != 0 && NextAddr(NextAddr(l0.last)) != NextAddr(l0.last)
    ensures var gA := Allocate(l0, chA);
            var gB := Allocate(gA.leases, chB);
            var l3 := Release(gB.leases, gA.addr);
            var gC := Allocate(l3, chC);
            var gD := Allocate(gC.leases, chD);
            && gD.addr == gB.addr
            && gD.addr in gC.leases.clients && gC.leases.clients[gD.addr] == chB
            && gD.leases.clients[gD.addr] == chD
  {
    var gA := Allocate(l0, chA);
    FreshLease(l0, chA);
    var gB := Allocate(gA.leases, chB);
    FreshLease(gA.leases, chB);
    var l3 := Release(gB.leases, gA.addr);
    var gC := Allocate(l3, chC);
    assert gC.addr == gA.addr && gC.leases.free == [];
    FreshLease(gC.leases, chD);
  }

  /** With nothing on the free list the grant is the address after the
      last one. */
  lemma FreshLease(l: Leases, ch: ChanId)
    requires l.free == []
    ensures Allocate(l, ch).addr == NextAddr(l.last)
  {
  }
}
