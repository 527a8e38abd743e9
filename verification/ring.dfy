/** The tunnel's outbound ring (`pkt_out` of the local network state):
    400 packet slots, a read index, a write index and a `size_t` count,
    driven by `ch_sf_raw_write` and `ch_sf_raw_read` exactly as written. */
module OutRing {
  import opened Bytes
  import opened Wire

  const Capacity: nat := 400

  /** `size_t` on the 64-bit host: the count wraps modulo 2^64. */
  const SizeModulus: nat := 0x1_0000_0000_0000_0000

  datatype Ring = Ring(slots: seq<Option<Packet>>, rindex: nat, windex: nat, size: nat)

  ghost predicate Valid(r: Ring)
  {
    |r.slots| == Capacity && r.rindex <= Capacity && r.windex <= Capacity && r.size < SizeModulus
  }

  /** The zero-initialised ring. */
  function Empty(): (r: Ring)
    ensures Valid(r)
  {
    Ring(seq(Capacity, _ => None), 0, 0, 0)
  }

  /** Each operation first sends its own index back to slot 0 once it has reached the capacity. */
  function Wrap(i: nat): (j: nat)
    ensures i < Capacity ==> j == i
    ensures i >= Capacity ==> j == 0
  {
    if i >= Capacity then 0 else i
  }

  /** The packet `ch_sf_raw_write` builds: socket id is the tunnel descriptor,
      op code truncated to the `uint8_t` parameter, data size set only for a
      non-empty payload (zero either way). */
  function RawPacket(tunFd: i32, op: u32, data: seq<byte>): (p: Packet)
    ensures p.header.opCode == op % 256 && p.data == data
    ensures p.header.sockId == tunFd
    ensures DataSize(p.header) == Trunc32(|data|)
  {
    if |data| > 0 then Packet(DataHeader(tunFd, op % 256, Trunc32(|data|)), data)
    else Packet(BareHeader(tunFd, op % 256), data)
  }

  datatype WriteResult = WriteResult(ring: Ring, ret: int)

  /** `ch_sf_raw_write`: store at the write index if it is behind the read
      index or the count is zero; otherwise refuse with -1. */
  function Write(r: Ring, p: Packet): (w: WriteResult)
    requires Valid(r)
    ensures Valid(w.ring)
    ensures w.ret >= 0 <==> (Wrap(r.windex) < r.rindex || r.size == 0)
    ensures w.ret >= 0 ==>
      && w.ring.slots == r.slots[Wrap(r.windex) := Some(p)]
      && w.ring.windex == Wrap(r.windex) + 1 == w.ret
      && w.ring.rindex == r.rindex
      && w.ring.size == (r.size + 1) % SizeModulus
    ensures w.ret < 0 ==> w.ret == -1 && w.ring == r.(windex := Wrap(r.windex))
  {
    var wi := Wrap(r.windex);
    if wi < r.rindex || r.size == 0 then
      WriteResult(Ring(r.slots[wi := Some(p)], r.rindex, wi + 1, (r.size + 1) % SizeModulus), wi + 1)
    else
      WriteResult(r.(windex := wi), -1)
  }

  /** What `ch_sf_raw_read` did: `taken` when it advanced past a slot, with
      that slot's content (which can be a null slot). */
  datatype ReadResult = ReadResult(ring: Ring, taken: bool, pkt: Option<Packet>)

  /** `ch_sf_raw_read`: take the slot at the read index unless the indices
      meet with a nonzero count. A read with a zero count is taken too, and
      the count wraps below zero. */
  function Read(r: Ring): (rd: ReadResult)
    requires Valid(r)
    ensures Valid(rd.ring)
    ensures !rd.taken <==> (Wrap(r.rindex) == r.windex && r.size != 0)
    ensures rd.taken ==>
      && rd.pkt == r.slots[Wrap(r.rindex)]
      && rd.ring.rindex == Wrap(r.rindex) + 1
      && rd.ring.size == (r.size + SizeModulus - 1) % SizeModulus
      && rd.ring.slots == r.slots && rd.ring.windex == r.windex
    ensures !rd.taken ==> rd.pkt == None && rd.ring == r.(rindex := Wrap(r.rindex))
  {
    var ri := Wrap(r.rindex);
    if ri != r.windex || r.size == 0 then
      ReadResult(Ring(r.slots, ri + 1, r.windex, (r.size + SizeModulus - 1) % SizeModulus), true, r.slots[ri])
    else
      ReadResult(r.(rindex := ri), false, None)
  }

  /** Both indices at the same slot and nothing counted. */
  ghost predicate Drained(r: Ring)
  {
    Valid(r) && Wrap(r.rindex) == Wrap(r.windex) && r.size == 0
  }

  /** One write into a drained ring is read back by the next read, which
      leaves the ring drained again. */
  lemma WriteThenRead(r: Ring, p: Packet)
    requires Drained(r)
    ensures Write(r, p).ret > 0
    ensures Read(Write(r, p).ring).taken
    ensures Read(Write(r, p).ring).pkt == Some(p)
    ensures Drained(Read(Write(r, p).ring).ring)
  {
  }

  /** A read from a drained ring is still taken: it yields whatever the slot
      holds and the count wraps to 2^64 - 1. */
  lemma EmptyReadUnderflows(r: Ring)
    requires Drained(r) && Wrap(r.rindex) == r.windex
    ensures Read(r).taken
    ensures Read(r).ring.size == SizeModulus - 1
  {
  }

  /** A read from the fresh ring followed by a write: the written packet goes
      to slot 0, behind the read index, and the next read returns slot 1. */
  lemma EmptyReadLosesNextWrite(p: Packet)
    ensures var r1 := Read(Empty()).ring;
            var w := Write(r1, p);
            w.ret > 0 && w.ring.slots[0] == Some(p) && Read(w.ring).taken && Read(w.ring).pkt == None
  {
    var r1 := Read(Empty()).ring;
    assert r1.rindex == 1 && r1.windex == 0 && r1.size == SizeModulus - 1;
    var w := Write(r1, p);
    assert w.ring.windex == 1 && w.ring.size == 0;
  }

  /** `n` write/read pairs. */
  function Pairs(r: Ring, p: Packet, n: nat): (r': Ring)
    requires Drained(r)
    ensures Drained(r')
    decreases n
  {
    if n == 0 then r else Pairs(Read(Write(r, p).ring).ring, p, n - 1)
  }

  /** `n` writes with no read. */
  function Writes(r: Ring, p: Packet, n: nat): (r': Ring)
    requires Valid(r)
    ensures Valid(r')
    decreases n
  {
    if n == 0 then r else Writes(Write(r, p).ring, p, n - 1)
  }

  lemma {:induction false} PairsAdvance(p: Packet, n: nat)
    requires n <= Capacity
    ensures Pairs(Empty(), p, n) == Ring(Pairs(Empty(), p, n).slots, n, n, 0)
  {
    if n > 0 {
      PairsAdvanceFrom(Empty(), p, n);
    }
  }

  lemma {:induction false} PairsAdvanceFrom(r: Ring, p: Packet, n: nat)
    requires Drained(r) && r.rindex == r.windex && r.rindex + n <= Capacity
    ensures Pairs(r, p, n).rindex == r.rindex + n
    ensures Pairs(r, p, n).windex == r.rindex + n
    ensures Pairs(r, p, n).size == 0
    decreases n
  {
    if n > 0 {
      var r1 := Read(Write(r, p).ring).ring;
      assert r1.rindex == r.rindex + 1 && r1.windex == r.rindex + 1;
      PairsAdvanceFrom(r1, p, n - 1);
    }
  }

  /** With the read index parked at 400, every write with the write index
      below 400 is accepted, whatever the count. */
  lemma {:induction false} WritesBehindParkedReader(r: Ring, p: Packet, n: nat)
    requires Valid(r) && r.rindex == Capacity && r.windex + n <= Capacity && r.size + n < SizeModulus
    requires r.windex < Capacity || n == 0
    ensures Writes(r, p, n).rindex == Capacity
    ensures Writes(r, p, n).windex == r.windex + n
    ensures Writes(r, p, n).size == r.size + n
    decreases n
  {
    if n > 0 {
      var w := Write(r, p);
      assert w.ret > 0;
      WritesBehindParkedReader(w.ring, p, n - 1);
    }
  }

  /** After 400 write/read pairs the read index parks at 400; 400 further
      writes are all accepted and fill every slot, and a 401st write is
      still accepted and overwrites slot 0, which no read has returned. */
  lemma FullRingStillAcceptsWrite(p: Packet, q: Packet)
    ensures var parked := Pairs(Empty(), p, Capacity);
            var full := Writes(parked, p, Capacity);
            && full.size == Capacity
            && full.rindex == Capacity && full.windex == Capacity
            && Write(full, q).ret > 0
            && Write(full, q).ring.slots[0] == Some(q)
  {
    var parked := Pairs(Empty(), p, Capacity);
    PairsAdvance(p, Capacity);
    var first := Write(parked, p);
    assert first.ring.windex == 1 && first.ring.size == 1 && first.ring.rindex == Capacity;
    assert Writes(parked, p, Capacity) == Writes(first.ring, p, Capacity - 1);
    WritesBehindParkedReader(first.ring, p, Capacity - 1);
  }
}
