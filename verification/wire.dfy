/** The channel's packet format (`ch_vpn_pkt_t`): a packed 16-byte header
    followed by the payload. The last eight header bytes are a union, so the
    data size of a data packet, the address length of a CONNECT and the code
    of a PROBLEM reply all live in header bytes 8..11. */
module Wire {
  import opened Bytes

  const HeaderSize: nat := 16

  // Operation codes.
  const OpConnected: u32 := 0xa9
  const OpConnect: u32 := 0xaa
  const OpDisconnect: u32 := 0xab
  const OpSend: u32 := 0xac
  const OpRecv: u32 := 0xad
  const OpProblem: u32 := 0xae
  const OpVpnMetadata: u32 := 0xb0
  const OpVpnReserved: u32 := 0xb1
  const OpVpnAddrRequest: u32 := 0xb2
  const OpVpnAddrReply: u32 := 0xb3
  const OpVpnSend: u32 := 0xbc
  const OpVpnRecv: u32 := 0xbd

  /** Codes at or above this value are tunnel ("raw") operations. */
  const RawOpThreshold: u32 := 0xb0

  // Problem codes carried by a PROBLEM reply.
  const ProblemNoFreeAddr: u32 := 1
  const ProblemTunnelDown: u32 := 2
  const ProblemPacketLost: u32 := 3

  type Union8 = s: seq<byte> | |s| == 8 witness [0, 0, 0, 0, 0, 0, 0, 0]

  const ZeroWord: seq<byte> := [0, 0, 0, 0]

  /** The header: socket id at bytes 0..3, op code at 4..7, union at 8..15. */
  datatype Header = Header(sockId: i32, opCode: u32, union: Union8)

  datatype Packet = Packet(header: Header, data: seq<byte>)

  /** `op_data.data_size`: union bytes 0..3. */
  function DataSize(h: Header): u32 { Load32(h.union[0..4]) }

  /** `op_connect.addr_size`: union bytes 0..3. */
  function AddrSize(h: Header): u32 { Load32(h.union[0..4]) }

  /** `op_problem.code`: union bytes 0..3. */
  function ProblemCode(h: Header): u32 { Load32(h.union[0..4]) }

  /** `op_connect.port`: union bytes 4..5. */
  function Port(h: Header): nat { FromLE(h.union[4..6]) }

  /** A freshly zeroed header with only the socket id and op code set. */
  function BareHeader(sockId: i32, op: u32): (h: Header)
    ensures DataSize(h) == 0
  {
    Pow256Four();
    Header(sockId, op, ZeroWord + ZeroWord)
  }

  /** A header whose `op_data.data_size` is set to `size`. */
  function DataHeader(sockId: i32, op: u32, size: u32): (h: Header)
    ensures h.sockId == sockId && h.opCode == op
    ensures DataSize(h) == size
  {
    var u := Mem32(size) + ZeroWord;
    assert u[0..4] == Mem32(size);
    Header(sockId, op, u)
  }

  /** A PROBLEM header whose `op_problem.code` is set to `code`. */
  function ProblemHeader(sockId: i32, code: u32): (h: Header)
    ensures h.sockId == sockId && h.opCode == OpProblem
    ensures ProblemCode(h) == code
  {
    var u := Mem32(code) + ZeroWord;
    assert u[0..4] == Mem32(code);
    Header(sockId, OpProblem, u)
  }

  /** The byte count handed to the transport for a packet:
      `sizeof(header) + header.op_data.data_size`. */
  function TransmitLen(h: Header): nat
  {
    HeaderSize + DataSize(h)
  }

  function EncodeHeader(h: Header): (b: seq<byte>)
    ensures |b| == HeaderSize
  {
    Mem32(Bits32(h.sockId)) + Mem32(h.opCode) + h.union
  }

  function DecodeHeader(b: seq<byte>): Header
    requires |b| == HeaderSize
  {
    Header(Signed32(Load32(b[0..4])), Load32(b[4..8]), b[8..16])
  }

  /** The packet as it travels: header bytes then payload. */
  function Frame(p: Packet): seq<byte>
  {
    EncodeHeader(p.header) + p.data
  }

  /** How the input handler reads a channel frame: the first 16 bytes are
      taken as the header, whatever follows as the payload. */
  function ParseFrame(frame: seq<byte>): (p: Packet)
    requires |frame| >= HeaderSize
    ensures EncodeHeader(p.header) == frame[..HeaderSize]
    ensures p.data == frame[HeaderSize..]
  {
    var hb := frame[..HeaderSize];
    assert Mem32(Load32(hb[0..4])) == hb[0..4];
    assert Mem32(Load32(hb[4..8])) == hb[4..8];
    assert hb == hb[0..4] + hb[4..8] + hb[8..16];
    Packet(DecodeHeader(hb), frame[HeaderSize..])
  }

  /** The header is exactly 16 packed bytes at fixed offsets, and the three
      views of the union's first word read the same four bytes. */
  lemma HeaderLayout(h: Header)
    ensures |EncodeHeader(h)| == 16
    ensures Signed32(Load32(EncodeHeader(h)[0..4])) == h.sockId
    ensures Load32(EncodeHeader(h)[4..8]) == h.opCode
    ensures Load32(EncodeHeader(h)[8..12]) == DataSize(h)
    ensures DataSize(h) == AddrSize(h) == ProblemCode(h)
    ensures FromLE(EncodeHeader(h)[12..14]) == Port(h)
  {
    var b := EncodeHeader(h);
    assert b[0..4] == Mem32(Bits32(h.sockId));
    assert b[4..8] == Mem32(h.opCode);
    assert b[8..12] == h.union[0..4];
    assert b[12..14] == h.union[4..6];
  }

  lemma {:induction false} HeaderRoundTrip(h: Header)
    ensures DecodeHeader(EncodeHeader(h)) == h
  {
    var b := EncodeHeader(h);
    assert b[0..4] == Mem32(Bits32(h.sockId));
    assert b[4..8] == Mem32(h.opCode);
    assert b[8..16] == h.union;
    Mem32Injective(Load32(b[0..4]), Bits32(h.sockId));
    Mem32Injective(Load32(b[4..8]), h.opCode);
  }

  lemma {:induction false} FrameRoundTrip(p: Packet)
    ensures ParseFrame(Frame(p)) == p
  {
    var f := Frame(p);
    assert f[..HeaderSize] == EncodeHeader(p.header);
    assert f[HeaderSize..] == p.data;
    HeaderRoundTrip(p.header);
  }

  /** Because of the union, a PROBLEM reply is handed to the transport with
      length 16 plus its problem code, although only the 16 header bytes are
      allocated: 19 bytes for PACKET_LOST. */
  lemma ProblemReplyLength(sockId: i32, code: u32)
    ensures TransmitLen(ProblemHeader(sockId, code)) == HeaderSize + code
    ensures TransmitLen(ProblemHeader(sockId, ProblemPacketLost)) == 19
  {
  }
}
