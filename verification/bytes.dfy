/** Fixed-width integers, the Option wrapper, and byte-order encodings
    used by the VPN channel's wire format and address arithmetic.
    The host is assumed little-endian, as on the platforms the channel targets. */
module Bytes {

  type byte = x: int | 0 <= x < 256
  type u32 = x: int | 0 <= x < 0x1_0000_0000
  type i32 = x: int | -0x8000_0000 <= x < 0x8000_0000
  type u64 = x: int | 0 <= x < 0x1_0000_0000_0000_0000

  const TwoTo32: int := 0x1_0000_0000
  const TwoTo64: int := 0x1_0000_0000_0000_0000

  datatype Option<+T> = None | Some(value: T)

  function Pow256(n: nat): (p: nat)
    ensures p >= 1
  {
    if n == 0 then 1 else 256 * Pow256(n - 1)
  }

  lemma Pow256Four()
    ensures Pow256(4) == TwoTo32
    ensures Pow256(2) == 0x10000
  {
    assert Pow256(1) == 256;
    assert Pow256(2) == 0x10000;
    assert Pow256(3) == 0x100_0000;
  }

  /** Little-endian encoding of `x` in `n` bytes, least significant byte first. */
  function LE(x: nat, n: nat): (b: seq<byte>)
    requires x < Pow256(n)
    ensures |b| == n
  {
    if n == 0 then [] else [x % 256] + LE(x / 256, n - 1)
  }

  /** The value of a little-endian byte string. */
  function FromLE(b: seq<byte>): (x: nat)
    ensures x < Pow256(|b|)
  {
    if |b| == 0 then 0 else b[0] + 256 * FromLE(b[1..])
  }

  lemma {:induction false} FromLEOfLE(x: nat, n: nat)
    requires x < Pow256(n)
    ensures FromLE(LE(x, n)) == x
  {
    if n > 0 {
      FromLEOfLE(x / 256, n - 1);
      assert LE(x, n)[1..] == LE(x / 256, n - 1);
    }
  }

  lemma {:induction false} LEOfFromLE(b: seq<byte>)
    ensures LE(FromLE(b), |b|) == b
  {
    if |b| > 0 {
      LEOfFromLE(b[1..]);
      var x := FromLE(b);
      assert x % 256 == b[0];
      assert x / 256 == FromLE(b[1..]);
    }
  }

  function Reverse<T>(s: seq<T>): (r: seq<T>)
    ensures |r| == |s|
    ensures forall i :: 0 <= i < |s| ==> r[i] == s[|s| - 1 - i]
  {
    if |s| == 0 then [] else Reverse(s[1..]) + [s[0]]
  }

  lemma ReverseReverse<T>(s: seq<T>)
    ensures Reverse(Reverse(s)) == s
  {
  }

  /** The four in-memory bytes of a 32-bit value on the little-endian host. */
  function Mem32(x: u32): (b: seq<byte>)
    ensures |b| == 4
    ensures FromLE(b) == x
  {
    Pow256Four();
    FromLEOfLE(x, 4);
    LE(x, 4)
  }

  /** The 32-bit value the host reads from four bytes of memory. */
  function Load32(b: seq<byte>): (x: u32)
    requires |b| == 4
    ensures Mem32(x) == b
  {
    Pow256Four();
    LEOfFromLE(b);
    FromLE(b)
  }

  /** The value of four bytes read by the host, in Horner form. */
  lemma Load32Value(b0: byte, b1: byte, b2: byte, b3: byte)
    ensures Load32([b0, b1, b2, b3]) == b0 + 256 * (b1 + 256 * (b2 + 256 * b3))
  {
    var s := [b0, b1, b2, b3];
    assert s[1..] == [b1, b2, b3];
    assert [b1, b2, b3][1..] == [b2, b3];
    assert [b2, b3][1..] == [b3];
    assert [b3][1..] == [];
    assert FromLE([b3]) == b3;
    assert FromLE([b2, b3]) == b2 + 256 * b3;
    assert FromLE([b1, b2, b3]) == b1 + 256 * (b2 + 256 * b3);
    assert Load32(s) == FromLE(s);
  }

  /** `ntohl` / `htonl` on the little-endian host: both swap the four bytes. */
  function ByteSwap32(x: u32): (y: u32)
    ensures Mem32(y) == Reverse(Mem32(x))
  {
    Load32(Reverse(Mem32(x)))
  }

  lemma ByteSwapInvolution(x: u32)
    ensures ByteSwap32(ByteSwap32(x)) == x
  {
    ReverseReverse(Mem32(x));
    assert Mem32(ByteSwap32(ByteSwap32(x))) == Mem32(x);
    Mem32Injective(ByteSwap32(ByteSwap32(x)), x);
  }

  lemma Mem32Injective(x: u32, y: u32)
    requires Mem32(x) == Mem32(y)
    ensures x == y
  {
    assert FromLE(Mem32(x)) == x;
  }

  /** The two's-complement bit pattern of a signed 32-bit value. */
  function Bits32(i: i32): (u: u32)
    ensures i >= 0 ==> u == i
    ensures i < 0 ==> u == i + TwoTo32
  {
    if i < 0 then i + TwoTo32 else i
  }

  /** The signed reading of a 32-bit pattern; `Bits32`'s inverse. */
  function Signed32(u: u32): (i: i32)
    ensures Bits32(i) == u
  {
    if u >= 0x8000_0000 then u - TwoTo32 else u
  }

  lemma SignedOfBits(i: i32)
    ensures Signed32(Bits32(i)) == i
  {
  }

  /** Truncation of a non-negative count to `uint32_t`, as C assignment does. */
  function Trunc32(n: nat): (t: u32)
    ensures n < TwoTo32 ==> t == n
  {
    n % TwoTo32
  }

  function Min(a: int, b: int): int
  {
    if a <= b then a else b
  }
}
