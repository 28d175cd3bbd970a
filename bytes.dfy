/** Bytes and the little-endian integer assembly used by the BMFont and audio decoders. */
module Bytes {

  newtype byte = x: int | 0 <= x < 256

  const TwoTo16: nat := 0x1_0000
  const TwoTo32: nat := 0x1_0000_0000

  /** `b0 + (b1 << 8)` over non-negative bytes: an unsigned 16-bit value. */
  function LE16(b0: byte, b1: byte): (v: nat)
    ensures v < TwoTo16
    ensures v % 256 == b0 as int && v / 256 == b1 as int
  {
    b0 as int + b1 as int * 256
  }

  /** `b0 + (b1 << 8) + (b2 << 16) + (b3 << 24)` taken as an unsigned 32-bit value. */
  function LE32(b0: byte, b1: byte, b2: byte, b3: byte): (v: nat)
    ensures v < TwoTo32
  {
    LE16(b0, b1) + LE16(b2, b3) * 0x1_0000
  }

  /** A C# `(short)` cast of an unsigned 16-bit value: two's-complement wrap. */
  function ToInt16(v: nat): (s: int)
    requires v < TwoTo16
    ensures -0x8000 <= s < 0x8000
    ensures (s - v) % TwoTo16 == 0
  {
    if v < 0x8000 then v else v - TwoTo16
  }

  /** A C# `(int)` reading of an unsigned 32-bit value: two's-complement wrap. */
  function ToInt32(v: nat): (s: int)
    requires v < TwoTo32
    ensures -0x8000_0000 <= s < 0x8000_0000
    ensures (s - v) % TwoTo32 == 0
  {
    if v < 0x8000_0000 then v else v - TwoTo32
  }

  /** The two little-endian bytes of an unsigned 16-bit value. */
  function Bytes16(v: nat): (bs: seq<byte>)
    requires v < TwoTo16
    ensures |bs| == 2 && LE16(bs[0], bs[1]) == v
  {
    [(v % 256) as byte, (v / 256) as byte]
  }

  /** The four little-endian bytes of an unsigned 32-bit value. */
  function Bytes32(v: nat): (bs: seq<byte>)
    requires v < TwoTo32
    ensures |bs| == 4 && LE32(bs[0], bs[1], bs[2], bs[3]) == v
  {
    Bytes16(v % TwoTo16) + Bytes16(v / TwoTo16)
  }

  /** The unsigned 16-bit pattern of a signed 16-bit value. */
  function FromInt16(s: int): (v: nat)
    requires -0x8000 <= s < 0x8000
    ensures v < TwoTo16 && ToInt16(v) == s
  {
    if s >= 0 then s else s + TwoTo16
  }

  /** The bytes of a little-endian 16-bit value are the bytes it was read from. */
  lemma Bytes16OfLE16(b0: byte, b1: byte)
    ensures Bytes16(LE16(b0, b1)) == [b0, b1]
  {
  }

  /** The bytes of a little-endian 32-bit value are the bytes it was read from. */
  lemma Bytes32OfLE32(b0: byte, b1: byte, b2: byte, b3: byte)
    ensures Bytes32(LE32(b0, b1, b2, b3)) == [b0, b1, b2, b3]
  {
    var v := LE32(b0, b1, b2, b3);
    assert v % TwoTo16 == LE16(b0, b1) && v / TwoTo16 == LE16(b2, b3);
    Bytes16OfLE16(b0, b1);
    Bytes16OfLE16(b2, b3);
  }

  /** Wrapping to signed 16 bits and back is the identity. */
  lemma FromInt16OfToInt16(v: nat)
    requires v < TwoTo16
    ensures FromInt16(ToInt16(v)) == v
  {
  }

  /** 2 to the power n. */
  function Pow2(n: nat): (p: nat)
    ensures p >= 1
  {
    if n == 0 then 1 else 2 * Pow2(n - 1)
  }

  lemma {:induction false} Pow2Below(n: nat, m: nat)
    requires n < m
    ensures Pow2(n) < Pow2(m)
  {
    if n + 1 < m {
      Pow2Below(n, m - 1);
    }
  }

  lemma {:induction false} Pow2Add(a: nat, b: nat)
    ensures Pow2(a + b) == Pow2(a) * Pow2(b)
  {
    if a > 0 {
      Pow2Add(a - 1, b);
    }
  }

  /** A C# `int` result of an integer computation: the value taken modulo 2^32, in two's complement. */
  function Wrap32(x: int): (s: int)
    ensures -0x8000_0000 <= s < 0x8000_0000
    ensures (s - x) % TwoTo32 == 0
  {
    ToInt32(x % TwoTo32)
  }

  /** `x << n` on a C# `int`: the shift count is taken modulo 32 and the result wraps. */
  function Shl32(x: int, n: int): (s: int)
    ensures -0x8000_0000 <= s < 0x8000_0000
  {
    Wrap32(x * Pow2(n % 32))
  }
}
