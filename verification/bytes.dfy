/** Bytes and the little-endian integer layouts `DataView` uses for
    `setUint16`/`setUint32`/`setInt32` and the matching getters. */
module Bytes {
  import opened Arith

  type Byte = b: int | 0 <= b < 256

  /** A float32 on the wire: four bytes whose meaning is left opaque. */
  datatype F32 = F32(b0: Byte, b1: Byte, b2: Byte, b3: Byte)

  function F32Bytes(f: F32): (bs: seq<Byte>)
    ensures |bs| == 4
  {
    [f.b0, f.b1, f.b2, f.b3]
  }

  /** Conversions between numbers and their float32 bytes, which the model
      does not interpret. */
  datatype FloatCodec = FloatCodec(encode: real -> F32, decode: F32 -> real)

  function Pow256(n: nat): (p: nat)
    ensures p >= 1
  {
    if n == 0 then 1 else 256 * Pow256(n - 1)
  }

  const TwoTo16: int := 65536
  const TwoTo31: int := 0x8000_0000
  const TwoTo32: int := 0x1_0000_0000

  /** The `n` low-order bytes of `v`, least significant first. */
  function LeBytes(v: nat, n: nat): (bs: seq<Byte>)
    ensures |bs| == n
  {
    if n == 0 then [] else [v % 256] + LeBytes(v / 256, n - 1)
  }

  /** The number whose little-endian bytes are `bs`. */
  function LeValue(bs: seq<Byte>): nat {
    if |bs| == 0 then 0 else bs[0] + 256 * LeValue(bs[1..])
  }

  lemma {:induction false} LeValueBound(bs: seq<Byte>)
    ensures LeValue(bs) < Pow256(|bs|)
  {
    if |bs| > 0 {
      LeValueBound(bs[1..]);
    }
  }

  /** Reading back `n` written bytes gives `v` modulo 256^n. */
  lemma {:induction false} LeRoundTrip(v: nat, n: nat)
    ensures LeValue(LeBytes(v, n)) == v % Pow256(n)
  {
    if n > 0 {
      LeRoundTrip(v / 256, n - 1);
      var bs := LeBytes(v, n);
      assert bs[1..] == LeBytes(v / 256, n - 1);
      ModSplit(v, Pow256(n - 1));
    }
  }

  /** v mod 256k == v mod 256 + 256 ((v / 256) mod k). */
  lemma ModSplit(v: nat, k: nat)
    requires k >= 1
    ensures v % (256 * k) == v % 256 + 256 * ((v / 256) % k)
  {
    var q := v / 256;
    var r := v % 256;
    var q2 := q / k;
    var r2 := q % k;
    assert v == 256 * q + r;
    assert q == q2 * k + r2;
    assert v == q2 * (256 * k) + (256 * r2 + r);
    assert 256 * r2 <= 256 * (k - 1);
    ModUnique(v, 256 * k, q2, 256 * r2 + r);
  }

  /** Writing the bytes of a value read back reproduces the bytes. */
  lemma {:induction false} LeBytesOfValue(bs: seq<Byte>)
    ensures LeBytes(LeValue(bs), |bs|) == bs
  {
    if |bs| > 0 {
      LeBytesOfValue(bs[1..]);
      var v := LeValue(bs);
      assert v % 256 == bs[0];
      assert v / 256 == LeValue(bs[1..]);
    }
  }

  /** `setUint16`: the value modulo 2^16, little-endian. */
  function U16(v: int): (bs: seq<Byte>)
    ensures |bs| == 2
  {
    LeBytes(v % TwoTo16, 2)
  }

  /** `setUint32` and `setInt32` store the same bytes: the value modulo 2^32. */
  function U32(v: int): (bs: seq<Byte>)
    ensures |bs| == 4
  {
    LeBytes(v % TwoTo32, 4)
  }

  /** `getInt32`: the bytes as a two's-complement number. */
  function SignedOf(u: nat): int {
    if u >= TwoTo31 then u - TwoTo32 else u
  }

  lemma U16RoundTrip(v: int)
    ensures LeValue(U16(v)) == v % TwoTo16
  {
    LeRoundTrip(v % TwoTo16, 2);
  }

  lemma U32RoundTrip(v: int)
    ensures LeValue(U32(v)) == v % TwoTo32
  {
    LeRoundTrip(v % TwoTo32, 4);
  }

  /** A 32-bit signed value survives `setInt32` then `getInt32`. */
  lemma I32RoundTrip(v: int)
    requires -TwoTo31 <= v < TwoTo31
    ensures SignedOf(LeValue(U32(v))) == v
  {
    U32RoundTrip(v);
  }
}
