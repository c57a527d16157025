/**
  Fixed-width integers and their little-endian byte layout, as written by
  .NET's BinaryWriter and read back by BinaryReader.
 */
module Bytes {

  type byte = b: int | 0 <= b < 0x100
  type u16 = x: int | 0 <= x < 0x1_0000
  type u32 = x: int | 0 <= x < 0x1_0000_0000
  type u64 = x: int | 0 <= x < 0x1_0000_0000_0000_0000
  type i32 = x: int | -0x8000_0000 <= x < 0x8000_0000

  /** IEEE-754 single-precision value, kept as its 32-bit pattern. */
  type Float32 = u32

  function Pow256(n: nat): (r: nat)
    ensures r >= 1
  {
    if n == 0 then 1 else 256 * Pow256(n - 1)
  }

  lemma {:induction false} Pow256Values()
    ensures Pow256(1) == 0x100 && Pow256(2) == 0x1_0000
    ensures Pow256(4) == 0x1_0000_0000 && Pow256(8) == 0x1_0000_0000_0000_0000
  {
  }

  /** The unsigned value of a little-endian byte string. */
  function LeValue(s: seq<byte>): (r: nat)
    ensures r < Pow256(|s|)
  {
    if s == [] then 0 else s[0] + 256 * LeValue(s[1..])
  }

  /** The `n`-byte little-endian layout of `v`. */
  function LeBytes(v: nat, n: nat): (r: seq<byte>)
    requires v < Pow256(n)
    ensures |r| == n
  {
    if n == 0 then [] else [v % 256] + LeBytes(v / 256, n - 1)
  }

  lemma {:induction false} LeValueOfLeBytes(v: nat, n: nat)
    requires v < Pow256(n)
    ensures LeValue(LeBytes(v, n)) == v
  {
    if n > 0 {
      LeValueOfLeBytes(v / 256, n - 1);
      assert LeBytes(v, n)[1..] == LeBytes(v / 256, n - 1);
    }
  }

  lemma {:induction false} LeBytesOfLeValue(s: seq<byte>)
    ensures LeBytes(LeValue(s), |s|) == s
  {
    if s != [] {
      LeBytesOfLeValue(s[1..]);
      assert LeValue(s) % 256 == s[0];
      assert LeValue(s) / 256 == LeValue(s[1..]);
    }
  }

  /** Two encodings of the same width are equal only for equal values. */
  lemma {:induction false} LeBytesInjective(v: nat, w: nat, n: nat)
    requires v < Pow256(n) && w < Pow256(n)
    requires LeBytes(v, n) == LeBytes(w, n)
    ensures v == w
  {
    LeValueOfLeBytes(v, n);
    LeValueOfLeBytes(w, n);
  }

  /** Two's-complement bit pattern of a 32-bit signed integer. */
  function I32Bits(v: i32): (r: u32)
    ensures v >= 0 ==> r == v
    ensures v < 0 ==> r >= 0x8000_0000
  {
    if v < 0 then v + 0x1_0000_0000 else v
  }

  /** The signed reading of a 32-bit pattern. */
  function I32OfBits(b: u32): (r: i32)
    ensures I32Bits(r) == b
  {
    if b >= 0x8000_0000 then b - 0x1_0000_0000 else b
  }

  lemma {:induction false} I32RoundTrip(v: i32)
    ensures I32OfBits(I32Bits(v)) == v
  {
  }

  function Le16(v: u16): (r: seq<byte>)
    ensures |r| == 2
  {
    Pow256Values();
    LeBytes(v, 2)
  }

  function Le32(v: u32): (r: seq<byte>)
    ensures |r| == 4
  {
    Pow256Values();
    LeBytes(v, 4)
  }

  function Le64(v: u64): (r: seq<byte>)
    ensures |r| == 8
  {
    Pow256Values();
    LeBytes(v, 8)
  }

  lemma {:induction false} Le16Value(h: u16)
    ensures LeValue(Le16(h)) == h
  {
    Pow256Values();
    LeValueOfLeBytes(h, 2);
  }

  lemma {:induction false} Le32Value(w: u32)
    ensures LeValue(Le32(w)) == w
  {
    Pow256Values();
    LeValueOfLeBytes(w, 4);
  }

  lemma {:induction false} Le64Value(q: u64)
    ensures LeValue(Le64(q)) == q
  {
    Pow256Values();
    LeValueOfLeBytes(q, 8);
  }

  /** A 16-bit little-endian read of two bytes. */
  function ReadLe16(s: seq<byte>): (r: u16)
    requires |s| == 2
    ensures r == LeValue(s) && Le16(r) == s
  {
    Pow256Values();
    LeBytesOfLeValue(s);
    LeValue(s)
  }

  function ReadLe32(s: seq<byte>): (r: u32)
    requires |s| == 4
    ensures r == LeValue(s) && Le32(r) == s
  {
    Pow256Values();
    LeBytesOfLeValue(s);
    LeValue(s)
  }

  function ReadLe64(s: seq<byte>): (r: u64)
    requires |s| == 8
    ensures r == LeValue(s) && Le64(r) == s
  {
    Pow256Values();
    LeBytesOfLeValue(s);
    LeValue(s)
  }

  function Zeros(n: nat): (r: seq<byte>)
    ensures |r| == n && forall i :: 0 <= i < n ==> r[i] == 0
  {
    seq(n, _ => 0)
  }
}
