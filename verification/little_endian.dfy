/** Little-endian byte encodings of unsigned and two's-complement integers,
    as `BitConverter.GetBytes` produces them on a little-endian host. */
module LittleEndian {
  import opened BoundedInts

  /** The number of distinct values n bytes can hold. */
  function Pow256(n: nat): (r: nat)
    ensures r >= 1
  {
    if n == 0 then 1 else 256 * Pow256(n - 1)
  }

  lemma Pow256Widths()
    ensures Pow256(4) == TWO_TO_THE_32
    ensures Pow256(8) == TWO_TO_THE_64
  {
  }

  /** Reads s as an unsigned number, least significant byte first. */
  function FromLE(s: seq<byte>): (r: nat)
    ensures r < Pow256(|s|)
  {
    if |s| == 0 then 0 else s[0] + 256 * FromLE(s[1..])
  }

  /** The n low-order bytes of x, least significant first. */
  function ToLE(x: nat, n: nat): (r: seq<byte>)
    requires x < Pow256(n)
    ensures |r| == n
    ensures FromLE(r) == x
  {
    if n == 0 then []
    else
      var rest := ToLE(x / 256, n - 1);
      var r := [x % 256] + rest;
      assert r[1..] == rest;
      r
  }

  /** Every byte string of length n is the encoding of exactly one value. */
  lemma {:induction false} ToFromLE(s: seq<byte>)
    ensures ToLE(FromLE(s), |s|) == s
  {
    if |s| > 0 {
      var x := FromLE(s);
      DivModUnique(x, 256, FromLE(s[1..]), s[0]);
      ToFromLE(s[1..]);
    }
  }

  lemma DivDiv(x: nat, a: nat, b: nat)
    requires a > 0 && b > 0
    ensures x / a / b == x / (a * b)
  {
    var q := x / (a * b);
    var r := x % (a * b);
    assert x == a * b * q + r;
    var r1 := r / a;
    var r0 := r % a;
    assert r == a * r1 + r0;
    assert r1 < b by {
      DivModUnique(r, a, r1, r0);
    }
    assert x == a * (b * q + r1) + r0;
    DivModUnique(x, a, b * q + r1, r0);
    DivModUnique(x / a, b, q, r1);
  }

  /** Byte i of the encoding is digit i of x in base 256: what
      `(x >> 8*i) & 0xff` computes. */
  lemma {:induction false} ToLEByte(x: nat, n: nat, i: nat)
    requires x < Pow256(n) && i < n
    ensures ToLE(x, n)[i] == (x / Pow256(i)) % 256
  {
    if i == 0 {
      assert x / Pow256(0) == x;
    } else {
      var p := Pow256(i - 1);
      DivBelow(x, Pow256(n - 1));
      var rest := ToLE(x / 256, n - 1);
      assert ToLE(x, n)[i] == rest[i - 1];
      ToLEByte(x / 256, n - 1, i - 1);
      assert rest[i - 1] == (x / 256 / p) % 256;
      DivDiv(x, 256, p);
      assert x / 256 / p == x / Pow256(i);
    }
  }

  lemma DivBelow(x: nat, p: nat)
    requires x < 256 * p
    ensures x / 256 < p
  {
  }

  // Two's complement: the bit pattern of a signed value read as unsigned.

  function Int32Bits(x: int32): (u: uint32)
    ensures u == x || u == x + TWO_TO_THE_32
  {
    if x < 0 then x + TWO_TO_THE_32 else x
  }

  function Int32OfBits(u: uint32): (x: int32)
    ensures Int32Bits(x) == u
  {
    if u < TWO_TO_THE_31 then u else u - TWO_TO_THE_32
  }

  function Int64Bits(x: int64): (u: nat)
    ensures u < TWO_TO_THE_64
    ensures u == x || u == x + TWO_TO_THE_64
  {
    if x < 0 then x + TWO_TO_THE_64 else x
  }

  function Int64OfBits(u: nat): (x: int64)
    requires u < TWO_TO_THE_64
    ensures Int64Bits(x) == u
  {
    if u < TWO_TO_THE_63 then u else u - TWO_TO_THE_64
  }

  // The three encodings used by the frame header.

  function EncodeUInt32(x: uint32): (r: seq<byte>)
    ensures |r| == 4
    ensures DecodeUInt32(r) == x
  {
    Pow256Widths();
    ToLE(x, 4)
  }

  function DecodeUInt32(s: seq<byte>): (r: uint32)
    requires |s| == 4
  {
    Pow256Widths();
    FromLE(s)
  }

  function EncodeInt32(x: int32): (r: seq<byte>)
    ensures |r| == 4
    ensures DecodeInt32(r) == x
  {
    EncodeUInt32(Int32Bits(x))
  }

  function DecodeInt32(s: seq<byte>): (r: int32)
    requires |s| == 4
  {
    Int32OfBits(DecodeUInt32(s))
  }

  function EncodeInt64(x: int64): (r: seq<byte>)
    ensures |r| == 8
    ensures DecodeInt64(r) == x
  {
    Pow256Widths();
    ToLE(Int64Bits(x), 8)
  }

  function DecodeInt64(s: seq<byte>): (r: int64)
    requires |s| == 8
  {
    Pow256Widths();
    Int64OfBits(FromLE(s))
  }

  /** Decoding is injective: each 4- or 8-byte field has one value. */
  lemma EncodeDecodeFields(s4: seq<byte>, s8: seq<byte>)
    requires |s4| == 4 && |s8| == 8
    ensures EncodeUInt32(DecodeUInt32(s4)) == s4
    ensures EncodeInt32(DecodeInt32(s4)) == s4
    ensures EncodeInt64(DecodeInt64(s8)) == s8
  {
    Pow256Widths();
    ToFromLE(s4);
    ToFromLE(s8);
  }
}
