/** Bytes, single bits inside a byte, and little-endian numbers. */
module Bytes {
  type byte = bv8

  // ---------------------------------------------------------------------------------------------
  // One bit of a byte
  // ---------------------------------------------------------------------------------------------

  /** A bit position as a shift amount. */
  function ShiftOf(k: nat): bv8
    requires k < 8
  {
    if k < 4 then (if k < 2 then (if k == 0 then 0 else 1) else (if k == 2 then 2 else 3))
    else (if k < 6 then (if k == 4 then 4 else 5) else (if k == 6 then 6 else 7))
  }

  function TestBit(b: byte, k: nat): bool
    requires k < 8
  {
    (b >> ShiftOf(k)) & 1 == 1
  }

  function WithBit(b: byte, k: nat, value: bool): byte
    requires k < 8
  {
    var mask: bv8 := 1 << ShiftOf(k);
    if value then b | mask else b & !mask
  }

  /** Writing one bit sets it and leaves the other seven alone. */
  lemma WithBitTests(b: byte, k: nat, value: bool, j: nat)
    requires k < 8 && j < 8
    ensures TestBit(WithBit(b, k, value), j) == if j == k then value else TestBit(b, j)
  {
    hide ShiftOf;
    ShiftsDiffer(j, k);
    MaskedBits(b, ShiftOf(k), value, ShiftOf(j));
  }

  lemma ShiftsDiffer(j: nat, k: nat)
    requires j < 8 && k < 8
    ensures ShiftOf(j) < 8 && ShiftOf(k) < 8 && (ShiftOf(j) == ShiftOf(k) <==> j == k)
  {
  }

  lemma MaskedBits(b: bv8, k: bv8, value: bool, j: bv8)
    requires k < 8 && j < 8
    ensures var r := if value then b | (1 << k) else b & !(1 << k);
            (((r >> j) & 1) == 1) == if j == k then value else ((b >> j) & 1) == 1
  {
  }

  // ---------------------------------------------------------------------------------------------
  // Little-endian numbers
  // ---------------------------------------------------------------------------------------------

  function Power256(n: nat): (p: nat)
    ensures p > 0
  {
    if n == 0 then 1 else 256 * Power256(n - 1)
  }

  function Encode(n: nat, width: nat): (s: seq<byte>)
    ensures |s| == width
  {
    if width == 0 then [] else [(n % 256) as byte] + Encode(n / 256, width - 1)
  }

  function Decode(s: seq<byte>): (n: nat)
    ensures n < Power256(|s|)
  {
    if s == [] then 0 else (s[0] as nat) + 256 * Decode(s[1..])
  }

  lemma {:induction false} DecodeEncode(n: nat, width: nat)
    requires n < Power256(width)
    ensures Decode(Encode(n, width)) == n
  {
    if width > 0 {
      var s := Encode(n, width);
      assert s[1..] == Encode(n / 256, width - 1);
      DecodeEncode(n / 256, width - 1);
      ByteRoundTrip(n % 256);
    }
  }

  lemma ByteRoundTrip(n: nat)
    requires n < 256
    ensures (n as byte) as nat == n
  {
    // Quarters keep the solver's search for the bits short.
    if n < 128 {
      if n < 64 {} else {}
    } else {
      if n < 192 {} else {}
    }
  }

  lemma Power256Values()
    ensures Power256(4) == 0x1_0000_0000
    ensures Power256(8) == 0x1_0000_0000_0000_0000
  {
    assert Power256(1) == 256;
    assert Power256(2) == 65536;
    assert Power256(3) == 256 * 65536;
    assert Power256(5) == 256 * Power256(4);
    assert Power256(6) == 256 * Power256(5);
    assert Power256(7) == 256 * Power256(6);
  }

  // ---------------------------------------------------------------------------------------------
  // Overwriting a stretch of a byte sequence
  // ---------------------------------------------------------------------------------------------

  function Splice(s: seq<byte>, at: nat, data: seq<byte>): seq<byte>
    requires at + |data| <= |s|
  {
    s[..at] + data + s[at + |data|..]
  }

  lemma SpliceSlices(s: seq<byte>, at: nat, data: seq<byte>, from: nat, n: nat)
    requires at + |data| <= |s| && from + n <= |s|
    ensures from == at && n == |data| ==> Splice(s, at, data)[from..from + n] == data
    ensures from + n <= at || at + |data| <= from ==> Splice(s, at, data)[from..from + n] == s[from..from + n]
  {
  }
}
