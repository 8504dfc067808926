/** The bit operations of the flags byte and the byte-wise XOR of counter mode. Bytes are moved
    to bit vectors and back by their two halves, which keeps the conversions cheap to reason about. */
module Bits {
  lemma Fits3(l: int)
    requires 0 <= l < 8
    ensures ((l as bv8) & 7) as int == l
  {
    assert (l as bv8) < 8;
  }

  lemma Low3(x: bv8)
    ensures (x & 7) as int < 8
  {}

  function ToBits(b: int): bv8
    requires 0 <= b < 0x100
  {
    Join(b / 16, b % 16)
  }

  function Join(hi: int, lo: int): bv8
    requires 0 <= hi < 16 && 0 <= lo < 16
  {
    (hi as bv8 << 4) | lo as bv8
  }

  function ToByte(x: bv8): (b: int)
    ensures 0 <= b < 0x100
  {
    HalfByte(x >> 4);
    HalfByte(x & 0x0F);
    (x >> 4) as int * 16 + (x & 0x0F) as int
  }

  lemma HalfByte(h: bv8)
    requires h < 16
    ensures 0 <= h as int < 16 && (h as int) as bv8 == h
  {}

  lemma HalfByteValue(n: int)
    requires 0 <= n < 16
    ensures (n as bv8) < 16 && (n as bv8) as int == n
  {}

  lemma Halves(h: bv8, l: bv8)
    requires h < 16 && l < 16
    ensures ((h << 4) | l) >> 4 == h && ((h << 4) | l) & 0x0F == l
  {}

  lemma HalvesOf(x: bv8)
    ensures x >> 4 < 16 && x & 0x0F < 16 && ((x >> 4) << 4) | (x & 0x0F) == x
  {}

  lemma ToByteToBits(b: int)
    requires 0 <= b < 0x100
    ensures ToByte(ToBits(b)) == b
  {
    HalfByteValue(b / 16);
    HalfByteValue(b % 16);
    Halves((b / 16) as bv8, (b % 16) as bv8);
  }

  lemma SplitNumber(h: int, l: int)
    requires 0 <= l < 16
    ensures (h * 16 + l) / 16 == h && (h * 16 + l) % 16 == l
  {}

  lemma JoinHalves(x: bv8)
    ensures x >> 4 < 16 && x & 0x0F < 16
    ensures 0 <= (x >> 4) as int < 16 && 0 <= (x & 0x0F) as int < 16
    ensures Join((x >> 4) as int, (x & 0x0F) as int) == x
  {
    HalvesOf(x);
    HalfByte(x >> 4);
    HalfByte(x & 0x0F);
  }

  lemma ToBitsToByte(x: bv8)
    ensures ToBits(ToByte(x)) == x
  {
    hide Join;
    JoinHalves(x);
    SplitNumber((x >> 4) as int, (x & 0x0F) as int);
  }

  function XorBits(a: bv8, b: bv8): bv8 { a ^ b }

  function Xor(a: int, b: int): (r: int)
    requires 0 <= a < 0x100 && 0 <= b < 0x100
    ensures 0 <= r < 0x100
  {
    ToByte(XorBits(ToBits(a), ToBits(b)))
  }

  lemma XorBitsTwice(a: bv8, k: bv8)
    ensures XorBits(XorBits(a, k), k) == a
  {}

  lemma XorTwice(a: int, k: int)
    requires 0 <= a < 0x100 && 0 <= k < 0x100
    ensures Xor(Xor(a, k), k) == a
  {
    hide ToBits, ToByte, XorBits;
    var x, y := ToBits(a), ToBits(k);
    ToBitsToByte(XorBits(x, y));
    XorBitsTwice(x, y);
    ToByteToBits(a);
  }
}
