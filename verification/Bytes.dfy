/** Machine integers, little-endian fields and slice writes shared by every wire and flash layout. */
module Bytes {

  type u8 = x: int | 0 <= x < 0x100
  type u16 = x: int | 0 <= x < 0x1_0000
  type u32 = x: int | 0 <= x < 0x1_0000_0000
  type u64 = x: int | 0 <= x < 0x1_0000_0000_0000_0000
  type i8 = x: int | -0x80 <= x < 0x80
  type i32 = x: int | -0x8000_0000 <= x < 0x8000_0000

  datatype Option<+T> = None | Some(value: T)

  function Min(a: int, b: int): int { if a < b then a else b }

  function Max(a: int, b: int): int { if a < b then b else a }

  function Flag(b: bool): u8 { if b then 1 else 0 }

  function SatSub(a: nat, b: nat): nat { if a < b then 0 else a - b }

  // ---- Little-endian fields ----

  function LE16(x: u16): (b: seq<u8>)
    ensures |b| == 2
  {
    [x % 0x100, x / 0x100]
  }

  function LE32(x: u32): (b: seq<u8>)
    ensures |b| == 4
  {
    LE16(x % 0x1_0000) + LE16(x / 0x1_0000)
  }

  function LE64(x: u64): (b: seq<u8>)
    ensures |b| == 8
  {
    LE32(x % 0x1_0000_0000) + LE32(x / 0x1_0000_0000)
  }

  function FromLE16(b: seq<u8>): u16
    requires |b| == 2
  {
    var lo: int, hi: int := b[0], b[1];
    lo + 0x100 * hi
  }

  function FromLE32(b: seq<u8>): u32
    requires |b| == 4
  {
    FromLE16(b[..2]) + 0x1_0000 * FromLE16(b[2..])
  }

  function FromLE64(b: seq<u8>): u64
    requires |b| == 8
  {
    FromLE32(b[..4]) + 0x1_0000_0000 * FromLE32(b[4..])
  }

  lemma LE16RoundTrip(x: u16)
    ensures FromLE16(LE16(x)) == x
  {}

  lemma LE32RoundTrip(x: u32)
    ensures FromLE32(LE32(x)) == x
  {
    assert LE32(x)[..2] == LE16(x % 0x1_0000) && LE32(x)[2..] == LE16(x / 0x1_0000);
    LE16RoundTrip(x % 0x1_0000);
    LE16RoundTrip(x / 0x1_0000);
  }

  lemma LE64RoundTrip(x: u64)
    ensures FromLE64(LE64(x)) == x
  {
    assert LE64(x)[..4] == LE32(x % 0x1_0000_0000) && LE64(x)[4..] == LE32(x / 0x1_0000_0000);
    LE32RoundTrip(x % 0x1_0000_0000);
    LE32RoundTrip(x / 0x1_0000_0000);
  }

  lemma FromLE16RoundTrip(b: seq<u8>)
    requires |b| == 2
    ensures LE16(FromLE16(b)) == b
  {}

  lemma HalvesOf(lo: int, hi: int)
    requires 0 <= lo < 0x1_0000
    ensures (lo + 0x1_0000 * hi) % 0x1_0000 == lo && (lo + 0x1_0000 * hi) / 0x1_0000 == hi
  {}

  lemma FromLE32RoundTrip(b: seq<u8>)
    requires |b| == 4
    ensures LE32(FromLE32(b)) == b
  {
    var lo: int, hi: int := FromLE16(b[..2]), FromLE16(b[2..]);
    HalvesOf(lo, hi);
    FromLE16RoundTrip(b[..2]);
    FromLE16RoundTrip(b[2..]);
    assert b == b[..2] + b[2..];
  }

  lemma LE32Injective(x: u32, y: u32)
    requires LE32(x) == LE32(y)
    ensures x == y
  {
    LE32RoundTrip(x);
    LE32RoundTrip(y);
  }

  // ---- Slice writes ----

  /** `buf` with the bytes from `off` on replaced by `src`. */
  function Splice<T>(buf: seq<T>, off: nat, src: seq<T>): (r: seq<T>)
    requires off + |src| <= |buf|
    ensures |r| == |buf|
    ensures forall k :: 0 <= k < |buf| ==> r[k] == if off <= k < off + |src| then src[k - off] else buf[k]
  {
    buf[..off] + src + buf[off + |src|..]
  }

  lemma SpliceReadsBack<T>(buf: seq<T>, off: nat, src: seq<T>)
    requires off + |src| <= |buf|
    ensures Splice(buf, off, src)[off..off + |src|] == src
  {}

  lemma SpliceIs<T>(buf: seq<T>, off: nat, src: seq<T>)
    requires off + |src| <= |buf|
    ensures Splice(buf, off, src) == buf[..off] + src + buf[off + |src|..]
  {}

  /** Two writes to ranges that do not meet leave each other's bytes alone. */
  lemma SpliceKeepsDisjoint<T>(buf: seq<T>, off: nat, src: seq<T>, lo: nat, hi: nat)
    requires off + |src| <= |buf| && lo <= hi <= |buf|
    requires hi <= off || off + |src| <= lo
    ensures Splice(buf, off, src)[lo..hi] == buf[lo..hi]
  {}

  lemma SpliceAfter<T>(front: seq<T>, rest: seq<T>, src: seq<T>)
    requires |src| <= |rest|
    ensures Splice(front + rest, |front|, src) == front + src + rest[|src|..]
  {}

  /** Copy a slice into a buffer at an offset. */
  method CopyInto<T>(buf: array<T>, off: nat, src: seq<T>)
    requires off + |src| <= buf.Length
    modifies buf
    ensures buf[..] == Splice(old(buf[..]), off, src)
  {
    forall k | 0 <= k < |src| {
      buf[off + k] := src[k];
    }
  }

  function Zeros(n: nat): (r: seq<u8>)
    ensures |r| == n && forall k :: 0 <= k < n ==> r[k] == 0
  {
    seq(n, _ => 0)
  }

  predicate AllZero(b: seq<u8>) {
    forall k :: 0 <= k < |b| ==> b[k] == 0
  }
}
