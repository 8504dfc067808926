/** Which byte strings are UTF-8 (RFC 3629, section 4). */
module Utf8 {
  import opened Bytes

  predicate Tail(b: u8) { 0x80 <= b <= 0xBF }

  /** The length of the well-formed character at the front, or zero. */
  function CharLength(b: seq<u8>): (n: nat)
    ensures n <= |b| && n <= 4
  {
    if b == [] then 0
    else if b[0] < 0x80 then 1
    else if |b| < 2 || !(LowSecond(b[0]) <= b[1] <= HighSecond(b[0])) then 0
    else if 0xC2 <= b[0] <= 0xDF then 2
    else if |b| < 3 || !Tail(b[2]) then 0
    else if 0xE0 <= b[0] <= 0xEF then 3
    else if |b| < 4 || !Tail(b[3]) then 0
    else if 0xF0 <= b[0] <= 0xF4 then 4
    else 0
  }

  /** The range of the second byte, which excludes overlong forms, surrogates and the end. */
  function LowSecond(lead: u8): u8 { if lead == 0xE0 then 0xA0 else if lead == 0xF0 then 0x90 else 0x80 }

  function HighSecond(lead: u8): u8 { if lead == 0xED then 0x9F else if lead == 0xF4 then 0x8F else 0xBF }

  predicate ValidUtf8(b: seq<u8>)
    decreases |b|
  {
    b == [] || (CharLength(b) > 0 && ValidUtf8(b[CharLength(b)..]))
  }

  lemma {:induction false} AsciiIsUtf8(b: seq<u8>)
    requires forall k :: 0 <= k < |b| ==> b[k] < 0x80
    ensures ValidUtf8(b)
  {
    if b != [] {
      AsciiIsUtf8(b[1..]);
    }
  }
}
