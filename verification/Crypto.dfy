/** Channel-key and public-key encryption over abstract primitives. */
module Crypto {
  import opened Bytes
  import opened Bits

  /** The `Data` protobuf message. */
  datatype Data = Data(
    portnum: i32,
    payload: seq<u8>,
    wantResponse: bool,
    requestId: u32,
    replyId: u32,
    emoji: u32,
    bitfield: Option<u32>)

  /** The primitives the firmware links in: the AES-CTR keystream byte at an index, AES-256-CCM
      sealing and opening, X25519, SHA-256 and the protobuf codec. */
  datatype Suite = Suite(
    keystream: (seq<u8>, seq<u8>, nat) -> u8,
    seal: (seq<u8>, seq<u8>, seq<u8>) -> (seq<u8>, seq<u8>),
    open: (seq<u8>, seq<u8>, seq<u8>, seq<u8>) -> Option<seq<u8>>,
    publicKey: seq<u8> -> seq<u8>,
    agree: (seq<u8>, seq<u8>) -> seq<u8>,
    digest: seq<u8> -> seq<u8>,
    encodeData: Data -> seq<u8>,
    decodeData: seq<u8> -> Option<Data>)

  const PKC_TAG_LEN: nat := 8
  const PKC_EXTRA_NONCE_LEN: nat := 4
  const PKC_OVERHEAD: nat := PKC_TAG_LEN + PKC_EXTRA_NONCE_LEN

  /** What the primitives promise: CCM keeps the length, adds an 8-byte tag and opens what it
      sealed (RFC 3610 sections 2.2 to 2.5); both ends of X25519 agree (RFC 7748 section 6.1);
      a decoded message is the encoded one, and one with
      its bitfield present is not empty. */
  ghost predicate Lawful(s: Suite) {
    && (forall k, n, p :: |s.seal(k, n, p).0| == |p| && |s.seal(k, n, p).1| == PKC_TAG_LEN)
    && (forall k, n, p :: s.open(k, n, s.seal(k, n, p).0, s.seal(k, n, p).1) == Some(p))
    && (forall k, n, c, t :: s.open(k, n, c, t).Some? ==> |s.open(k, n, c, t).value| == |c|)
    && (forall a, b :: s.agree(a, s.publicKey(b)) == s.agree(b, s.publicKey(a)))
    && (forall d :: s.decodeData(s.encodeData(d)) == Some(d))
    && (forall d: Data :: d.bitfield.Some? ==> s.encodeData(d) != [])
  }

  // ---- Channel keys: AES-CTR ----

  function Nonce(packetId: u32, sender: u32): (n: seq<u8>)
    ensures |n| == 16
  {
    LE64(packetId) + LE32(sender) + Zeros(4)
  }

  function CopyPsk(psk: seq<u8>): (k: seq<u8>)
    ensures |psk| <= 32 ==> k == psk
  {
    psk[..Min(|psk|, 32)]
  }

  function Masked(s: Suite, key: seq<u8>, nonce: seq<u8>, data: seq<u8>): (r: seq<u8>)
    ensures |r| == |data|
    ensures forall i :: 0 <= i < |data| ==> r[i] == Xor(data[i], s.keystream(key, nonce, i))
  {
    seq<u8>(|data|, i requires 0 <= i < |data| => var masked: u8 := Xor(data[i], s.keystream(key, nonce, i)); masked)
  }

  /** Encrypt or decrypt; a key of any other length than 16 or 32 is an error, an empty
      message needs no key at all. */
  function Crypt(s: Suite, key: seq<u8>, packetId: u32, sender: u32, data: seq<u8>): Option<seq<u8>> {
    if data == [] then Some(data)
    else if |key| == 16 || |key| == 32 then Some(Masked(s, key, Nonce(packetId, sender), data))
    else None
  }

  /** Counter mode undoes itself under the same key, packet id and sender. */
  lemma CryptTwice(s: Suite, key: seq<u8>, packetId: u32, sender: u32, data: seq<u8>)
    requires Crypt(s, key, packetId, sender, data).Some?
    ensures Crypt(s, key, packetId, sender, Crypt(s, key, packetId, sender, data).value) == Some(data)
  {
    var nonce := Nonce(packetId, sender);
    var once := Crypt(s, key, packetId, sender, data).value;
    if data != [] {
      forall i | 0 <= i < |data|
        ensures Masked(s, key, nonce, once)[i] == data[i]
      {
        XorTwice(data[i], s.keystream(key, nonce, i));
      }
      assert Masked(s, key, nonce, once) == data;
    }
  }

  /** The nonce determines sender and packet id. */
  lemma NonceIsInjective(id1: u32, sender1: u32, id2: u32, sender2: u32)
    requires Nonce(id1, sender1) == Nonce(id2, sender2)
    ensures id1 == id2 && sender1 == sender2
  {
    var a, b := Nonce(id1, sender1), Nonce(id2, sender2);
    assert a[0..8] == LE64(id1) && b[0..8] == LE64(id2);
    assert a[8..12] == LE32(sender1) && b[8..12] == LE32(sender2);
    LE64RoundTrip(id1);
    LE64RoundTrip(id2);
    LE32Injective(sender1, sender2);
  }

  method CryptPacket(s: Suite, key: seq<u8>, packetId: u32, sender: u32, data: array<u8>) returns (ok: bool)
    modifies data
    ensures ok == Crypt(s, key, packetId, sender, old(data[..])).Some?
    ensures data[..] == if ok then Crypt(s, key, packetId, sender, old(data[..])).value else old(data[..])
  {
    if data.Length == 0 {
      return true;
    }
    if |key| != 16 && |key| != 32 {
      return false;
    }
    var nonce := Nonce(packetId, sender);
    ghost var was := data[..];
    for i := 0 to data.Length
      invariant data[i..] == was[i..]
      invariant data[..i] == Masked(s, key, nonce, was)[..i]
    {
      assert data[i] == was[i] by { assert data[i..][0] == was[i..][0]; }
      data[i] := Xor(data[i], s.keystream(key, nonce, i));
    }
    ok := true;
  }

  // ---- Public keys: X25519 and AES-256-CCM ----

  function PkcNonce(packetId: u32, sender: u32, extraNonce: u32): (n: seq<u8>)
    ensures |n| == 13
  {
    LE32(packetId) + LE32(extraNonce) + LE32(sender) + [0]
  }

  /** The nonce determines packet, sender and extra nonce. */
  lemma PkcNonceIsInjective(id1: u32, sender1: u32, extra1: u32, id2: u32, sender2: u32, extra2: u32)
    requires PkcNonce(id1, sender1, extra1) == PkcNonce(id2, sender2, extra2)
    ensures id1 == id2 && sender1 == sender2 && extra1 == extra2
  {
    hide LE32;
    var a, b := PkcNonce(id1, sender1, extra1), PkcNonce(id2, sender2, extra2);
    assert a[0..4] == LE32(id1) && a[4..8] == LE32(extra1) && a[8..12] == LE32(sender1);
    assert b[0..4] == LE32(id2) && b[4..8] == LE32(extra2) && b[8..12] == LE32(sender2);
    LE32Injective(id1, id2);
    LE32Injective(extra1, extra2);
    LE32Injective(sender1, sender2);
  }

  function SharedKey(s: Suite, secret: seq<u8>, peerPublic: seq<u8>): seq<u8> {
    s.digest(s.agree(secret, peerPublic))
  }

  lemma BothEndsDeriveTheSameKey(s: Suite, a: seq<u8>, b: seq<u8>)
    requires Lawful(s)
    ensures SharedKey(s, a, s.publicKey(b)) == SharedKey(s, b, s.publicKey(a))
  {}

  /** Wire form: ciphertext, 8-byte tag, 4-byte extra nonce. */
  function SealPkc(s: Suite, key: seq<u8>, packetId: u32, sender: u32, extraNonce: u32, plain: seq<u8>): seq<u8> {
    var (ct, tag) := s.seal(key, PkcNonce(packetId, sender, extraNonce), plain);
    ct + tag + LE32(extraNonce)
  }

  function OpenPkc(s: Suite, key: seq<u8>, packetId: u32, sender: u32, wire: seq<u8>): Option<seq<u8>> {
    if |wire| < PKC_OVERHEAD then None
    else
      var n := |wire| - PKC_OVERHEAD;
      s.open(key, PkcNonce(packetId, sender, FromLE32(wire[|wire| - 4..])), wire[..n], wire[n..n + PKC_TAG_LEN])
  }

  /** Opening reads the extra nonce back out of the message and recovers the plaintext. */
  lemma OpenUndoesSeal(s: Suite, key: seq<u8>, packetId: u32, sender: u32, extraNonce: u32, plain: seq<u8>)
    requires Lawful(s)
    ensures var wire := SealPkc(s, key, packetId, sender, extraNonce, plain);
            |wire| == |plain| + PKC_OVERHEAD && OpenPkc(s, key, packetId, sender, wire) == Some(plain)
  {
    var nonce := PkcNonce(packetId, sender, extraNonce);
    var (ct, tag) := s.seal(key, nonce, plain);
    assert |ct| == |plain| && |tag| == PKC_TAG_LEN && s.open(key, nonce, ct, tag) == Some(plain);
    var wire := SealPkc(s, key, packetId, sender, extraNonce, plain);
    assert wire[|wire| - 4..] == LE32(extraNonce);
    LE32RoundTrip(extraNonce);
    assert wire[..|plain|] == ct && wire[|plain|..|plain| + PKC_TAG_LEN] == tag;
  }

  datatype PkcResult = Written(n: nat) | BadTag | BadBuffer

  method EncryptPkc(s: Suite, key: seq<u8>, packetId: u32, sender: u32, extraNonce: u32, plain: seq<u8>, out: array<u8>)
    returns (r: PkcResult)
    requires Lawful(s)
    modifies out
    ensures r == if out.Length < |plain| + PKC_OVERHEAD then BadBuffer else Written(|plain| + PKC_OVERHEAD)
    ensures r.Written? ==> out[..] == SealPkc(s, key, packetId, sender, extraNonce, plain) + old(out[r.n..])
    ensures !r.Written? ==> out[..] == old(out[..])
  {
    var needed := |plain| + PKC_OVERHEAD;
    if out.Length < needed {
      return BadBuffer;
    }
    ghost var was := out[..];
    var nonce := PkcNonce(packetId, sender, extraNonce);
    CopyInto(out, 0, plain);
    var ctEnd := |plain| + PKC_TAG_LEN;
    SpliceReadsBack(was, 0, plain);
    var (body, tag) := s.seal(key, nonce, out[..|plain|]);
    SealedLengths(s, key, nonce, plain);
    CopyInto(out, 0, body);
    CopyInto(out, |plain|, tag);
    CopyInto(out, ctEnd, LE32(extraNonce));
    WireIsAssembled(was, plain, body, tag, LE32(extraNonce));
    r := Written(needed);
  }

  lemma SealedLengths(s: Suite, key: seq<u8>, nonce: seq<u8>, plain: seq<u8>)
    requires Lawful(s)
    ensures |s.seal(key, nonce, plain).0| == |plain| && |s.seal(key, nonce, plain).1| == PKC_TAG_LEN
  {}

  lemma WireIsAssembled(buf: seq<u8>, plain: seq<u8>, body: seq<u8>, tag: seq<u8>, extra: seq<u8>)
    requires |body| == |plain| && |tag| == PKC_TAG_LEN && |extra| == PKC_EXTRA_NONCE_LEN
    requires |plain| + PKC_OVERHEAD <= |buf|
    ensures Splice(Splice(Splice(Splice(buf, 0, plain), 0, body), |plain|, tag), |plain| + PKC_TAG_LEN, extra)
         == body + tag + extra + buf[|plain| + PKC_OVERHEAD..]
  {}

  method DecryptPkc(s: Suite, key: seq<u8>, packetId: u32, sender: u32, wire: seq<u8>, out: array<u8>)
    returns (r: PkcResult)
    requires Lawful(s)
    modifies out
    ensures |wire| < PKC_OVERHEAD || out.Length < |wire| - PKC_OVERHEAD <==> r == BadBuffer
    ensures r.Written? ==> r.n == |wire| - PKC_OVERHEAD && r.n <= out.Length
    ensures r.Written? ==> OpenPkc(s, key, packetId, sender, wire) == Some(out[..r.n])
    ensures r.BadTag? ==> OpenPkc(s, key, packetId, sender, wire) == None
  {
    if |wire| < PKC_OVERHEAD || out.Length < |wire| - PKC_OVERHEAD {
      return BadBuffer;
    }
    var n := |wire| - PKC_OVERHEAD;
    var extraNonce := FromLE32(wire[|wire| - 4..]);
    var ct, tag := wire[..n], wire[n..n + PKC_TAG_LEN];
    CopyInto(out, 0, ct);
    var plaintext := s.open(key, PkcNonce(packetId, sender, extraNonce), ct, tag);
    match plaintext {
      case None => r := BadTag;
      case Some(plain) =>
        CopyInto(out, 0, plain);
        assert out[..n] == plain;
        r := Written(n);
    }
  }

  // ---- The laws can be met ----

  function SignedWord(x: i32): u32 { if x < 0 then x + 0x1_0000_0000 else x }

  function ToyEncode(d: Data): seq<u8> {
    LE32(SignedWord(d.portnum)) + LE32(d.requestId) + LE32(d.replyId) + LE32(d.emoji)
    + LE32(if d.bitfield.Some? then d.bitfield.value else 0) + [Flag(d.wantResponse), Flag(d.bitfield.Some?)]
      + d.payload
  }

  function ToyDecode(b: seq<u8>): Option<Data> {
    if |b| < 22 then None
    else
      var p := FromLE32(b[0..4]);
      Some(Data(if p >= 0x8000_0000 then p - 0x1_0000_0000 else p, b[22..], b[20] == 1,
                FromLE32(b[4..8]), FromLE32(b[8..12]),
                FromLE32(b[12..16]), if b[21] == 1 then Some(FromLE32(b[16..20])) else None))
  }

  lemma ToyRoundTrip(d: Data)
    ensures ToyDecode(ToyEncode(d)) == Some(d)
  {
    var b := ToyEncode(d);
    var bits := if d.bitfield.Some? then d.bitfield.value else 0;
    assert b[0..4] == LE32(SignedWord(d.portnum)) && b[4..8] == LE32(d.requestId) && b[8..12] == LE32(d.replyId);
    assert b[12..16] == LE32(d.emoji) && b[16..20] == LE32(bits) && b[22..] == d.payload;
    LE32RoundTrip(SignedWord(d.portnum));
    LE32RoundTrip(d.requestId);
    LE32RoundTrip(d.replyId);
    LE32RoundTrip(d.emoji);
    LE32RoundTrip(bits);
  }

  /** Some suite obeys every law, so results that assume them say something. */
  lemma LawsAreConsistent() returns (s: Suite)
    ensures Lawful(s)
  {
    s := Suite((_, _, _) => 0,
               (_, _, p) => (p, Zeros(PKC_TAG_LEN)),
               (_, _, c, _) => Some(c),
               k => k,
               (_, _) => [],
               k => k,
               d => ToyEncode(d),
               b => ToyDecode(b));
    forall d
      ensures s.decodeData(s.encodeData(d)) == Some(d)
    {
      ToyRoundTrip(d);
    }
  }
}
