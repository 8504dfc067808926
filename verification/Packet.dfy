/** The 16-byte over-the-air header, its packed flags byte, and the frame that carries it. */
module Packet {
  import opened Bytes
  import opened Bits

  const HEADER_SIZE: nat := 16
  const MAX_LORA_PAYLOAD_LEN: nat := 255
  const BROADCAST_ADDR: u32 := 0xFFFF_FFFF
  const MAX_HOP_LIMIT: u8 := 7
  const NO_NEXT_HOP: u8 := 0

  // ---- Flags byte: hop_limit in bits 2:0, want_ack 3, via_mqtt 4, hop_start 7:5 ----

  function HopLimitOf(flags: bv8): u8 { (flags & 0x07) as int }

  function HopStartOf(flags: bv8): u8 { ((flags >> 5) & 0x07) as int }

  predicate WantAckOf(flags: bv8) { flags & 0x08 != 0 }

  predicate ViaMqttOf(flags: bv8) { flags & 0x10 != 0 }

  function SetHopLimit(flags: bv8, limit: u8): bv8 {
    (flags & 0xF8) | (((limit as bv8) & 0x07) << 0)
  }

  function MakeFlags(wantAck: bool, viaMqtt: bool, hopLimit: u8, hopStart: u8): bv8 {
    var f := (if wantAck then 0x08 else 0) | (if viaMqtt then 0x10 else 0);
    (f | (((hopLimit as bv8) & 0x07) << 0)) | (((hopStart as bv8) & 0x07) << 5)
  }

  lemma HopFieldsFitThreeBits(flags: bv8)
    ensures HopLimitOf(flags) <= 7 && HopStartOf(flags) <= 7
  {
    Low3(flags);
    Low3(flags >> 5);
  }

  lemma SetHopLimitBits(f: bv8, l: bv8)
    ensures var g := (f & 0xF8) | ((l & 0x07) << 0);
            && g & 0x07 == l & 0x07
            && (g >> 5) & 0x07 == (f >> 5) & 0x07
            && g & 0x08 == f & 0x08
            && g & 0x10 == f & 0x10
  {}

  /** Rewriting hop_limit touches no other bit of the flags byte. */
  lemma SetHopLimitRewritesOnlyHopLimit(flags: bv8, limit: u8)
    requires limit <= MAX_HOP_LIMIT
    ensures var g := SetHopLimit(flags, limit);
            && HopLimitOf(g) == limit
            && HopStartOf(g) == HopStartOf(flags)
            && WantAckOf(g) == WantAckOf(flags)
            && ViaMqttOf(g) == ViaMqttOf(flags)
  {
    SetHopLimitBits(flags, limit as bv8);
    Fits3(limit);
  }

  lemma MakeFlagsBits(wantAck: bool, viaMqtt: bool, l: bv8, s: bv8)
    ensures var bits := (if wantAck then 0x08 else 0) | (if viaMqtt then 0x10 else 0);
            var f := (bits | ((l & 0x07) << 0)) | ((s & 0x07) << 5);
            && f & 0x07 == l & 0x07
            && (f >> 5) & 0x07 == s & 0x07
            && (f & 0x08 != 0) == wantAck
            && (f & 0x10 != 0) == viaMqtt
  {}

  /** The four packed fields come back out of the flags byte they were put into. */
  lemma MakeFlagsRoundTrip(wantAck: bool, viaMqtt: bool, hopLimit: u8, hopStart: u8)
    requires hopLimit <= MAX_HOP_LIMIT && hopStart <= MAX_HOP_LIMIT
    ensures var f := MakeFlags(wantAck, viaMqtt, hopLimit, hopStart);
            && HopLimitOf(f) == hopLimit
            && HopStartOf(f) == hopStart
            && WantAckOf(f) == wantAck
            && ViaMqttOf(f) == viaMqtt
  {
    Fits3(hopLimit);
    Fits3(hopStart);
    MakeFlagsBits(wantAck, viaMqtt, hopLimit as bv8, hopStart as bv8);
  }

  // ---- Header ----

  datatype PacketHeader = PacketHeader(
    destination: u32,
    sender: u32,
    packetId: u32,
    flags: bv8,
    channelIndex: u8,
    nextHop: u8,
    relayNode: u8)
  {
    function HopLimit(): u8 { HopLimitOf(flags) }

    function HopStart(): u8 { HopStartOf(flags) }

    predicate WantAck() { WantAckOf(flags) }

    predicate IsForUs(our: u32) { destination == our || destination == BROADCAST_ADDR }

    /** The header a relay sends on: new hop limit, our byte as relay_node. */
    function Rewritten(hopLimit: u8, relay: u8): PacketHeader {
      this.(flags := SetHopLimit(flags, hopLimit), relayNode := relay)
    }
  }

  function EncodeHeader(h: PacketHeader): (b: seq<u8>)
    ensures |b| == HEADER_SIZE
  {
    LE32(h.destination) + LE32(h.sender) + LE32(h.packetId)
    + [ToByte(h.flags), h.channelIndex, h.nextHop, h.relayNode]
  }

  function DecodeHeader(b: seq<u8>): Option<PacketHeader> {
    if |b| < HEADER_SIZE then
      None
    else
      Some(PacketHeader(FromLE32(b[0..4]), FromLE32(b[4..8]), FromLE32(b[8..12]),
                        ToBits(b[12]), b[13], b[14], b[15]))
  }

  /** Decoding reads back every encoded header, whatever bytes follow it. */
  lemma HeaderRoundTrip(h: PacketHeader, rest: seq<u8>)
    ensures DecodeHeader(EncodeHeader(h) + rest) == Some(h)
  {
    var b := EncodeHeader(h) + rest;
    assert b[0..4] == LE32(h.destination) && b[4..8] == LE32(h.sender) && b[8..12] == LE32(h.packetId);
    LE32RoundTrip(h.destination);
    LE32RoundTrip(h.sender);
    LE32RoundTrip(h.packetId);
    ToBitsToByte(h.flags);
  }

  /** Encoding a decoded header gives back the very bytes it was read from. */
  lemma HeaderBytesRoundTrip(b: seq<u8>)
    requires |b| >= HEADER_SIZE
    ensures EncodeHeader(DecodeHeader(b).value) == b[..HEADER_SIZE]
  {
    FromLE32RoundTrip(b[0..4]);
    FromLE32RoundTrip(b[4..8]);
    FromLE32RoundTrip(b[8..12]);
    ToByteToBits(b[12]);
    var e := EncodeHeader(DecodeHeader(b).value);
    assert e == b[0..4] + b[4..8] + b[8..12] + [b[12], b[13], b[14], b[15]];
  }

  /** Write a header into a 16-byte buffer, field by field. */
  method EncodeHeaderInto(h: PacketHeader, buf: array<u8>)
    requires buf.Length == HEADER_SIZE
    modifies buf
    ensures buf[..] == EncodeHeader(h)
  {
    hide LE32, Splice;
    CopyInto(buf, 0, LE32(h.destination));
    CopyInto(buf, 4, LE32(h.sender));
    CopyInto(buf, 8, LE32(h.packetId));
    assert buf[0..4] == LE32(h.destination) && buf[4..8] == LE32(h.sender) && buf[8..12] == LE32(h.packetId);
    buf[12] := ToByte(h.flags);
    buf[13] := h.channelIndex;
    buf[14] := h.nextHop;
    buf[15] := h.relayNode;
    assert buf[..] == buf[0..4] + buf[4..8] + buf[8..12] + [buf[12], buf[13], buf[14], buf[15]];
  }

  // ---- Frame ----

  /** A frame, read through its header when it is long enough to have one. */
  datatype RadioFrame = Runt(raw: seq<u8>) | Framed(hdr: PacketHeader, body: seq<u8>)
  {
    predicate Valid() {
      match this
      case Runt(raw) => |raw| < HEADER_SIZE
      case Framed(_, body) => HEADER_SIZE + |body| <= MAX_LORA_PAYLOAD_LEN
    }

    /** The bytes on the air. */
    function AsBytes(): seq<u8> {
      match this
      case Runt(raw) => raw
      case Framed(h, body) => EncodeHeader(h) + body
    }

    function Rewritten(hopLimit: u8, relay: u8): RadioFrame {
      match this
      case Runt(_) => this
      case Framed(h, body) => Framed(h.Rewritten(hopLimit, relay), body)
    }

    function WithNextHop(nextHop: u8): RadioFrame {
      match this
      case Runt(_) => this
      case Framed(h, body) => Framed(h.(nextHop := nextHop), body)
    }
  }

  function Parse(b: seq<u8>): RadioFrame {
    match DecodeHeader(b)
    case None => Runt(b)
    case Some(h) => Framed(h, b[HEADER_SIZE..])
  }

  function FromParts(h: PacketHeader, body: seq<u8>): Option<RadioFrame> {
    if HEADER_SIZE + |body| > MAX_LORA_PAYLOAD_LEN then None else Some(Framed(h, body))
  }

  /** Reading a frame through its header loses nothing in either direction. */
  lemma ParseIsInverseOfAsBytes(f: RadioFrame, b: seq<u8>)
    ensures f.Valid() ==> Parse(f.AsBytes()) == f
    ensures Parse(b).AsBytes() == b
    ensures Parse(b).Valid() == (|b| <= MAX_LORA_PAYLOAD_LEN)
  {
    if f.Framed? {
      HeaderRoundTrip(f.hdr, f.body);
    }
    if |b| >= HEADER_SIZE {
      HeaderBytesRoundTrip(b);
    }
  }

  /** Assemble header and payload into one buffer; too long a payload gives no frame. */
  method FromPartsInto(h: PacketHeader, payload: seq<u8>) returns (r: Option<seq<u8>>)
    ensures r.Some? == FromParts(h, payload).Some?
    ensures r.Some? ==> Parse(r.value) == FromParts(h, payload).value
  {
    var total := HEADER_SIZE + |payload|;
    if total > MAX_LORA_PAYLOAD_LEN {
      return None;
    }
    var data := new u8[MAX_LORA_PAYLOAD_LEN](_ => 0);
    var hdr := new u8[HEADER_SIZE](_ => 0);
    EncodeHeaderInto(h, hdr);
    CopyInto(data, 0, hdr[..]);
    CopyInto(data, HEADER_SIZE, payload);
    assert data[..total] == EncodeHeader(h) + payload;
    HeaderRoundTrip(h, payload);
    r := Some(data[..total]);
  }

  /** Rewriting a relay's header in place: only the header's hop limit and relay byte change. */
  method RewriteHeaderInPlace(data: array<u8>, len: nat, hopLimit: u8, relay: u8)
    requires len <= data.Length == MAX_LORA_PAYLOAD_LEN
    modifies data
    ensures data[len..] == old(data[len..])
    ensures Parse(data[..len]) == Parse(old(data[..len])).Rewritten(hopLimit, relay)
  {
    if len >= HEADER_SIZE {
      hide EncodeHeader, DecodeHeader, Splice;
      ghost var all, was := data[..], data[..len];
      HeaderBytesRoundTrip(was);
      var h := DecodeHeader(data[..len]).value;
      var hdr := h.Rewritten(hopLimit, relay);
      var buf := new u8[HEADER_SIZE](_ => 0);
      EncodeHeaderInto(hdr, buf);
      CopyInto(data, 0, buf[..]);
      assert data[len..] == all[len..];
      assert data[..len] == EncodeHeader(hdr) + was[HEADER_SIZE..];
      HeaderRoundTrip(hdr, was[HEADER_SIZE..]);
      assert data[..len][HEADER_SIZE..] == was[HEADER_SIZE..];
    }
  }
}
