/** The one path by which this node originates frames. */
module Tx {
  import opened Bytes
  import opened Packet
  import opened Channels
  import opened Device
  import opened NodeDb
  import opened Crypto

  const TEXT_MESSAGE_APP: i32 := 1
  const POSITION_APP: i32 := 3
  const NODEINFO_APP: i32 := 4
  const ROUTING_APP: i32 := 5
  const ADMIN_APP: i32 := 6
  const TEXT_MESSAGE_COMPRESSED_APP: i32 := 7
  const TRACEROUTE_APP: i32 := 70

  datatype TxRequest = TxRequest(
    dest: u32,
    portnum: i32,
    payload: seq<u8>,
    channelIdx: Option<u8>,
    wantAck: bool,
    wantResponse: bool,
    requestId: u32,
    replyId: u32,
    emoji: u32,
    hopLimit: Option<u8>)

  /** Our private key and a fresh nonce, when the caller asks for public-key encryption. */
  datatype PkcKeys = PkcKeys(priv: seq<u8>, extraNonce: u32)

  function DataOf(dev: Device, req: TxRequest): Data {
    var bits: u32 := (if dev.configOkToMqtt then 1 else 0) + (if req.wantResponse then 2 else 0);
    Data(req.portnum, req.payload, req.wantResponse, req.requestId, req.replyId, req.emoji, Some(bits))
  }

  /** The requested channel if it exists, else the primary one. */
  function SendChannel(dev: Device, req: TxRequest): Option<ChannelConfig> {
    var asked := match req.channelIdx case Some(i) => GetChannel(dev.channels, i) case None => None;
    if asked.Some? then asked else PrimaryChannel(dev.channels)
  }

  function ChannelHash(dev: Device, req: TxRequest, pkc: Option<PkcKeys>): u8 {
    if pkc.Some? then 0
    else match SendChannel(dev, req) case Some(c) => c.Hash(dev.PresetName()) case None => 0
  }

  function StoredKey(db: Db, num: u32): Option<seq<u8>> {
    match Get(db, num) case Some(e) => e.pubKey case None => None
  }

  /** The frame's body: sealed for the destination, masked with the channel key, or plain. */
  function EncryptedBody(s: Suite, dev: Device, db: Db, req: TxRequest, packetId: u32,
          pkc: Option<PkcKeys>): Option<seq<u8>> {
    var plain := s.encodeData(DataOf(dev, req));
    match pkc
    case Some(keys) =>
      (match StoredKey(db, req.dest)
       case None => None
       case Some(peer) => Some(SealPkc(s, SharedKey(s, keys.priv, peer), packetId, dev.myNodeNum, keys.extraNonce,
                                       plain)))
    case None =>
      match SendChannel(dev, req)
      case Some(c) => if c.IsEncrypted() then Crypt(s, CopyPsk(c.EffectivePsk()), packetId, dev.myNodeNum, plain)
      else Some(plain)
      case None => Some(plain)
  }

  function OriginHopLimit(dev: Device, req: TxRequest): (h: u8)
    ensures h <= MAX_HOP_LIMIT
  {
    Min(match req.hopLimit case Some(h) => h case None => dev.hopLimit, MAX_HOP_LIMIT)
  }

  function OriginHeader(dev: Device, db: Db, req: TxRequest, packetId: u32, pkc: Option<PkcKeys>): PacketHeader {
    var broadcast := req.dest == BROADCAST_ADDR;
    var hop := OriginHopLimit(dev, req);
    PacketHeader(req.dest, dev.myNodeNum, packetId, MakeFlags(req.wantAck && !broadcast, false, hop, hop),
                 ChannelHash(dev, req, pkc),
                 if broadcast then NO_NEXT_HOP else GetNextHop(db, req.dest, 0), dev.LastByte())
  }

  function Build(s: Suite, dev: Device, db: Db, req: TxRequest, packetId: u32, pkc: Option<PkcKeys>)
    : Option<RadioFrame>
  {
    match EncryptedBody(s, dev, db, req, packetId, pkc)
    case None => None
    case Some(body) => FromParts(OriginHeader(dev, db, req, packetId, pkc), body)
  }

  /** Every message we originate carries its bitfield, whose two low bits say whether gateways may
      pass it on and whether an answer is wanted. */
  lemma OriginatedDataCarriesItsBitfield(dev: Device, req: TxRequest)
    ensures var b := DataOf(dev, req).bitfield;
            && b.Some? && (b.value % 2 == 1 <==> dev.configOkToMqtt) && (b.value / 2 % 2 == 1 <==> req.wantResponse)
            && b.value < 4
  {}

  /** Every frame we originate starts with its whole hop budget, at most seven, and goes by the
      learned route when there is one. */
  lemma BuiltFramesStartFresh(s: Suite, dev: Device, db: Db, req: TxRequest, packetId: u32, pkc: Option<PkcKeys>)
    requires Build(s, dev, db, req, packetId, pkc).Some?
    ensures var f := Build(s, dev, db, req, packetId, pkc).value;
            && f.Framed? && f.Valid()
            && f.hdr.sender == dev.myNodeNum && f.hdr.packetId == packetId && f.hdr.destination == req.dest
            && f.hdr.HopLimit() == f.hdr.HopStart() == OriginHopLimit(dev, req) <= MAX_HOP_LIMIT
            && f.hdr.WantAck() == (req.wantAck && req.dest != BROADCAST_ADDR) && !ViaMqttOf(f.hdr.flags)
            && f.hdr.relayNode == dev.myNodeNum % 0x100
            && (pkc.Some? ==> f.hdr.channelIndex == 0)
            && (req.dest == BROADCAST_ADDR || Get(db, req.dest).None? ==> f.hdr.nextHop == NO_NEXT_HOP)
            && (req.dest != BROADCAST_ADDR && Get(db, req.dest).Some? ==>
                f.hdr.nextHop == Get(db, req.dest).value.nextHop)
  {
    var hop := OriginHopLimit(dev, req);
    MakeFlagsRoundTrip(req.wantAck && req.dest != BROADCAST_ADDR, false, hop, hop);
  }

  /** Encode, encrypt in place or replace the buffer, and frame. */
  method BuildFrame(s: Suite, dev: Device, db: Db, req: TxRequest, packetId: u32, pkc: Option<PkcKeys>)
    returns (r: Option<RadioFrame>)
    requires Lawful(s)
    ensures r == Build(s, dev, db, req, packetId, pkc)
  {
    var plain := s.encodeData(DataOf(dev, req));
    var enc := new u8[|plain|](i requires 0 <= i < |plain| => plain[i]);
    assert enc[..] == plain;
    var channel := SendChannel(dev, req);
    if pkc.Some? {
      var peer := StoredKey(db, req.dest);
      if peer.None? {
        return None;
      }
      var key := SharedKey(s, pkc.value.priv, peer.value);
      var sealed := new u8[|plain| + PKC_OVERHEAD](_ => 0);
      var written := EncryptPkc(s, key, packetId, dev.myNodeNum, pkc.value.extraNonce, plain, sealed);
      OpenUndoesSeal(s, key, packetId, dev.myNodeNum, pkc.value.extraNonce, plain);
      assert sealed[..] == SealPkc(s, key, packetId, dev.myNodeNum, pkc.value.extraNonce, plain);
      enc := sealed;
    } else if channel.Some? && channel.value.IsEncrypted() {
      var ok := CryptPacket(s, CopyPsk(channel.value.EffectivePsk()), packetId, dev.myNodeNum, enc);
      if !ok {
        return None;
      }
    }
    r := FromParts(OriginHeader(dev, db, req, packetId, pkc), enc[..]);
  }
}
