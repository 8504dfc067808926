/** Decrypting and decoding what the radio hears, and why it undoes what a sender built. */
module Receive {
  import opened Bytes
  import opened Packet
  import opened Channels
  import opened Device
  import opened NodeDb
  import opened Crypto
  import opened Tx

  const PAYLOAD_CAPACITY: nat := 256

  datatype DecodedPayload = DecodedPayload(
    portnum: i32,
    wantResponse: bool,
    requestId: u32,
    replyId: u32,
    emoji: u32,
    payload: seq<u8>,
    channelIndex: u8)

  datatype DecryptOutcome = Decoded(d: DecodedPayload) | PkiUnknownPubkey | Drop

  function RxChannel(h: PacketHeader, dev: Device): Option<ChannelConfig> {
    FindByHash(dev.channels, h.channelIndex, dev.PresetName())
  }

  /** The sender's key, looked up only for a packet that may be public-key encrypted to us. */
  function SenderKey(h: PacketHeader, raw: seq<u8>, dev: Device, db: Db, priv: seq<u8>): Option<seq<u8>> {
    if h.channelIndex == 0 && h.destination == dev.myNodeNum && |raw| > PKC_OVERHEAD && !AllZero(priv)
    then StoredKey(db, h.sender)
    else None
  }

  function PkcPlaintext(s: Suite, h: PacketHeader, raw: seq<u8>, dev: Device, db: Db, priv: seq<u8>): Option<seq<u8>> {
    match SenderKey(h, raw, dev, db, priv)
    case None => None
    case Some(peer) =>
      if SatSub(|raw|, PKC_OVERHEAD) > PAYLOAD_CAPACITY then None
      else OpenPkc(s, SharedKey(s, priv, peer), h.packetId, h.sender, raw)
  }

  /** The channel path: unmask with the matching channel's key, or take the bytes as they are. */
  function PskPlaintext(s: Suite, h: PacketHeader, raw: seq<u8>, dev: Device): Option<seq<u8>> {
    var held := if |raw| <= PAYLOAD_CAPACITY then raw else [];
    match RxChannel(h, dev)
    case Some(c) =>
      if c.IsEncrypted() && held != [] then Crypt(s, CopyPsk(c.EffectivePsk()), h.packetId, h.sender, held)
      else Some(held)
    case None => Some(held)
  }

  function FinalUndecodedOutcome(h: PacketHeader, dev: Device, senderKey: Option<seq<u8>>): DecryptOutcome {
    if h.channelIndex == 0 && h.destination == dev.myNodeNum && senderKey.None? then PkiUnknownPubkey else Drop
  }

  function TryDecryptAndDecode(s: Suite, h: PacketHeader, raw: seq<u8>, dev: Device, db: Db,
          priv: seq<u8>): DecryptOutcome {
    var pkc := PkcPlaintext(s, h, raw, dev, db, priv);
    var plain := if pkc.Some? then pkc else PskPlaintext(s, h, raw, dev);
    var data := match plain case Some(p) => s.decodeData(p) case None => None;
    match data
    case None => FinalUndecodedOutcome(h, dev, SenderKey(h, raw, dev, db, priv))
    case Some(m) =>
      if m.portnum == TEXT_MESSAGE_APP && h.destination == dev.myNodeNum && pkc.None? then Drop
      else
        var index := match RxChannel(h, dev) case Some(c) => c.index case None => 0;
        Decoded(DecodedPayload(m.portnum, m.wantResponse, m.requestId, m.replyId, m.emoji, m.payload, index))
  }

  /** Open the packet under the sender's key into a buffer of its own. */
  method TryPkc(s: Suite, h: PacketHeader, raw: seq<u8>, dev: Device, db: Db, priv: seq<u8>)
    returns (r: Option<seq<u8>>)
    requires Lawful(s) && HEADER_SIZE + |raw| <= MAX_LORA_PAYLOAD_LEN
    ensures r == PkcPlaintext(s, h, raw, dev, db, priv)
  {
    var senderKey := SenderKey(h, raw, dev, db, priv);
    if senderKey.None? {
      return None;
    }
    var plainBuf := new u8[|raw| - PKC_OVERHEAD](_ => 0);
    var written := DecryptPkc(s, SharedKey(s, priv, senderKey.value), h.packetId, h.sender, raw, plainBuf);
    r := if written.Written? then Some(plainBuf[..written.n]) else None;
  }

  /** Unmask the payload in place with the matching channel's key. */
  method TryPsk(s: Suite, h: PacketHeader, raw: seq<u8>, dev: Device) returns (r: Option<seq<u8>>)
    requires Lawful(s) && HEADER_SIZE + |raw| <= MAX_LORA_PAYLOAD_LEN
    ensures r == PskPlaintext(s, h, raw, dev)
  {
    hide FindByHash;
    var channel := RxChannel(h, dev);
    if channel.None? || !channel.value.IsEncrypted() || raw == [] {
      return Some(raw);
    }
    var buf := new u8[|raw|](i requires 0 <= i < |raw| => raw[i]);
    assert buf[..] == raw;
    var ok := CryptPacket(s, CopyPsk(channel.value.EffectivePsk()), h.packetId, h.sender, buf);
    r := if ok then Some(buf[..]) else None;
  }

  /** The receive path: the sender's key first, then the channel's. */
  method DecryptAndDecode(s: Suite, h: PacketHeader, raw: seq<u8>, dev: Device, db: Db,
          priv: seq<u8>) returns (r: DecryptOutcome)
    requires Lawful(s) && HEADER_SIZE + |raw| <= MAX_LORA_PAYLOAD_LEN
    ensures r == TryDecryptAndDecode(s, h, raw, dev, db, priv)
  {
    hide PkcPlaintext, PskPlaintext, RxChannel, SenderKey;
    var channel := RxChannel(h, dev);
    var channelIndex := if channel.Some? then channel.value.index else 0;
    var senderKey := SenderKey(h, raw, dev, db, priv);
    var payload := TryPkc(s, h, raw, dev, db, priv);
    var pkcDecrypted := payload.Some?;
    if !pkcDecrypted {
      payload := TryPsk(s, h, raw, dev);
      if payload.None? {
        return FinalUndecodedOutcome(h, dev, senderKey);
      }
    }
    var data := s.decodeData(payload.value);
    if data.None? {
      return FinalUndecodedOutcome(h, dev, senderKey);
    }
    var m := data.value;
    if m.portnum == TEXT_MESSAGE_APP && h.destination == dev.myNodeNum && !pkcDecrypted {
      return Drop;
    }
    r := Decoded(DecodedPayload(m.portnum, m.wantResponse, m.requestId, m.replyId, m.emoji, m.payload, channelIndex));
  }

  /** What a stored frame is read as when it is handed to the phone: by the channel alone. */
  function DecodePskFrame(s: Suite, f: RadioFrame, dev: Device): (r: Option<DecodedPayload>)
    ensures r.Some? ==> f.Framed?
  {
    if f.Runt? then None
    else
      var plain := PskPlaintext(s, f.hdr, f.body, dev);
      var data := match plain case Some(p) => s.decodeData(p) case None => None;
      match data
      case None => None
      case Some(m) =>
        Some(DecodedPayload(m.portnum, m.wantResponse, m.requestId, m.replyId, m.emoji, m.payload,
                            match RxChannel(f.hdr, dev) case Some(c) => c.index case None => 0))
  }

  method DecodeStored(s: Suite, f: RadioFrame, dev: Device) returns (r: Option<DecodedPayload>)
    requires Lawful(s) && f.Valid()
    ensures r == DecodePskFrame(s, f, dev)
  {
    hide PskPlaintext, RxChannel;
    if f.Runt? {
      return None;
    }
    var channel := RxChannel(f.hdr, dev);
    var plain := TryPsk(s, f.hdr, f.body, dev);
    if plain.None? {
      return None;
    }
    var data := s.decodeData(plain.value);
    if data.None? {
      return None;
    }
    var m := data.value;
    r := Some(DecodedPayload(m.portnum, m.wantResponse, m.requestId, m.replyId, m.emoji, m.payload,
                             if channel.Some? then channel.value.index else 0));
  }

  // ---- Build, then receive ----

  /** What the receiver should learn from a request, on the channel it filed the packet under. */
  function Expected(req: TxRequest, h: PacketHeader, rx: Device): DecodedPayload {
    DecodedPayload(req.portnum, req.wantResponse, req.requestId, req.replyId, req.emoji, req.payload,
                   match RxChannel(h, rx) case Some(c) => c.index case None => 0)
  }

  /** The receiver's first active channel with the frame's hash uses the sender's key. */
  predicate SameChannelKey(tx: Device, req: TxRequest, h: PacketHeader, rx: Device) {
    match (SendChannel(tx, req), RxChannel(h, rx))
    case (Some(a), Some(b)) =>
      a.IsEncrypted() == b.IsEncrypted() && (a.IsEncrypted() ==> CopyPsk(a.EffectivePsk()) == CopyPsk(b.EffectivePsk()))
    case (Some(a), None) => !a.IsEncrypted()
    case (None, Some(b)) => !b.IsEncrypted()
    case (None, None) => true
  }

  lemma PskPlaintextRecovered(s: Suite, tx: Device, txDb: Db, req: TxRequest, packetId: u32, rx: Device)
    requires Build(s, tx, txDb, req, packetId, None).Some?
    requires SameChannelKey(tx, req, Build(s, tx, txDb, req, packetId, None).value.hdr, rx)
    ensures var f := Build(s, tx, txDb, req, packetId, None).value;
            PskPlaintext(s, f.hdr, f.body, rx) == Some(s.encodeData(DataOf(tx, req)))
  {
    var plain := s.encodeData(DataOf(tx, req));
    var channel := SendChannel(tx, req);
    if channel.Some? && channel.value.IsEncrypted() {
      CryptTwice(s, CopyPsk(channel.value.EffectivePsk()), packetId, tx.myNodeNum, plain);
    }
  }

  /** A channel-encrypted frame is understood exactly as it was sent by every receiver whose
      matching channel has the same key, even one that first mistook it for a public-key
      message; the one exception is text addressed to the receiver alone, which is dropped. */
  lemma PskBuildThenReceive(s: Suite, tx: Device, txDb: Db, req: TxRequest, packetId: u32, rx: Device, rxDb: Db,
          rxPriv: seq<u8>)
    requires Lawful(s) && Build(s, tx, txDb, req, packetId, None).Some?
    requires SameChannelKey(tx, req, Build(s, tx, txDb, req, packetId, None).value.hdr, rx)
    requires var f := Build(s, tx, txDb, req, packetId, None).value;
             PkcPlaintext(s, f.hdr, f.body, rx, rxDb, rxPriv).None?
    ensures var f := Build(s, tx, txDb, req, packetId, None).value;
            TryDecryptAndDecode(s, f.hdr, f.body, rx, rxDb, rxPriv)
            == if req.portnum == TEXT_MESSAGE_APP && req.dest == rx.myNodeNum then Drop
               else Decoded(Expected(req, f.hdr, rx))
  {
    PskPlaintextRecovered(s, tx, txDb, req, packetId, rx);
    assert s.decodeData(s.encodeData(DataOf(tx, req))) == Some(DataOf(tx, req));
  }

  /** A public-key message between two nodes holding each other's keys is understood exactly
      as it was sent, text included. */
  lemma PkcBuildThenReceive(s: Suite, tx: Device, txDb: Db, req: TxRequest, packetId: u32, keys: PkcKeys,
          rx: Device, rxDb: Db, rxPriv: seq<u8>)
    requires Lawful(s) && Build(s, tx, txDb, req, packetId, Some(keys)).Some?
    requires req.dest == rx.myNodeNum && !AllZero(rxPriv)
    requires StoredKey(txDb, rx.myNodeNum) == Some(s.publicKey(rxPriv))
    requires StoredKey(rxDb, tx.myNodeNum) == Some(s.publicKey(keys.priv))
    ensures var f := Build(s, tx, txDb, req, packetId, Some(keys)).value;
            TryDecryptAndDecode(s, f.hdr, f.body, rx, rxDb, rxPriv) == Decoded(Expected(req, f.hdr, rx))
  {
    var plain := s.encodeData(DataOf(tx, req));
    var key := SharedKey(s, keys.priv, s.publicKey(rxPriv));
    BothEndsDeriveTheSameKey(s, keys.priv, rxPriv);
    OpenUndoesSeal(s, key, packetId, tx.myNodeNum, keys.extraNonce, plain);
    assert s.decodeData(plain) == Some(DataOf(tx, req));
    assert DataOf(tx, req).bitfield.Some? && plain != [];
  }

  // ---- Which direct messages are authenticated ----

  /** The packet opened under the key we hold for its sender. */
  predicate OpenedUnderSendersKey(s: Suite, h: PacketHeader, raw: seq<u8>, dev: Device, db: Db, priv: seq<u8>) {
    && StoredKey(db, h.sender).Some? && !AllZero(priv) && h.channelIndex == 0
    && OpenPkc(s, SharedKey(s, priv, StoredKey(db, h.sender).value), h.packetId, h.sender, raw).Some?
  }

  predicate AcceptedAs(s: Suite, h: PacketHeader, raw: seq<u8>, dev: Device, db: Db, priv: seq<u8>, portnum: i32) {
    var r := TryDecryptAndDecode(s, h, raw, dev, db, priv);
    h.destination == dev.myNodeNum && r.Decoded? && r.d.portnum == portnum
  }

  /** Whatever arrives, a message of this port addressed to us alone is accepted only if it opened
      under its sender's key. */
  ghost predicate AlwaysAuthenticated(s: Suite, dev: Device, db: Db, priv: seq<u8>, portnum: i32) {
    forall h, raw :: HEADER_SIZE + |raw| <= MAX_LORA_PAYLOAD_LEN && AcceptedAs(s, h, raw, dev, db, priv, portnum) ==>
      OpenedUnderSendersKey(s, h, raw, dev, db, priv)
  }

  function Bare(portnum: i32): Data { Data(portnum, [], false, 0, 0, 0, None) }

  /** On every node, plain text is the one port whose direct messages are always authenticated. */
  lemma OnlyPlainTextIsAlwaysAuthenticated(s: Suite, dev: Device, db: Db, priv: seq<u8>, portnum: i32)
    requires Lawful(s) && HEADER_SIZE + |s.encodeData(Bare(portnum))| <= MAX_LORA_PAYLOAD_LEN
    ensures AlwaysAuthenticated(s, dev, db, priv, portnum) <==> portnum == TEXT_MESSAGE_APP
  {
    hide OpenPkc, SharedKey, RxChannel;
    if portnum != TEXT_MESSAGE_APP {
      var hash := UnusedHash(dev.channels, dev.PresetName());
      var h := PacketHeader(dev.myNodeNum, 0, 0, 0, hash, 0, 0);
      NoChannelForUnusedHash(dev, h);
      assert s.decodeData(s.encodeData(Bare(portnum))) == Some(Bare(portnum));
      assert AcceptedAs(s, h, s.encodeData(Bare(portnum)), dev, db, priv, portnum);
    }
  }

  predicate HashIsUsed(s: seq<Option<ChannelConfig>>, presetName: seq<u8>, hash: u8) {
    exists i :: 0 <= i < |s| && s[i].Some? && s[i].value.Hash(presetName) == hash
  }

  /** Eight channels cannot use up nine hashes. */
  lemma UnusedHash(s: ChannelSlots, presetName: seq<u8>) returns (hash: u8)
    ensures 1 <= hash <= 9 && !HashIsUsed(s, presetName, hash)
  {
    hash := UnusedAmong(s, presetName, {1, 2, 3, 4, 5, 6, 7, 8, 9});
  }

  lemma {:induction false} UnusedAmong(s: seq<Option<ChannelConfig>>, presetName: seq<u8>, hashes: set<u8>)
    returns (hash: u8)
    requires |hashes| > |s|
    ensures hash in hashes && !HashIsUsed(s, presetName, hash)
  {
    if s == [] {
      hash :| hash in hashes;
    } else {
      var rest := if s[0].Some? then hashes - {s[0].value.Hash(presetName)} else hashes;
      hash := UnusedAmong(s[1..], presetName, rest);
      forall i | 0 <= i < |s| && s[i].Some?
        ensures s[i].value.Hash(presetName) != hash
      {
        assert i > 0 ==> s[i] == s[1..][i - 1];
      }
    }
  }

  lemma NoChannelForUnusedHash(dev: Device, h: PacketHeader)
    requires !HashIsUsed(dev.channels, dev.PresetName(), h.channelIndex)
    ensures RxChannel(h, dev).None?
  {}

  /** In particular compressed text, which is stored and shown like any other text, is accepted from
      whoever shares a channel key. */
  lemma CompressedTextIsAcceptedUnderAChannelKey(s: Suite, tx: Device, txDb: Db, req: TxRequest, packetId: u32,
          rx: Device, rxDb: Db, rxPriv: seq<u8>)
    requires Lawful(s) && Build(s, tx, txDb, req, packetId, None).Some?
    requires req.portnum == TEXT_MESSAGE_COMPRESSED_APP && req.dest == rx.myNodeNum
    requires var h := Build(s, tx, txDb, req, packetId, None).value.hdr;
             h.channelIndex != 0 && SameChannelKey(tx, req, h, rx)
    ensures var f := Build(s, tx, txDb, req, packetId, None).value;
            && AcceptedAs(s, f.hdr, f.body, rx, rxDb, rxPriv, TEXT_MESSAGE_COMPRESSED_APP)
            && !OpenedUnderSendersKey(s, f.hdr, f.body, rx, rxDb, rxPriv)
  {
    hide SameChannelKey, OpenPkc, SharedKey, RxChannel, EncryptedBody;
    var f := Build(s, tx, txDb, req, packetId, None).value;
    PskBuildThenReceive(s, tx, txDb, req, packetId, rx, rxDb, rxPriv);
  }

  /** An unknown key is reported if and only if the packet has hash 0 and is for us alone, we hold no
      key of its sender's that could be tried, and read by the channel it is no message either. */
  lemma UnknownKeyIsReportedIff(s: Suite, h: PacketHeader, raw: seq<u8>, dev: Device, db: Db, priv: seq<u8>)
    ensures TryDecryptAndDecode(s, h, raw, dev, db, priv).PkiUnknownPubkey? <==>
              && h.channelIndex == 0 && h.destination == dev.myNodeNum
              && (|raw| <= PKC_OVERHEAD || AllZero(priv) || StoredKey(db, h.sender).None?)
              && DecodePskFrame(s, Framed(h, raw), dev).None?
  {
    hide PskPlaintext, RxChannel, OpenPkc;
  }
}
