/** What becomes of a packet the phone asks to have sealed for one recipient. */
module PhoneRule {
  import opened Bytes
  import opened Packet
  import opened Device
  import opened NodeDb
  import opened Crypto
  import opened Tx
  import opened Mesh

  /** The recipient's key on file, unless the phone names another one. */
  function AgreedKey(n: Node, pkt: PhonePacket): Option<seq<u8>> {
    var stored := StoredKey(n.db, pkt.to);
    if stored.Some? && |pkt.publicKey| == 32 && stored.value != pkt.publicKey then None else stored
  }

  /** When sealing is possible: a port number that allows it, one recipient, an agreed key for it
      and a key pair of our own. */
  predicate CanSeal(n: Node, pkt: PhonePacket) {
    && PortnumAllowsPkc(pkt.portnum) && pkt.to != BROADCAST_ADDR && pkt.to != 0
    && AgreedKey(n, pkt).Some? && !AllZero(n.priv)
  }

  function PlainOf(env: Env, n: Node, pkt: PhonePacket): seq<u8> {
    env.suite.encodeData(DataOf(n.dev, PhoneRequest(pkt)))
  }

  predicate FitsSealed(env: Env, n: Node, pkt: PhonePacket) {
    HEADER_SIZE + |PlainOf(env, n, pkt)| + PKC_OVERHEAD <= MAX_LORA_PAYLOAD_LEN
  }

  /** `f` is addressed to the recipient, marked as public-key encrypted, and opens under the key
      agreed with the recipient to exactly what the phone handed over. */
  predicate SealedFor(env: Env, n: Node, pkt: PhonePacket, f: RadioFrame)
    requires AgreedKey(n, pkt).Some?
  {
    && f.Framed? && f.hdr.destination == pkt.to && f.hdr.channelIndex == 0
    && OpenPkc(env.suite, SharedKey(env.suite, n.priv, AgreedKey(n, pkt).value), f.hdr.packetId, f.hdr.sender, f.body)
       == Some(PlainOf(env, n, pkt))
  }

  lemma SealingChosenIff(n: Node, pkt: PhonePacket)
    requires pkt.channel == PKC_CHANNEL_INDEX
    ensures ChooseKey(n, pkt).UsePkc? <==> CanSeal(n, pkt)
    ensures ChooseKey(n, pkt).UsePkc? || ChooseKey(n, pkt).Refuse?
  {}

  lemma SealedBuild(env: Env, n: Node, pkt: PhonePacket, packetId: u32, extraNonce: u32)
    requires Lawful(env.suite) && CanSeal(n, pkt)
    ensures var f := Build(env.suite, n.dev, n.db, PhoneRequest(pkt), packetId, Some(PkcKeys(n.priv, extraNonce)));
            (f.Some? <==> FitsSealed(env, n, pkt)) && (f.Some? ==> SealedFor(env, n, pkt, f.value))
  {
    hide PhoneRequest, DataOf;
    var key := SharedKey(env.suite, n.priv, AgreedKey(n, pkt).value);
    OpenUndoesSeal(env.suite, key, packetId, n.dev.myNodeNum, extraNonce, PlainOf(env, n, pkt));
    assert PhoneRequest(pkt).dest == pkt.to by {
      RequestIsForTheRecipient(pkt);
    }
  }

  lemma RequestIsForTheRecipient(pkt: PhonePacket)
    ensures PhoneRequest(pkt).dest == pkt.to
  {}

  /** A packet the phone wants sealed is sent if and only if it can be sealed and fits, and what
      is then sent is sealed for its recipient: it never goes out under a channel key. */
  lemma SealedRequestsAreNeverDowngraded(env: Env, n: Node, pkt: PhonePacket, now: nat, extraNonce: u32)
    requires Lawful(env.suite) && !HandledLocally(n, pkt) && pkt.channel == PKC_CHANNEL_INDEX
    ensures var lora := TransmitFromPhone(env, n, pkt, now, extraNonce).1.lora;
            && (lora != [] <==> CanSeal(n, pkt) && FitsSealed(env, n, pkt))
            && (lora != [] ==> |lora| == 1 && SealedFor(env, n, pkt, lora[0]))
  {
    hide Build, ChooseKey, SealedFor, FitsSealed, AgreedKey, SendBleResult, PhoneRequest, Lawful;
    var (dev, packetId) := if pkt.id != 0 then (n.dev, pkt.id) else TakeId(n.dev);
    var n1 := n.(dev := dev);
    SealingChosenIff(n1, pkt);
    CountersDoNotMatter(env, n, n1, pkt);
    if CanSeal(n, pkt) {
      SealedBuild(env, n1, pkt, packetId, extraNonce);
      var f := Build(env.suite, n1.dev, n1.db, PhoneRequest(pkt), packetId, Some(PkcKeys(n1.priv, extraNonce)));
      if f.Some? {
        SealedAlike(env, n, n1, pkt, f.value);
        assert TransmitFromPhone(env, n, pkt, now, extraNonce).1.lora == [f.value];
      }
    }
  }

  /** The packet counter plays no part in whether or how a packet is sealed. */
  lemma CountersDoNotMatter(env: Env, n: Node, m: Node, pkt: PhonePacket)
    requires m == n.(dev := m.dev) && (m.dev == n.dev || m.dev == n.dev.AfterPacketId())
    ensures CanSeal(m, pkt) == CanSeal(n, pkt) && FitsSealed(env, m, pkt) == FitsSealed(env, n, pkt)
    ensures AgreedKey(m, pkt) == AgreedKey(n, pkt)
  {
    hide PhoneRequest;
    assert DataOf(m.dev, PhoneRequest(pkt)) == DataOf(n.dev, PhoneRequest(pkt));
  }

  lemma SealedAlike(env: Env, n: Node, m: Node, pkt: PhonePacket, f: RadioFrame)
    requires m == n.(dev := m.dev) && (m.dev == n.dev || m.dev == n.dev.AfterPacketId())
    requires AgreedKey(n, pkt).Some? && AgreedKey(m, pkt) == AgreedKey(n, pkt) && SealedFor(env, m, pkt, f)
    ensures SealedFor(env, n, pkt, f)
  {
    hide PhoneRequest, OpenPkc;
    assert DataOf(m.dev, PhoneRequest(pkt)) == DataOf(n.dev, PhoneRequest(pkt));
  }
}
