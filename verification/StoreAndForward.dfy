/** Text for an absent phone, from its reception to its replay. */
module StoreAndForward {
  import opened Bytes
  import opened Vecs
  import opened Rings
  import opened Packet
  import opened Channels
  import opened Device
  import opened NodeDb
  import opened Crypto
  import opened Tx
  import opened Receive
  import opened Router
  import opened Retransmit
  import opened Mesh
  import opened Processing
  import opened Delivery
  import MessageRing

  const ROOM: nat := MessageRing.MAX_BUFFERED_MESSAGES

  predicate IsText(d: DecodedPayload) { d.portnum == TEXT_MESSAGE_APP || d.portnum == TEXT_MESSAGE_COMPRESSED_APP }

  /** The frame an event has the node keep for the phone: new text that arrives while it is away. */
  function Kept(env: Env, n: Node, e: Event): seq<RadioFrame> {
    if e.Rx? && e.ev.frame.Framed? && e.ev.frame.hdr.sender != n.dev.myNodeNum && !n.bleConnected
       && OutcomeOf(env, n, e.ev.frame).Decoded? && IsText(OutcomeOf(env, n, e.ev.frame).d)
       && VerdictOf(n, e.ev.frame.hdr).New?
    then [e.ev.frame] else []
  }

  /** The frames kept over a run, in order. */
  function KeptOver(env: Env, n: Node, es: seq<Event>): seq<RadioFrame> {
    if es == [] then []
    else
      var init := es[..|es| - 1];
      KeptOver(env, n, init) + Kept(env, Run(env, n, init).0, es[|es| - 1])
  }

  function Intact(fs: seq<RadioFrame>): (w: seq<Option<RadioFrame>>)
    ensures |w| == |fs| && forall k :: 0 <= k < |fs| ==> w[k] == Some(fs[k])
  {
    seq(|fs|, k requires 0 <= k < |fs| => Some(fs[k]))
  }

  // ---- Storing ----

  lemma ProcessingStores(env: Env, n: Node, ev: RxEvent, h: PacketHeader, d: DecodedPayload)
    ensures ProcessLocally(env, n, ev, h, d).0.stored == StoreText(n, ev, d).stored
  {
    hide ProcessLocally, SendNodeInfo, Touch, Amend, Get, LearnRoute, SendAll, WithHops, HopsAway, PushBounded;
    OnlyTheHandlerLogs(env, n, ev, h, d);
  }

  lemma RelayingStoresNothing(n: Node, ev: RxEvent, h: PacketHeader)
    ensures RelayDecision(n, ev, h).0.stored == n.stored && MaybeRelayOpaque(n, ev, h).0.stored == n.stored
  {
    hide ScheduleRelay, RelayOpaque;
  }

  lemma DispatchStores(env: Env, n: Node, ev: RxEvent)
    ensures Dispatch(env, n, ev).0.stored
         == if Kept(env, n, Rx(ev)) == [] then n.stored else PushBounded(n.stored, Some(ev.frame), ROOM)
  {
    hide OutcomeOf, ProcessLocally, RelayDecision, MaybeRelayOpaque, SendNodeInfo, Send, Filter, PendingHopLimit,
      UpgradeRelay, PushBounded;
    if ev.frame.Framed? && ev.frame.hdr.sender != n.dev.myNodeNum {
      var h, outcome := ev.frame.hdr, OutcomeOf(env, n, ev.frame);
      RelayingStoresNothing(n, ev, h);
      if outcome.Decoded? && VerdictOf(n, h).New? {
        var key := Key(h.sender, h.packetId);
        var n0 := n.(recent := Filter(n.recent, n.dev.LastByte(), n.dev.role, key, h.HopLimit(), h.relayNode,
                                      PendingHopLimit(n.relays, key)).1);
        ProcessingStores(env, n0, ev, h, outcome.d);
        RelayingStoresNothing(ProcessLocally(env, n0, ev, h, outcome.d).0, ev, h);
      }
    }
  }

  lemma KeptIgnoresDeadlines(env: Env, n: Node, ev: RxEvent, p: seq<PendingPacket>)
    ensures Kept(env, n.(pending := p), Rx(ev)) == Kept(env, n, Rx(ev))
  {
    hide TryDecryptAndDecode, Filter, PendingHopLimit;
  }

  lemma StepStores(env: Env, n: Node, e: Event)
    requires !e.WantConfig?
    ensures Step(env, n, e).0.stored
         == if Kept(env, n, e) == [] then n.stored else PushBounded(n.stored, Some(Kept(env, n, e)[0]), ROOM)
  {
    hide Dispatch, TransmitFromPhone, SendAll, TickFrom, ReportGiveUps, PushBounded, OutcomeOf, VerdictOf;
    match e
    case Rx(ev) =>
      var waiting := ExtendDeadlines(n.pending, RETX_AIRTIME_EXTENSION_MS);
      DispatchStores(env, n.(pending := waiting), ev);
      KeptIgnoresDeadlines(env, n, ev, waiting);
    case Phone(pkt, at, extraNonce) => PhoneStoresNothing(env, n, pkt, at, extraNonce);
    case _ =>
  }

  lemma PhoneStoresNothing(env: Env, n: Node, pkt: PhonePacket, at: nat, extraNonce: u32)
    ensures TransmitFromPhone(env, n, pkt, at, extraNonce).0.stored == n.stored
  {
    hide Build, ChooseKey, SendAll, PhoneRequest, SendBleResult;
  }

  /** Until the phone asks for its configuration the node holds the last ten of the frames kept. */
  lemma {:induction false} RunStores(env: Env, n: Node, es: seq<Event>)
    requires n.stored == [] && forall e :: e in es ==> !e.WantConfig?
    ensures Run(env, n, es).0.stored == Intact(LastN(KeptOver(env, n, es), ROOM))
    decreases |es|
  {
    hide Step, Kept, LastN, PushBounded;
    if es == [] {
      LastOfNone();
    } else {
      var init, last := es[..|es| - 1], es[|es| - 1];
      assert last in es && forall e :: e in init ==> e in es;
      RunStores(env, n, init);
      var n1, kept := Run(env, n, init).0, KeptOver(env, n, init);
      StepStores(env, n1, last);
      AtMostOne(env, n1, last);
      if Kept(env, n1, last) == [] {
        assert kept + [] == kept;
      } else {
        var f := Kept(env, n1, last)[0];
        assert Kept(env, n1, last) == [f];
        PushIntact(kept, f);
      }
    }
  }

  lemma LastOfNone()
    ensures Intact(LastN([], ROOM)) == []
  {}

  lemma AtMostOne(env: Env, n: Node, e: Event)
    ensures |Kept(env, n, e)| <= 1
  {
    hide OutcomeOf, VerdictOf;
  }

  lemma PushIntact(kept: seq<RadioFrame>, f: RadioFrame)
    ensures PushBounded(Intact(LastN(kept, ROOM)), Some(f), ROOM) == Intact(LastN(kept + [f], ROOM))
  {
    PushIsLastN(kept, f, ROOM);
  }

  // ---- Replaying ----

  /** The phone is sent a packet with this header. */
  predicate Shows(ble: seq<BleMsg>, h: PacketHeader) { exists m :: m in ble && m.PacketMsg? && m.h == h }

  predicate Readable(env: Env, dev: Device, f: RadioFrame, h: PacketHeader) {
    f.Framed? && f.hdr == h && DecodePskFrame(env.suite, f, dev).Some?
  }

  lemma {:induction false} ReplayShowsIff(env: Env, dev: Device, fs: seq<RadioFrame>, h: PacketHeader)
    ensures Shows(ReplayAll(env, dev, fs), h) <==> exists f :: f in fs && Readable(env, dev, f, h)
  {
    hide DecodePskFrame;
    if fs != [] {
      var init, last := fs[..|fs| - 1], fs[|fs| - 1];
      ReplayShowsIff(env, dev, init, h);
      OneShowsIff(env, dev, last, h);
      ShowsEither(ReplayAll(env, dev, init), ReplayOne(env, dev, last), h);
      assert fs == init + [last];
      assert (exists f :: f in fs && Readable(env, dev, f, h)) <==>
             (exists f :: f in init && Readable(env, dev, f, h)) || Readable(env, dev, last, h);
    }
  }

  lemma OneShowsIff(env: Env, dev: Device, f: RadioFrame, h: PacketHeader)
    ensures Shows(ReplayOne(env, dev, f), h) <==> Readable(env, dev, f, h)
  {
    hide DecodePskFrame;
    if Readable(env, dev, f, h) {
      assert ReplayOne(env, dev, f)[0] in ReplayOne(env, dev, f);
    }
  }

  lemma ShowsEither(a: seq<BleMsg>, b: seq<BleMsg>, h: PacketHeader)
    ensures Shows(a + b, h) <==> Shows(a, h) || Shows(b, h)
  {
    if Shows(a, h) {
      var m :| m in a && m.PacketMsg? && m.h == h;
      assert m in a + b;
    }
    if Shows(b, h) {
      var m :| m in b && m.PacketMsg? && m.h == h;
      assert m in a + b;
    }
  }

  lemma {:induction false} LeadingOfIntact(fs: seq<RadioFrame>)
    ensures Leading(Intact(fs)) == fs
  {
    if fs != [] {
      assert Intact(fs)[1..] == Intact(fs[1..]);
      LeadingOfIntact(fs[1..]);
    }
  }

  /** From reception to replay: whatever happens in between, the next time the phone asks for its
      configuration it is shown a packet if and only if a frame with its header is among the last ten
      kept and can be read by the channel path on the device as it is then. Either way no frame is
      left. */
  lemma TextIsShownIff(env: Env, n: Node, es: seq<Event>, config: seq<seq<u8>>,
          outcomes: seq<MessageRing.WriteOutcome>, h: PacketHeader)
    requires n.stored == [] && forall e :: e in es ==> !e.WantConfig?
    ensures var m := Run(env, n, es).0;
            var (after, out) := Step(env, m, WantConfig(config, outcomes));
            && after.stored == []
            && (Shows(out.ble, h) <==>
                  exists f :: f in LastN(KeptOver(env, n, es), ROOM) && Readable(env, m.dev, f, h))
  {
    hide Run, KeptOver, LastN, ReplayAll, Readable, Dispatch, TransmitFromPhone, SendAll, RetxTick, FireRelay;
    RunStores(env, n, es);
    var m, fs := Run(env, n, es).0, LastN(KeptOver(env, n, es), ROOM);
    LeadingOfIntact(fs);
    ReplayShowsIff(env, m.dev, fs, h);
    ShowsEither(Others(config), ReplayAll(env, m.dev, fs), h);
    assert !Shows(Others(config), h);
  }

  // ---- Sealed text ----

  /** With no channel of its hash a frame is replayed as it stands, so a sealed text is shown only if
      its very ciphertext happens to be a message. */
  lemma SealedIsReadAsItStands(s: Suite, f: RadioFrame, dev: Device)
    requires f.Framed? && f.Valid() && RxChannel(f.hdr, dev).None?
    ensures DecodePskFrame(s, f, dev).Some? <==> s.decodeData(f.body).Some?
  {
    hide RxChannel;
  }

  function Next(x: u8): u8 { if x == 0xFF then 0 else x + 1 }

  function Previous(x: u8): u8 { if x == 0 then 0xFF else x - 1 }

  function Bumped(b: seq<u8>): (r: seq<u8>)
    ensures |r| == |b| && forall i :: 0 <= i < |b| ==> r[i] == Next(b[i])
  {
    seq(|b|, i requires 0 <= i < |b| => Next(b[i]))
  }

  function Unbumped(b: seq<u8>): (r: seq<u8>)
    ensures |r| == |b| && forall i :: 0 <= i < |b| ==> r[i] == Previous(b[i])
  {
    seq(|b|, i requires 0 <= i < |b| => Previous(b[i]))
  }

  /** Messages begin with a one, and what is sealed does not. */
  function MarkedSuite(): Suite {
    Suite((_, _, _) => 0,
          (_, _, p) => (Bumped(p), Zeros(PKC_TAG_LEN)),
          (_, _, c, _) => Some(Unbumped(c)),
          k => k,
          (_, _) => [],
          k => k,
          d => [1] + ToyEncode(d),
          b => if b != [] && b[0] == 1 then ToyDecode(b[1..]) else None)
  }

  lemma MarkedIsLawful()
    ensures Lawful(MarkedSuite())
  {
    var s := MarkedSuite();
    forall p: seq<u8>
      ensures Unbumped(Bumped(p)) == p
    {
    }
    forall d
      ensures s.decodeData(s.encodeData(d)) == Some(d)
    {
      assert ([1] + ToyEncode(d))[1..] == ToyEncode(d);
      ToyRoundTrip(d);
    }
  }

  /** Handlers that do nothing. */
  function IdleEnv(): Env {
    Env(MarkedSuite(), (a, _, _, _) => HandlerEffect(a, [], []), (a, _, _, _) => HandlerEffect(a, [], []), _ => false,
        _ => [], _ => [])
  }

  function KeyOf(x: u8): (k: seq<u8>)
    ensures |k| == 32 && forall i :: 0 <= i < 32 ==> k[i] == x
  {
    seq(32, _ => x)
  }

  function Numbered(num: u32): Device { NewDevice([0, 0, 0, 0, 0, 0]).(myNodeNum := num, channels := NoChannels()) }

  /** A table that holds one node with its key. */
  function Knows(our: u32, num: u32, key: seq<u8>): Db { Db([Stub(num).(pubKey := Some(key))], our, false) }

  /** Node 1, whose phone is away, and a text that node 2 seals for it. */
  function Away(): Node { Node(Numbered(1), Knows(1, 2, KeyOf(2)), [], [], [], [], [], KeyOf(1), false, None, 0, []) }

  function TextRequest(): TxRequest {
    TxRequest(1, TEXT_MESSAGE_APP, [72, 105], None, false, false, 0, 0, 0, None)
  }

  function SealedText(): Option<RadioFrame> {
    Build(MarkedSuite(), Numbered(2), Knows(2, 1, KeyOf(1)), TextRequest(), 7, Some(PkcKeys(KeyOf(2), 5)))
  }

  function Arrival(f: RadioFrame): RxEvent {
    RxEvent(f, 0, 0, 0, 0, false, false, 0, MessageRing.WriteOutcome(true, true))
  }

  lemma SealedTextIsSent()
    ensures SealedText().Some? && SealedText().value.Framed?
    ensures var f := SealedText().value;
            && f.Valid() && f.hdr.sender == 2 && !f.hdr.WantAck() && f.hdr.channelIndex == 0
            && f.body != [] && f.body[0] == 2
  {
    hide NewDevice, OriginHeader, PkcNonce, SharedKey, LE32, SignedWord;
    var plain := MarkedSuite().encodeData(DataOf(Numbered(2), TextRequest()));
    assert |plain| == 25 && Bumped(plain)[0] == 2;
    BuiltFramesStartFresh(MarkedSuite(), Numbered(2), Knows(2, 1, KeyOf(1)), TextRequest(), 7,
                          Some(PkcKeys(KeyOf(2), 5)));
  }

  lemma KeysAreKnown()
    ensures !AllZero(KeyOf(1)) && KeyOf(1) == MarkedSuite().publicKey(KeyOf(1))
    ensures StoredKey(Knows(2, 1, KeyOf(1)), 1) == Some(MarkedSuite().publicKey(KeyOf(1)))
    ensures StoredKey(Knows(1, 2, KeyOf(2)), 2) == Some(MarkedSuite().publicKey(KeyOf(2)))
  {
    assert KeyOf(1)[0] == 1;
  }

  lemma SealedTextIsRead()
    ensures SealedText().Some? && SealedText().value.Framed?
    ensures var r := OutcomeOf(IdleEnv(), Away(), SealedText().value);
            r.Decoded? && r.d.portnum == TEXT_MESSAGE_APP
  {
    hide Build, TryDecryptAndDecode, NewDevice, StoredKey, AllZero, KeyOf, Lawful, Expected;
    SealedTextIsSent();
    MarkedIsLawful();
    KeysAreKnown();
    PkcBuildThenReceive(MarkedSuite(), Numbered(2), Knows(2, 1, KeyOf(1)), TextRequest(), 7, PkcKeys(KeyOf(2), 5),
                        Numbered(1), Knows(1, 2, KeyOf(2)), KeyOf(1));
    ExpectedPort(TextRequest(), SealedText().value.hdr, Numbered(1));
  }

  lemma ExpectedPort(req: TxRequest, h: PacketHeader, rx: Device)
    ensures Expected(req, h, rx).portnum == req.portnum
  {
    hide RxChannel;
  }

  /** Without airtime to spare and with handlers that do nothing, text that wants no ACK leaves the
      device as it was. */
  lemma QuietArrival(n: Node, f: RadioFrame)
    requires f.Framed? && f.hdr.sender != n.dev.myNodeNum && !f.hdr.WantAck()
    requires OutcomeOf(IdleEnv(), n, f).Decoded? && IsText(OutcomeOf(IdleEnv(), n, f).d)
    ensures Dispatch(IdleEnv(), n, Arrival(f)).0.dev == n.dev
  {
    hide OutcomeOf, Touch, Amend, Get, Filter, PendingHopLimit, UpgradeRelay, ScheduleRelay, HopsAway, HopLimitOf,
      HopStartOf, MarkedSuite;
  }

  lemma NoChannelForIt(h: PacketHeader)
    ensures RxChannel(h, Numbered(1)).None?
  {
    WaitingHasNoChannel(Numbered(1), h);
  }

  lemma SealedTextIsKept()
    ensures SealedText().Some? && SealedText().value.Framed?
    ensures Kept(IdleEnv(), Away(), Rx(Arrival(SealedText().value))) == [SealedText().value]
  {
    hide SealedText, OutcomeOf, NewDevice, IdleEnv;
    SealedTextIsSent();
    SealedTextIsRead();
  }

  lemma UnreadableIsLost(env: Env, m: Node, f: RadioFrame, config: seq<seq<u8>>,
          outcomes: seq<MessageRing.WriteOutcome>)
    requires m.stored == [Some(f)] && DecodePskFrame(env.suite, f, m.dev).None?
    ensures var (after, out) := Step(env, m, WantConfig(config, outcomes));
            after.stored == [] && out.ble == Others(config)
  {
    hide DecodePskFrame, Dispatch, TransmitFromPhone, SendAll, RetxTick, FireRelay;
    assert Leading(m.stored[1..]) == [];
    assert Leading(m.stored) == [f];
    assert ReplayAll(env, m.dev, [f]) == ReplayAll(env, m.dev, []) + ReplayOne(env, m.dev, f);
  }

  /** What is left of node 1 once the text has come. */
  function Later(): Node { Step(IdleEnv(), Away(), Rx(Arrival(SealedText().value))).0 }

  lemma LaterHolds()
    ensures SealedText().Some? && SealedText().value.Framed?
    ensures Later().stored == [Some(SealedText().value)] && Later().dev == Numbered(1)
  {
    hide SealedText, Dispatch, OutcomeOf, NewDevice, IdleEnv, Kept;
    SealedTextIsSent();
    var f := SealedText().value;
    SealedTextIsRead();
    SealedTextIsKept();
    StepStores(IdleEnv(), Away(), Rx(Arrival(f)));
    assert Away().(pending := ExtendDeadlines(Away().pending, RETX_AIRTIME_EXTENSION_MS)) == Away();
    QuietArrival(Away(), f);
  }

  /** A text that node 1 has opened under its sender's key and kept for its phone is never shown: when
      the phone comes back the frame is taken off the ring and nothing is sent for it. */
  lemma ASealedTextIsLost(config: seq<seq<u8>>, outcomes: seq<MessageRing.WriteOutcome>)
    ensures Lawful(IdleEnv().suite) && SealedText().Some?
    ensures Kept(IdleEnv(), Away(), Rx(Arrival(SealedText().value))) == [SealedText().value]
    ensures Later().stored == [Some(SealedText().value)]
    ensures var (after, out) := Step(IdleEnv(), Later(), WantConfig(config, outcomes));
            after.stored == [] && out.ble == Others(config)
  {
    hide SealedText, Later, MarkedSuite, DecodePskFrame, Step, NewDevice, Kept;
    MarkedIsLawful();
    SealedTextIsSent();
    var f := SealedText().value;
    SealedTextIsKept();
    LaterHolds();
    NoChannelForIt(f.hdr);
    SealedIsReadAsItStands(MarkedSuite(), f, Numbered(1));
    MarkedByOne(f.body);
    UnreadableIsLost(IdleEnv(), Later(), f, config, outcomes);
  }

  lemma MarkedByOne(b: seq<u8>)
    requires b != [] && b[0] != 1
    ensures MarkedSuite().decodeData(b) == None
  {}
}
