/** What a success report says: that a routing message named the packet, and no more. */
module Delivery {
  import opened Bytes
  import opened Vecs
  import opened Packet
  import opened Channels
  import opened Device
  import opened NodeDb
  import opened Crypto
  import opened Tx
  import opened Receive
  import opened Router
  import opened Retransmit
  import opened Mesh
  import opened Processing
  import opened Retries
  import opened Reports
  import MessageRing

  predicate Awaited(n: Node, id: u32) { exists e :: e in n.pending && e.packetId == id }

  predicate NamesATrackedPacket(env: Env, n: Node, payload: seq<u8>, id: u32) {
    env.routingDecodes(payload) && id != 0 && Awaited(n, id)
  }

  function Success(named: bool, id: u32): seq<Report> { if named then [Report(id, NoError)] else [] }

  function VerdictOf(n: Node, h: PacketHeader): FilterResult {
    var key := Key(h.sender, h.packetId);
    Filter(n.recent, n.dev.LastByte(), n.dev.role, key, h.HopLimit(), h.relayNode, PendingHopLimit(n.relays, key)).0
  }

  /** The reception is a new routing message that decodes and names a packet we track: whoever sent
      it, and whatever it says. */
  predicate NamesOurs(env: Env, n: Node, ev: RxEvent) {
    && ev.frame.Framed? && ev.frame.hdr.sender != n.dev.myNodeNum
    && var outcome := OutcomeOf(env, n, ev.frame);
       outcome.Decoded? && outcome.d.portnum == ROUTING_APP && VerdictOf(n, ev.frame.hdr).New?
       && NamesATrackedPacket(env, n, outcome.d.payload, outcome.d.requestId)
  }

  function IdNamed(env: Env, n: Node, ev: RxEvent): u32 {
    if ev.frame.Framed? && OutcomeOf(env, n, ev.frame).Decoded? then OutcomeOf(env, n, ev.frame).d.requestId else 0
  }

  lemma RoutingTells(env: Env, n: Node, log: seq<Line>, p: Inbound)
    requires AllHold(log, n.pending)
    ensures ReportsIn(HandleRouting(env, n, p).1.ble)
         == Success(NamesATrackedPacket(env, n, p.payload, p.requestId), p.requestId)
  {
    hide LearnRoute, TrackedFrame;
    var i := Position(n.pending, (e: PendingPacket) => e.packetId == p.requestId);
    var out := HandleRouting(env, n, p).1;
    if env.routingDecodes(p.payload) && p.requestId != 0 && i < |n.pending| {
      var e := n.pending[i];
      assert HoldsPacket(log, e) && e in n.pending;
      var m := SendBleResult(n.dev, e.bleNotify.value, e.packetId, NoError).1;
      assert out.ble == [m];
      assert ReportsIn([m]) == ReportIn(m) + ReportsIn([]) == [Report(e.packetId, NoError)];
    }
  }

  lemma HandlersTell(env: Env, n: Node, log: seq<Line>, ev: RxEvent, p: Inbound, portnum: i32)
    requires AllHold(log, n.pending) && SilentHandlers(env)
    ensures ReportsIn(RunHandler(env, n, ev, p, portnum).1.ble)
         == Success(portnum == ROUTING_APP && NamesATrackedPacket(env, n, p.payload, p.requestId), p.requestId)
  {
    hide SendAll, HandleRouting, AllHold;
    if portnum == ROUTING_APP {
      RoutingTells(env, n, log, p);
    } else {
      SilenceReportsNothing(RunHandler(env, n, ev, p, portnum).1.ble);
    }
  }

  lemma LocalProcessingTells(env: Env, n: Node, log: seq<Line>, ev: RxEvent, h: PacketHeader, d: DecodedPayload)
    requires AllHold(log, n.pending) && SilentHandlers(env)
    ensures ReportsIn(ProcessLocally(env, n, ev, h, d).1.ble)
         == Success(d.portnum == ROUTING_APP && NamesATrackedPacket(env, n, d.payload, d.requestId), d.requestId)
  {
    hide ProcessLocally, RunHandler, HandlerInput, AllHold, ReportsIn;
    OnlyTheHandlerLogs(env, n, ev, h, d);
    OnlyTheHandlerReports(env, n, ev, h, d);
    var (x, p) := HandlerInput(env, n, ev, h, d);
    HandlersTell(env, x, log, ev, p, d.portnum);
  }

  /** On every reception the phone is told of a success if and only if the frame is a new routing
      message that decodes and names a tracked packet, and then of exactly that packet. */
  lemma SuccessIsReportedIff(env: Env, n: Node, log: seq<Line>, ev: RxEvent)
    requires AllHold(log, n.pending) && SilentHandlers(env)
    ensures ReportsIn(Dispatch(env, n, ev).1.ble) == Success(NamesOurs(env, n, ev), IdNamed(env, n, ev))
  {
    hide OutcomeOf, ProcessLocally, MaybeRelayOpaque, SendNodeInfo, Send, AllHold, ReportsIn, Filter, PendingHopLimit,
      UpgradeRelay, RelayDecision;
    var out := Dispatch(env, n, ev).1;
    if ev.frame.Framed? && ev.frame.hdr.sender != n.dev.myNodeNum {
      var h, outcome := ev.frame.hdr, OutcomeOf(env, n, ev.frame);
      if outcome.Decoded? && VerdictOf(n, h).New? {
        var key := Key(h.sender, h.packetId);
        var n0 := n.(recent := Filter(n.recent, n.dev.LastByte(), n.dev.role, key, h.HopLimit(), h.relayNode,
                                      PendingHopLimit(n.relays, key)).1);
        LocalProcessingTells(env, n0, log, ev, h, outcome.d);
        RelayingTellsNothing(ProcessLocally(env, n0, ev, h, outcome.d).0, ev, h);
        assert out.ble == ProcessLocally(env, n0, ev, h, outcome.d).1.ble;
        return;
      }
      OpaqueTellsNothing(n, ev, h);
    }
    SilenceReportsNothing(out.ble);
  }

  lemma RelayingTellsNothing(n: Node, ev: RxEvent, h: PacketHeader)
    ensures RelayDecision(n, ev, h).1.ble == []
  {}

  // ---- Success and acceptance ----

  predicate TellsSuccess(env: Env, n: Node, ev: RxEvent) {
    Report(IdNamed(env, n, ev), NoError) in ReportsIn(Dispatch(env, n, ev).1.ble)
  }

  /** What the node made of the reception is a message whose payload `accepts`. */
  predicate SaysYes(env: Env, n: Node, ev: RxEvent, accepts: seq<u8> -> bool) {
    ev.frame.Framed? && OutcomeOf(env, n, ev.frame).Decoded? && accepts(OutcomeOf(env, n, ev.frame).d.payload)
  }

  /** Whenever a reception makes a node tell its phone of a success, the packet was accepted. */
  ghost predicate SuccessMeansAcceptance(env: Env, accepts: seq<u8> -> bool) {
    forall n: Node, log, ev: RxEvent ::
      ev.frame.Valid() && AllHold(log, n.pending) && TellsSuccess(env, n, ev) ==> SaysYes(env, n, ev, accepts)
  }

  /** The bytes, short enough for one frame, decode to a routing message that answers a packet. */
  predicate IsAnswer(env: Env, b: seq<u8>) {
    && HEADER_SIZE + |b| <= MAX_LORA_PAYLOAD_LEN
    && var m := env.suite.decodeData(b);
       m.Some? && m.value.portnum == ROUTING_APP && m.value.requestId != 0 && env.routingDecodes(m.value.payload)
  }

  ghost predicate EveryAnswerAccepts(env: Env, accepts: seq<u8> -> bool) {
    forall b :: IsAnswer(env, b) ==> accepts(env.suite.decodeData(b).value.payload)
  }

  /** A success means acceptance if and only if there is no answer that refuses: that a message
      answers is all that is asked of it. */
  lemma SuccessMeansAcceptanceIff(env: Env, accepts: seq<u8> -> bool)
    requires Lawful(env.suite) && SilentHandlers(env)
    ensures SuccessMeansAcceptance(env, accepts) <==> EveryAnswerAccepts(env, accepts)
  {
    hide ReportsIn, Dispatch, AllHold, OutcomeOf, VerdictOf, NamesATrackedPacket, Waiting, Since, Heard;
    if EveryAnswerAccepts(env, accepts) {
      forall n: Node, log, ev: RxEvent | ev.frame.Valid() && AllHold(log, n.pending) && TellsSuccess(env, n, ev)
        ensures SaysYes(env, n, ev, accepts)
      {
        SuccessIsReportedIff(env, n, log, ev);
        var b := AnswerBehind(env, n, ev);
      }
    }
    if SuccessMeansAcceptance(env, accepts) {
      forall b | IsAnswer(env, b)
        ensures accepts(env.suite.decodeData(b).value.payload)
      {
        AnyAnswerIsASuccess(env, b);
        var n, ev := Waiting(env.suite.decodeData(b).value.requestId), Heard(b);
        assert AllHold(Since(env.suite.decodeData(b).value.requestId), n.pending) && TellsSuccess(env, n, ev);
        assert SaysYes(env, n, ev, accepts);
      }
    }
  }

  /** Every message that counts was decoded from bytes that fit a frame. */
  lemma AnswerBehind(env: Env, n: Node, ev: RxEvent) returns (b: seq<u8>)
    requires Lawful(env.suite) && ev.frame.Valid() && NamesOurs(env, n, ev)
    ensures IsAnswer(env, b) && env.suite.decodeData(b).value.payload == OutcomeOf(env, n, ev.frame).d.payload
  {
    hide RxChannel, Filter, PendingHopLimit, SharedKey, StoredKey, Masked, PkcNonce, FromLE32;
    var h, raw := ev.frame.hdr, ev.frame.body;
    var pkc := PkcPlaintext(env.suite, h, raw, n.dev, n.db, n.priv);
    b := if pkc.Some? then pkc.value else PskPlaintext(env.suite, h, raw, n.dev).value;
  }

  /** A node that awaits packet `id` from node 9, and has no channel. */
  function Waiting(id: u32): Node {
    var f := FirstSent(id);
    Node(NewDevice([0, 0, 0, 0, 0, 0]).(myNodeNum := 1, channels := NoChannels()), Db([], 1, false), [], [], [],
         [PendingPacket(f, id, 9, 1, 0, 3, true, Some(1), 0)], [], [], true, None, 1, [])
  }

  function FirstSent(id: u32): RadioFrame { Framed(PacketHeader(9, 1, id, 0, 0, 0, 0), []) }

  function Since(id: u32): seq<Line> { [Tracking(0, FirstSent(id))] }

  /** A broadcast of node 2 carrying `b` in the clear. */
  function Heard(b: seq<u8>): RxEvent {
    RxEvent(Framed(PacketHeader(BROADCAST_ADDR, 2, 1, 0, 5, 0, 0), b), 0, 0, 0, 0, true, true, 0,
            MessageRing.WriteOutcome(true, true))
  }

  lemma AnyAnswerIsASuccess(env: Env, b: seq<u8>)
    requires SilentHandlers(env) && IsAnswer(env, b)
    ensures var m := env.suite.decodeData(b).value;
            var n := Waiting(m.requestId);
            && Heard(b).frame.Valid() && AllHold(Since(m.requestId), n.pending)
            && TellsSuccess(env, n, Heard(b))
            && OutcomeOf(env, n, Heard(b).frame).Decoded? && OutcomeOf(env, n, Heard(b).frame).d.payload == m.payload
  {
    hide Dispatch, ReportsIn, NewDevice, TryDecryptAndDecode;
    var m := env.suite.decodeData(b).value;
    var n, ev := Waiting(m.requestId), Heard(b);
    var log := Since(m.requestId);
    assert TracksSerial(0)(log[0]) && TrackedFrame(log, 0) == Some(n.pending[0].frame);
    HeardIsRead(env, n, b);
    assert n.pending[0] in n.pending;
    SuccessIsReportedIff(env, n, log, ev);
  }

  lemma HeardIsRead(env: Env, n: Node, b: seq<u8>)
    requires IsAnswer(env, b) && n.dev.channels == NoChannels()
    ensures var m := env.suite.decodeData(b).value;
            OutcomeOf(env, n, Heard(b).frame)
            == Decoded(DecodedPayload(m.portnum, m.wantResponse, m.requestId, m.replyId, m.emoji, m.payload, 0))
  {
    hide RxChannel;
    WaitingHasNoChannel(n.dev, Heard(b).frame.hdr);
  }

  lemma WaitingHasNoChannel(dev: Device, h: PacketHeader)
    requires dev.channels == NoChannels()
    ensures RxChannel(h, dev) == None
  {
    var r := RxChannel(h, dev);
    assert r.Some? ==> r in NoChannels();
  }

  // ---- A refusal told as a success ----

  /** `b` could not read what `a` sent it and says so. What `a` tells its phone is success. */
  lemma ARefusalIsToldAsSuccess(env: Env, log: seq<Line>, a: Node, b: Node, ev: RxEvent, rx: RxEvent)
    requires Lawful(env.suite) && SilentHandlers(env) && env.routingDecodes(env.errorPayload(PkiUnknownKey))
    requires ev.frame.Framed? && ev.frame.hdr.sender == a.dev.myNodeNum != b.dev.myNodeNum
    requires ev.frame.hdr.WantAck() && OutcomeOf(env, b, ev.frame).PkiUnknownPubkey?
    requires AllHold(log, a.pending) && ev.frame.hdr.packetId != 0 && Awaited(a, ev.frame.hdr.packetId)
    requires Refusal(env, b, ev.frame.hdr).Some? && rx.frame == Refusal(env, b, ev.frame.hdr).value
    requires SameChannelKey(b.dev, UnknownKeyReport(env, ev.frame.hdr), rx.frame.hdr, a.dev)
    requires PkcPlaintext(env.suite, rx.frame.hdr, rx.frame.body, a.dev, a.db, a.priv).None?
    requires VerdictOf(a, rx.frame.hdr).New?
    ensures rx.frame in Dispatch(env, b, ev).1.lora
    ensures ReportsIn(Dispatch(env, a, rx).1.ble) == [Report(ev.frame.hdr.packetId, NoError)]
  {
    hide EncryptedBody, OriginHeader, ReportsIn, VerdictOf, SameChannelKey, PkcPlaintext, PskPlaintext, AllHold,
      TryDecryptAndDecode, SendNodeInfo;
    assert rx.frame in Dispatch(env, b, ev).1.lora;
    RefusalIsRead(env, a, b, ev.frame.hdr, rx.frame);
    SuccessIsReportedIff(env, a, log, rx);
  }

  /** The frame in which `b` reports an unknown key. */
  function Refusal(env: Env, b: Node, h: PacketHeader): Option<RadioFrame> {
    var dev := b.dev.AfterPacketId();
    Build(env.suite, dev, b.db, UnknownKeyReport(env, h), dev.nextPacketId, None)
  }

  lemma RefusalIsRead(env: Env, a: Node, b: Node, h: PacketHeader, f: RadioFrame)
    requires Lawful(env.suite) && Refusal(env, b, h) == Some(f) && f.Framed?
    requires SameChannelKey(b.dev, UnknownKeyReport(env, h), f.hdr, a.dev)
    requires PkcPlaintext(env.suite, f.hdr, f.body, a.dev, a.db, a.priv).None?
    ensures f.hdr.sender == b.dev.myNodeNum
    ensures OutcomeOf(env, a, f) == Decoded(Expected(UnknownKeyReport(env, h), f.hdr, a.dev))
  {
    hide EncryptedBody, PkcPlaintext, PskPlaintext, TryDecryptAndDecode, RxChannel, SendChannel;
    var req, dev := UnknownKeyReport(env, h), b.dev.AfterPacketId();
    BuiltFramesStartFresh(env.suite, dev, b.db, req, dev.nextPacketId, None);
    assert SendChannel(dev, req) == SendChannel(b.dev, req) by { SameChannels(dev, b.dev, req); }
    PskBuildThenReceive(env.suite, dev, b.db, req, dev.nextPacketId, a.dev, a.db, a.priv);
  }

  lemma SameChannels(x: Device, y: Device, req: TxRequest)
    requires x.channels == y.channels
    ensures SendChannel(x, req) == SendChannel(y, req)
  {}
}
