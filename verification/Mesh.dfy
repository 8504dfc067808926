/** One node of the mesh as a state machine: what each event does to its state, what it sends
    over the air and to the phone, and what it logs. */
module Mesh {
  import opened Bytes
  import opened Vecs
  import opened Rings
  import opened Packet
  import opened Channels
  import opened Device
  import opened NodeDb
  import opened Crypto
  import opened Tx
  import opened Receive
  import opened Router
  import opened Retransmit
  import MessageRing

  const MAX_RELAYS: nat := 8
  const NODEINFO_MIN_INTERVAL_MS: nat := 300_000
  const PKC_CHANNEL_INDEX: u32 := 8

  // ---- State, inputs and outputs ----

  /** A queued relay. `taken` is how many relays its copy will have made once sent; no code
      reads it. */
  datatype Relay = Relay(frame: RadioFrame, deadline: nat, taken: nat)

  datatype RoutingError = NoError | MaxRetransmit | PkiFailed | PkiSendFailPublicKey | PkiUnknownKey

  datatype BleMsg =
    | PacketMsg(h: PacketHeader, channelIndex: u8, portnum: i32, payload: seq<u8>, replyId: u32, emoji: u32, snr: i8,
                rssi: int)
    | NodeMsg(entry: NodeEntry)
    | ResultMsg(dest: u32, id: u32, requestId: u32, error: RoutingError)
    | OtherMsg(data: seq<u8>)

  /** What the node writes to its log. An opaque packet is accepted `again` when its originator is
      retransmitting it. `Acked` is any routing message that names a tracked packet. */
  datatype Line =
    | NewPacket(key: Key)
    | OpaqueAccepted(key: Key, again: bool)
    | Scheduled(r: Relay)
    | Evicted(r: Relay)
    | Cancelled(r: Relay)
    | Relayed(r: Relay)
    | Tracking(serial: nat, frame: RadioFrame)
    | Resent(serial: nat, frame: RadioFrame)
    | Acked(serial: nat)
    | EchoHeard(serial: nat)
    | GaveUpOn(serial: nat)

  datatype Out = Out(lora: seq<RadioFrame>, ble: seq<BleMsg>, log: seq<Line>)

  const Quiet: Out := Out([], [], [])

  function Join(a: Out, b: Out): Out { Out(a.lora + b.lora, a.ble + b.ble, a.log + b.log) }

  /** State the application handlers work on; `app` is everything not modelled field by field. */
  datatype AppState = AppState(app: seq<u8>, dev: Device, db: Db, lastNodeinfoTx: Option<nat>)

  datatype Inbound = Inbound(
    sender: u32,
    packetId: u32,
    relayNode: u8,
    payload: seq<u8>,
    addressedToUs: bool,
    wantResponse: bool,
    requestId: u32,
    replyId: u32,
    emoji: u32,
    channelIdx: u8,
    snr: i8)

  datatype HandlerEffect = HandlerEffect(state: AppState, sends: seq<TxRequest>, ble: seq<BleMsg>)

  /** The primitives, and the payload-specific code left abstract. */
  datatype Env = Env(
    suite: Suite,
    handle: (AppState, i32, Inbound, u64) -> HandlerEffect,
    admin: (AppState, u32, u32, seq<u8>) -> HandlerEffect,
    routingDecodes: seq<u8> -> bool,
    errorPayload: RoutingError -> seq<u8>,
    nodeInfoPayload: Device -> seq<u8>)

  datatype Node = Node(
    dev: Device,
    db: Db,
    recent: seq<PacketRecord>,
    opaqueSeen: seq<Key>,
    relays: seq<Relay>,
    pending: seq<PendingPacket>,
    stored: seq<Option<RadioFrame>>,
    priv: seq<u8>,
    bleConnected: bool,
    lastNodeinfoTx: Option<nat>,
    nextSerial: nat,
    app: seq<u8>)

  /** A frame as the radio hands it over. `delay` is the contention delay drawn for relaying it,
      the two flags whether the airtime budget allows background and ordinary traffic, `taken` how
      many relays this copy has made, and `write` what becomes of the flash writes should the frame
      be stored. */
  datatype RxEvent = RxEvent(
    frame: RadioFrame,
    snr: i8,
    rssi: int,
    now: u64,
    delay: nat,
    politeOk: bool,
    impoliteOk: bool,
    taken: nat,
    write: MessageRing.WriteOutcome)

  // ---- Sending ----

  function TakeId(dev: Device): (Device, u32) { (dev.AfterPacketId(), dev.AfterPacketId().nextPacketId) }

  /** Take the next packet id, build, and queue the frame if building succeeds. */
  function Send(env: Env, dev: Device, db: Db, req: TxRequest): (Device, seq<RadioFrame>) {
    var d := dev.AfterPacketId();
    match Build(env.suite, d, db, req, d.nextPacketId, None)
    case Some(f) => (d, [f])
    case None => (d, [])
  }

  function SendAll(env: Env, dev: Device, db: Db, reqs: seq<TxRequest>): (Device, seq<RadioFrame>)
    decreases |reqs|
  {
    if reqs == [] then (dev, [])
    else
      var (d, f) := Send(env, dev, db, reqs[0]);
      var (d', fs) := SendAll(env, d, db, reqs[1..]);
      (d', f + fs)
  }

  function NodeInfoRequest(env: Env, dev: Device, dest: u32, wantResponse: bool): TxRequest {
    TxRequest(dest, NODEINFO_APP, env.nodeInfoPayload(dev), None, false, wantResponse, 0, 0, 0, None)
  }

  function SendNodeInfo(env: Env, dev: Device, db: Db, dest: u32, wantResponse: bool, impoliteOk: bool): (Device,
          seq<RadioFrame>) {
    if impoliteOk then Send(env, dev, db, NodeInfoRequest(env, dev, dest, wantResponse)) else (dev, [])
  }

  /** Tell the phone how one of its packets fared. */
  function SendBleResult(dev: Device, dest: u32, requestId: u32, error: RoutingError): (Device, BleMsg) {
    var d := dev.AfterPacketId();
    (d, ResultMsg(dest, d.nextPacketId, requestId, error))
  }

  // ---- The relay queue ----

  predicate Carries(f: RadioFrame, key: Key) {
    f.Framed? && f.hdr.sender == key.sender && f.hdr.packetId == key.packetId
  }

  function RelayIsFor(key: Key): Relay -> bool { (r: Relay) => Carries(r.frame, key) }

  function RelayIsNotFor(key: Key): Relay -> bool { (r: Relay) => !Carries(r.frame, key) }

  function DeadlineOf(): Relay -> nat { (r: Relay) => r.deadline }

  function PendingHopLimit(relays: seq<Relay>, key: Key): Option<u8> {
    var i := Position(relays, RelayIsFor(key));
    if i < |relays| then Some(relays[i].frame.hdr.HopLimit()) else None
  }

  /** Queue a relay, making room by dropping the one due soonest. */
  function ScheduleRelay(relays: seq<Relay>, r: Relay): (seq<Relay>, seq<Line>) {
    if |relays| < MAX_RELAYS then
      (relays + [r], [Scheduled(r)])
    else
      var i := MinBy(relays, DeadlineOf());
      (SwapRemove(relays, i) + [r], [Evicted(relays[i]), Scheduled(r)])
  }

  function UpgradeRelay(relays: seq<Relay>, key: Key, frame: RadioFrame, taken: nat): seq<Relay> {
    var i := Position(relays, RelayIsFor(key));
    if i < |relays| then relays[i := relays[i].(frame := frame, taken := taken)] else relays
  }

  function CancelledLines(rs: seq<Relay>): (l: seq<Line>)
    ensures |l| == |rs| && forall i :: 0 <= i < |l| ==> l[i] == Cancelled(rs[i])
  {
    seq(|rs|, i requires 0 <= i < |rs| => Cancelled(rs[i]))
  }

  predicate RebroadcastsForRole(role: DeviceRole) { role != ClientMute && role != ClientHidden }

  function Reschedule(n: Node, ev: RxEvent, newHop: u8): (Node, Out) {
    var r := Relay(ev.frame.Rewritten(newHop, n.dev.LastByte()), ev.now + ev.delay, ev.taken + 1);
    var (relays, log) := ScheduleRelay(n.relays, r);
    (n.(relays := relays), Quiet.(log := log))
  }

  // ---- Receiving: layers 0 and opaque relay ----

  /** Layer 0: hearing our own packet relayed is an implicit ACK that the phone is not told of. */
  function HearOwnEcho(n: Node, h: PacketHeader): (Node, Out) {
    var i := Position(n.pending, (p: PendingPacket) => p.packetId == h.packetId);
    if i < |n.pending| then
      (n.(pending := SwapRemove(n.pending, i)), Quiet.(log := [EchoHeard(n.pending[i].serial)]))
    else (n, Quiet)
  }

  /** What a sender whose key we lack is told of its packet. */
  function UnknownKeyReport(env: Env, h: PacketHeader): TxRequest {
    TxRequest(h.sender, ROUTING_APP, env.errorPayload(PkiUnknownKey), Some(0), false, false, h.packetId, 0, 0, None)
  }

  function ReportUnknownKey(env: Env, n: Node, ev: RxEvent, h: PacketHeader): (Node, Out) {
    var (d1, f1) :=
      if h.WantAck() then
        Send(env, n.dev, n.db, UnknownKeyReport(env, h))
      else (n.dev, []);
    var (d2, f2) := SendNodeInfo(env, d1, n.db, h.sender, false, ev.impoliteOk);
    (n.(dev := d2), Quiet.(lora := f1 + f2))
  }

  function MaybeRelayOpaque(n: Node, ev: RxEvent, h: PacketHeader): (Node, Out) {
    if !RebroadcastsForRole(n.dev.role) || h.HopLimit() == 0 then (n, Quiet)
    else
      var key := Key(h.sender, h.packetId);
      var (relay, seen) := RelayOpaque(n.opaqueSeen, key, h.HopStart(), h.HopLimit());
      if !relay then (n.(opaqueSeen := seen), Quiet)
      else
        var (n', out) := Reschedule(n.(opaqueSeen := seen), ev, h.HopLimit() - 1);
        (n', out.(log := [OpaqueAccepted(key, 0 < h.HopStart() == h.HopLimit())] + out.log))
  }

  // ---- Receiving: local processing of a new packet ----

  function HopsAway(h: PacketHeader): Option<u8> {
    if h.HopStart() > 0 && h.HopStart() >= h.HopLimit() then Some(h.HopStart() - h.HopLimit()) else None
  }

  function NoteSender(n: Node, ev: RxEvent, h: PacketHeader): (Node, Out) {
    var db := Amend(Touch(n.db, h.sender, 0, Some(ev.snr), ev.now), h.sender, WithHops(HopsAway(h)));
    var entry := Get(db, h.sender);
    (n.(db := db), Quiet.(ble := if Get(n.db, h.sender).None? && entry.Some? then [NodeMsg(entry.value)] else []))
  }

  function MaybeRequestNodeinfo(env: Env, n: Node, ev: RxEvent, h: PacketHeader): (Node, Out) {
    var entry := Get(n.db, h.sender);
    if entry.Some? && entry.value.user.Some? then (n, Quiet)
    else if !RoleAllowsCancel(n.dev.role) || |n.db.nodes| >= MAX_NODES then (n, Quiet)
    else if n.lastNodeinfoTx.Some? && SatSub(ev.now, n.lastNodeinfoTx.value) < NODEINFO_MIN_INTERVAL_MS then (n, Quiet)
    else if !ev.politeOk || SatSub(h.HopStart(), h.HopLimit()) > Min(n.dev.hopLimit + 2, 255) then (n, Quiet)
    else
      var (d, f) := SendNodeInfo(env, n.dev, n.db, h.sender, true, ev.impoliteOk);
      (n.(dev := d, lastNodeinfoTx := Some(ev.now)), Quiet.(lora := f))
  }

  function StoreText(n: Node, ev: RxEvent, d: DecodedPayload): Node {
    if (d.portnum == TEXT_MESSAGE_APP || d.portnum == TEXT_MESSAGE_COMPRESSED_APP) && !n.bleConnected
    then n.(stored := PushBounded(n.stored, Some(ev.frame), MessageRing.MAX_BUFFERED_MESSAGES))
    else n
  }

  function InboundOf(n: Node, ev: RxEvent, h: PacketHeader, d: DecodedPayload): Inbound {
    Inbound(h.sender, h.packetId, h.relayNode, d.payload, h.IsForUs(n.dev.myNodeNum), d.wantResponse,
            d.requestId, d.replyId, d.emoji, d.channelIndex, ev.snr)
  }

  /** A routing message clears the packet it answers, tells the phone, and teaches us a route; what it
      says is not looked at. */
  function HandleRouting(env: Env, n: Node, p: Inbound): (Node, Out) {
    if !env.routingDecodes(p.payload) || p.requestId == 0 then (n, Quiet)
    else
      var i := Position(n.pending, (e: PendingPacket) => e.packetId == p.requestId);
      var (n1, out) :=
        if i < |n.pending| then
          var e := n.pending[i];
          var rest := n.(pending := SwapRemove(n.pending, i));
          match e.bleNotify
          case None => (rest, Quiet.(log := [Acked(e.serial)]))
          case Some(dest) =>
            var (d, m) := SendBleResult(n.dev, dest, e.packetId, NoError);
            (rest.(dev := d), Out([], [m], [Acked(e.serial)]))
        else (n, Quiet);
      (n1.(db := LearnRoute(n1.db, p.sender, p.relayNode).0), out)
  }

  function AppOf(n: Node): AppState { AppState(n.app, n.dev, n.db, n.lastNodeinfoTx) }

  function WithApp(n: Node, a: AppState): Node {
    n.(app := a.app, dev := a.dev, db := a.db, lastNodeinfoTx := a.lastNodeinfoTx)
  }

  /** Take over a handler's state and send what it asked for. */
  function Adopt(env: Env, n: Node, e: HandlerEffect): (Node, Out) {
    var n1 := WithApp(n, e.state);
    var (d, fs) := SendAll(env, n1.dev, n1.db, e.sends);
    (n1.(dev := d), Out(fs, e.ble, []))
  }

  function RunHandler(env: Env, n: Node, ev: RxEvent, p: Inbound, portnum: i32): (Node, Out) {
    if portnum == ROUTING_APP then HandleRouting(env, n, p)
    else if portnum == ADMIN_APP && !p.addressedToUs then (n, Quiet)
    else Adopt(env, n, env.handle(AppOf(n), portnum, p, ev.now))
  }

  function ForwardToBle(n: Node, ev: RxEvent, h: PacketHeader, d: DecodedPayload, addressedToUs: bool): Out {
    if (d.portnum != ADMIN_APP || !addressedToUs) && n.bleConnected
    then Quiet.(ble := [PacketMsg(h, d.channelIndex, d.portnum, d.payload, d.replyId, d.emoji, ev.snr, ev.rssi)])
    else Quiet
  }

  function AckRequest(h: PacketHeader, channelIndex: u8): TxRequest {
    TxRequest(h.sender, ROUTING_APP, [], Some(channelIndex), false, false, h.packetId, 0, 0, None)
  }

  /** Acknowledge what was sent to us alone and asked for it. */
  function Acknowledge(env: Env, n: Node, h: PacketHeader, channelIndex: u8): (Node, Out) {
    if h.destination == n.dev.myNodeNum && h.WantAck() then
      var (d, f) := Send(env, n.dev, n.db, AckRequest(h, channelIndex));
      (n.(dev := d), Quiet.(lora := f))
    else (n, Quiet)
  }

  /** Everything a new packet does except being relayed. */
  function ProcessLocally(env: Env, n: Node, ev: RxEvent, h: PacketHeader, d: DecodedPayload): (Node, Out) {
    var (n1, o1) := NoteSender(n, ev, h);
    var (n2, o2) := MaybeRequestNodeinfo(env, n1, ev, h);
    var p := InboundOf(n2, ev, h, d);
    var n3 := StoreText(n2, ev, d);
    var (n4, o4) := RunHandler(env, n3, ev, p, d.portnum);
    var o5 := ForwardToBle(n4, ev, h, d, p.addressedToUs);
    var (n6, o6) := Acknowledge(env, n4, h, d.channelIndex);
    (n6, Join(Join(Join(Join(o1, o2), o4), o5), o6))
  }

  /** Layer 3: relay broadcasts, and directed packets that name us as the next hop. */
  function RelayDecision(n: Node, ev: RxEvent, h: PacketHeader): (Node, Out) {
    if RebroadcastsForRole(n.dev.role) && h.sender != n.dev.myNodeNum && h.HopLimit() > 0
       && (h.destination == BROADCAST_ADDR || ShouldRelayDirected(n.dev, h.destination, h.nextHop))
    then Reschedule(n, ev, h.HopLimit() - 1)
    else (n, Quiet)
  }

  predicate ShouldRelayDirected(dev: Device, dest: u32, nextHop: u8) {
    dest == dev.myNodeNum || (nextHop != NO_NEXT_HOP && nextHop == dev.LastByte())
  }

  /** Layers 1 to 3 for a packet that decoded. */
  function Flood(env: Env, n: Node, ev: RxEvent, h: PacketHeader, d: DecodedPayload): (Node, Out) {
    var key := Key(h.sender, h.packetId);
    var (verdict, recent) :=
      Filter(n.recent, n.dev.LastByte(), n.dev.role, key, h.HopLimit(), h.relayNode, PendingHopLimit(n.relays, key));
    var n0 := n.(recent := recent);
    match verdict
    case New =>
      var (n1, o1) := ProcessLocally(env, n0, ev, h, d);
      var (n2, o2) := RelayDecision(n1, ev, h);
      (n2, Join(Quiet.(log := [NewPacket(key)]), Join(o1, o2)))
    case DuplicateUpgrade(newHop) =>
      (n0.(relays := UpgradeRelay(n.relays, key, ev.frame.Rewritten(newHop, n.dev.LastByte()), ev.taken + 1)), Quiet)
    case DuplicateCancelRelay =>
      (n0.(relays := Retain(n.relays, RelayIsNotFor(key))),
       Quiet.(log := CancelledLines(Dropped(n.relays, RelayIsNotFor(key)))))
    case DuplicateDrop => (n0, Quiet)
  }

  function OutcomeOf(env: Env, n: Node, f: RadioFrame): DecryptOutcome
    requires f.Framed?
  {
    TryDecryptAndDecode(env.suite, f.hdr, f.body, n.dev, n.db, n.priv)
  }

  function Dispatch(env: Env, n: Node, ev: RxEvent): (Node, Out) {
    if ev.frame.Runt? then (n, Quiet)
    else
      var h := ev.frame.hdr;
      if h.sender == n.dev.myNodeNum then HearOwnEcho(n, h)
      else
        match OutcomeOf(env, n, ev.frame)
        case PkiUnknownPubkey => ReportUnknownKey(env, n, ev, h)
        case Drop => if h.destination != n.dev.myNodeNum then MaybeRelayOpaque(n, ev, h) else (n, Quiet)
        case Decoded(d) => Flood(env, n, ev, h, d)
  }

  // ---- The other events ----

  function FireRelay(n: Node): (Node, Out) {
    if n.relays == [] then (n, Quiet)
    else
      var i := MinBy(n.relays, DeadlineOf());
      (n.(relays := SwapRemove(n.relays, i)), Out([n.relays[i].frame], [], [Relayed(n.relays[i])]))
  }

  function ReportGiveUps(dev: Device, gs: seq<GiveUp>): (Device, seq<BleMsg>)
    decreases |gs|
  {
    if gs == [] then (dev, [])
    else
      match gs[0].notify
      case None => ReportGiveUps(dev, gs[1..])
      case Some(dest) =>
        var (d, m) := SendBleResult(dev, dest, gs[0].packetId, MaxRetransmit);
        var (d', ms) := ReportGiveUps(d, gs[1..]);
        (d', [m] + ms)
  }

  function ResentFrames(rs: seq<Resend>): seq<RadioFrame> { seq(|rs|, i requires 0 <= i < |rs| => rs[i].frame) }

  function TickLines(rs: seq<Resend>, gs: seq<GiveUp>): seq<Line> {
    seq(|rs|, i requires 0 <= i < |rs| => Resent(rs[i].serial, rs[i].frame))
    + seq(|gs|, i requires 0 <= i < |gs| => GaveUpOn(gs[i].serial))
  }

  function RetxTick(n: Node, now: nat): (Node, Out) {
    var t := TickFrom(n.pending, 0, now, n.db);
    var (d, ms) := ReportGiveUps(n.dev, t.gaveUp);
    (n.(pending := t.pending, db := t.db, dev := d), Out(ResentFrames(t.toSend), ms, TickLines(t.toSend, t.gaveUp)))
  }

  /** A packet the phone hands over for sending. */
  datatype PhonePacket = PhonePacket(
    to: u32,
    from: u32,
    id: u32,
    channel: u32,
    hopLimit: u32,
    wantAck: bool,
    portnum: i32,
    payload: seq<u8>,
    requestId: u32,
    replyId: u32,
    emoji: u32,
    publicKey: seq<u8>)

  predicate PortnumAllowsPkc(portnum: i32) {
    portnum !in {TRACEROUTE_APP, NODEINFO_APP, ROUTING_APP, POSITION_APP}
  }

  datatype KeyChoice = UseChannel | UsePkc | Refuse(report: Option<RoutingError>)

  /** Public-key encryption is used exactly when the phone asks for it and it is possible;
      it is never silently replaced by the channel key. */
  function ChooseKey(n: Node, pkt: PhonePacket): KeyChoice {
    if pkt.channel != PKC_CHANNEL_INDEX then
      if pkt.channel % 0x100 >= MAX_CHANNELS then Refuse(None) else UseChannel
    else if !PortnumAllowsPkc(pkt.portnum) || pkt.to == BROADCAST_ADDR || pkt.to == 0 then Refuse(None)
    else
      var stored := StoredKey(n.db, pkt.to);
      if |pkt.publicKey| == 32 && stored.Some? && stored.value != pkt.publicKey then Refuse(Some(PkiFailed))
      else if stored.None? || AllZero(n.priv) then Refuse(Some(PkiSendFailPublicKey))
      else UsePkc
  }

  predicate HandledLocally(n: Node, pkt: PhonePacket) {
    pkt.portnum == ADMIN_APP && (pkt.to == n.dev.myNodeNum || pkt.to == BROADCAST_ADDR || pkt.to == 0)
  }

  function PhoneRequest(pkt: PhonePacket): TxRequest {
    var channelIdx: u8 := if pkt.channel == PKC_CHANNEL_INDEX then 0 else pkt.channel % 0x100;
    TxRequest(pkt.to, pkt.portnum, pkt.payload, Some(channelIdx), pkt.wantAck || pkt.portnum == TEXT_MESSAGE_APP,
              false, pkt.requestId, pkt.replyId, pkt.emoji, Some(Min(pkt.hopLimit % 0x100, MAX_HOP_LIMIT)))
  }

  function TrackedEntry(n: Node, f: RadioFrame, packetId: u32, pkt: PhonePacket, now: nat): PendingPacket {
    var ackDest := if pkt.from == 0 then n.dev.myNodeNum else pkt.from;
    PendingPacket(f, packetId, pkt.to, n.dev.myNodeNum, now + WANT_ACK_TIMEOUT_MS, NUM_RELIABLE_RETX, true,
                  Some(ackDest), n.nextSerial)
  }

  /** Send the built frame, tracking it when a mesh ACK is wanted and there is room. */
  function TransmitFrame(n: Node, pkt: PhonePacket, packetId: u32, f: RadioFrame, now: nat): (Node, Out) {
    var ackDest := if pkt.from == 0 then n.dev.myNodeNum else pkt.from;
    if PhoneRequest(pkt).wantAck && pkt.to != BROADCAST_ADDR then
      if |n.pending| < MAX_PENDING then
        var e := TrackedEntry(n, f, packetId, pkt, now);
        (n.(pending := n.pending + [e], nextSerial := n.nextSerial + 1), Out([f], [], [Tracking(e.serial, f)]))
      else
        var (d, m) := SendBleResult(n.dev, ackDest, pkt.id, NoError);
        (n.(dev := d), Out([f], [m], []))
    else
      var (d, m) := SendBleResult(n.dev, ackDest, pkt.id, NoError);
      (n.(dev := d), Out([f], [m], []))
  }

  function TransmitFromPhone(env: Env, n: Node, pkt: PhonePacket, now: nat, extraNonce: u32): (Node, Out) {
    if HandledLocally(n, pkt) then
      var (n1, o1) := Adopt(env, n, env.admin(AppOf(n), pkt.from, pkt.id, pkt.payload));
      if pkt.wantAck then
        var (d, m) := SendBleResult(n1.dev, pkt.from, pkt.id, NoError);
        (n1.(dev := d), Join(o1, Quiet.(ble := [m])))
      else (n1, o1)
    else
      var (dev, packetId) := if pkt.id != 0 then (n.dev, pkt.id) else TakeId(n.dev);
      var n1 := n.(dev := dev);
      var choice := ChooseKey(n1, pkt);
      if choice.Refuse? then
        match choice.report
        case None => (n1, Quiet)
        case Some(error) =>
          var (d, m) := SendBleResult(n1.dev, pkt.to, pkt.id, error);
          (n1.(dev := d), Quiet.(ble := [m]))
      else
        var keys := if choice.UsePkc? then Some(PkcKeys(n1.priv, extraNonce)) else None;
        match Build(env.suite, n1.dev, n1.db, PhoneRequest(pkt), packetId, keys)
        case None => (n1, Quiet)
        case Some(f) => TransmitFrame(n1, pkt, packetId, f, now)
  }

  // ---- The phone's side: answers and replay ----

  function Others(messages: seq<seq<u8>>): (r: seq<BleMsg>)
    ensures forall m :: m in r ==> m.OtherMsg?
  {
    seq(|messages|, i requires 0 <= i < |messages| => OtherMsg(messages[i]))
  }

  /** A stored frame as the phone gets it, if it can still be read. */
  function ReplayOne(env: Env, dev: Device, f: RadioFrame): seq<BleMsg> {
    match DecodePskFrame(env.suite, f, dev)
    case None => []
    case Some(d) => [PacketMsg(f.hdr, d.channelIndex, d.portnum, d.payload, d.replyId, d.emoji, 0, 0)]
  }

  function ReplayAll(env: Env, dev: Device, fs: seq<RadioFrame>): (r: seq<BleMsg>)
    ensures forall m :: m in r ==> m.PacketMsg?
  {
    if fs == [] then [] else ReplayAll(env, dev, fs[..|fs| - 1]) + ReplayOne(env, dev, fs[|fs| - 1])
  }

  /** `Periodic` is a timer broadcast: it sends and notes when, and changes nothing else. `Answer` is
      any exchange that only sends the phone something. `WantConfig` sends the configuration and
      then the stored frames, up to one that an interrupted pop has spoilt; `outcomes` is what becomes
      of the flash writes. `Flush` is the debounced write of a changed node table. */
  datatype Event =
    | Rx(ev: RxEvent)
    | RelayTimer
    | RetxTimer(now: nat)
    | Phone(pkt: PhonePacket, at: nat, extraNonce: u32)
    | Periodic(app: seq<u8>, lastNodeinfoTx: Option<nat>, sends: seq<TxRequest>)
    | BleLink(connected: bool)
    | Answer(messages: seq<seq<u8>>)
    | WantConfig(config: seq<seq<u8>>, outcomes: seq<MessageRing.WriteOutcome>)
    | Flush(written: bool)

  /** Hearing anything first pushes every retransmission deadline back. */
  function Step(env: Env, n: Node, e: Event): (Node, Out) {
    match e
    case Rx(ev) => Dispatch(env, n.(pending := ExtendDeadlines(n.pending, RETX_AIRTIME_EXTENSION_MS)), ev)
    case RelayTimer => FireRelay(n)
    case RetxTimer(now) => RetxTick(n, now)
    case Phone(pkt, at, extraNonce) => TransmitFromPhone(env, n, pkt, at, extraNonce)
    case Periodic(app, lastNodeinfoTx, sends) =>
      var (d, fs) := SendAll(env, n.dev, n.db, sends);
      (n.(app := app, lastNodeinfoTx := lastNodeinfoTx, dev := d), Quiet.(lora := fs))
    case BleLink(connected) => (n.(bleConnected := connected), Quiet)
    case Answer(messages) => (n, Quiet.(ble := Others(messages)))
    case WantConfig(config, _) =>
      var frames := Leading(n.stored);
      (n.(stored := n.stored[|frames|..]), Quiet.(ble := Others(config) + ReplayAll(env, n.dev, frames)))
    case Flush(written) => (n.(db := if written then n.db.(dirty := false) else n.db), Quiet)
  }

  /** A run of one node: the events in order, the outputs joined up. */
  function Run(env: Env, n: Node, es: seq<Event>): (Node, Out) {
    if es == [] then (n, Quiet)
    else
      var (n1, o1) := Run(env, n, es[..|es| - 1]);
      var (n2, o2) := Step(env, n1, es[|es| - 1]);
      (n2, Join(o1, o2))
  }

  /** Handlers may change anything of theirs but our node number, and keep the table well formed. */
  ghost predicate KeepsIdentityOf(before: AppState, e: HandlerEffect) {
    && e.state.dev.myNodeNum == before.dev.myNodeNum && e.state.db.our == before.db.our
    && (ValidNodes(before.db.nodes) ==> ValidNodes(e.state.db.nodes))
  }

  ghost predicate WellBehaved(env: Env) {
    && (forall a, portnum, p, now :: KeepsIdentityOf(a, env.handle(a, portnum, p, now)))
    && (forall a, from, id, payload :: KeepsIdentityOf(a, env.admin(a, from, id, payload)))
  }
}
