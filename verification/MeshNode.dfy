/** The node as the firmware runs it: objects changed in place, proved to be the state machine
    of `Mesh`. */
module MeshNode {
  import opened Bytes
  import opened Vecs
  import opened Rings
  import opened Packet
  import opened Device
  import opened NodeDb
  import opened Crypto
  import opened Receive
  import opened Router
  import opened Retransmit
  import opened Mesh
  import opened MessageRing
  import opened NvsStorage
  import opened Snapshot
  import opened NodeStore
  import Tx

  // ---- Stored frames ----

  function AsBytesOf(f: RadioFrame): (b: StoredFrame)
    requires f.Valid()
    ensures b == f.AsBytes()
  {
    f.AsBytes()
  }

  function ParsedSlot(b: Option<StoredFrame>): Option<RadioFrame> {
    match b case None => None case Some(bytes) => Some(Parse(bytes))
  }

  /** The frames a ring holds, read from its bytes; nothing for a slot spoilt by an interrupted pop. */
  function FramesOf(r: Ring): (fs: seq<Option<RadioFrame>>)
    requires InBounds(r)
    ensures |fs| == r.count && forall k :: 0 <= k < r.count ==> fs[k] == ParsedSlot(Window(r)[k])
  {
    seq(r.count, k requires 0 <= k < r.count => ParsedSlot(Window(r)[k]))
  }

  function ParsedFrames(bs: seq<StoredFrame>): (fs: seq<RadioFrame>)
    ensures |fs| == |bs| && forall k :: 0 <= k < |bs| ==> fs[k] == Parse(bs[k])
  {
    seq(|bs|, k requires 0 <= k < |bs| => Parse(bs[k]))
  }

  lemma AddingStores(r: Ring, f: RadioFrame)
    requires f.Valid() && Aligned(r)
    ensures Aligned(AddRing(r, AsBytesOf(f)))
    ensures FramesOf(AddRing(r, AsBytesOf(f))) == PushBounded(FramesOf(r), Some(f), MAX_BUFFERED_MESSAGES)
  {
    hide AddRing, Window;
    AddPushes(r, AsBytesOf(f));
    ParseIsInverseOfAsBytes(f, []);
  }

  /** Replaying takes the readable frames off the front. */
  lemma ReplayTakes(r: Ring, end: Ring, frames: seq<StoredFrame>)
    requires InBounds(r) && InBounds(end) && frames == Leading(Window(r)) && Window(end) == Window(r)[|frames|..]
    ensures ParsedFrames(frames) == Leading(FramesOf(r)) && FramesOf(end) == FramesOf(r)[|frames|..]
  {
    hide Window, Leading;
    LeadingIs(FramesOf(r), ParsedFrames(frames));
  }

  /** Every flash write the event makes to the frame ring succeeds. */
  predicate RingWritesSucceed(e: Event) {
    (e.Rx? ==> e.ev.write.slot && e.ev.write.header) && (e.WantConfig? ==> AllReachFlash(e.outcomes))
  }

  class Orchestrator {
    const env: Env
    const device: DeviceState
    const nodeDb: NodeDB
    const router: MeshRouter
    const storage: GenericNvsStorage
    const priv: seq<u8>
    var pendingRebroadcast: seq<Relay>
    var pendingPackets: seq<PendingPacket>
    var bleConnected: bool
    var lastNodeinfoTx: Option<nat>
    var nextSerial: nat
    var app: seq<u8>
    var savedTable: seq<u8>

    ghost predicate Valid()
      reads this, device, nodeDb, router, router.history, router.opaqueSeen, storage, storage.slots, storage.flash
    {
      && Lawful(env.suite) && WellBehaved(env)
      && nodeDb.Valid() && router.Valid() && router.ourNodeNum == device.myNodeNum
      && storage.Valid() && Aligned(storage.View())
      && |pendingRebroadcast| <= MAX_RELAYS && |pendingPackets| <= MAX_PENDING
    }

    /** Flash holds the very queue of frames that RAM holds. */
    ghost predicate Mirrored()
      reads storage, storage.slots, storage.flash
    {
      storage.Valid() && Mirrors(storage.flash[..], storage.View())
    }

    function View(): Node
      reads this, device, nodeDb, router, router.history, router.opaqueSeen, storage, storage.slots, storage.flash
      requires Valid()
    {
      Node(device.View(), nodeDb.View(), router.Recent(), router.Seen(), pendingRebroadcast, pendingPackets,
           FramesOf(storage.View()), priv, bleConnected, lastNodeinfoTx, nextSerial, app)
    }

    constructor (env: Env, device: DeviceState, nodeDb: NodeDB, storage: GenericNvsStorage, priv: seq<u8>, app: seq<u8>)
      requires Lawful(env.suite) && WellBehaved(env) && nodeDb.Valid()
      requires storage.Valid() && Aligned(storage.View())
      ensures Valid() && this.env == env && this.device == device && this.nodeDb == nodeDb && this.storage == storage
      ensures View() == Node(device.View(), nodeDb.View(), [], [], [], [], FramesOf(storage.View()), priv, false,
                             None, 0, app)
      ensures fresh(router) && fresh(router.history) && fresh(router.opaqueSeen)
    {
      this.env, this.device, this.nodeDb, this.storage, this.priv, this.app := env, device, nodeDb, storage, priv, app;
      pendingRebroadcast, pendingPackets := [], [];
      bleConnected, lastNodeinfoTx, nextSerial, savedTable := false, None, 0, [];
      router := new MeshRouter(device.myNodeNum);
    }

    // ---- Sending ----

    method SendRequest(req: Tx.TxRequest) returns (lora: seq<RadioFrame>)
      requires Valid()
      modifies device`nextPacketId
      ensures Valid() && (device.View(), lora) == Send(env, old(device.View()), nodeDb.View(), req)
      ensures View() == old(View()).(dev := device.View())
    {
      hide Tx.Build, Aligned, FramesOf, Unroll;
      var id := device.NextPacketId();
      var f := Tx.BuildFrame(env.suite, device.View(), nodeDb.View(), req, id, None);
      lora := if f.Some? then [f.value] else [];
    }

    method SendNodeInfoTo(dest: u32, wantResponse: bool, impoliteOk: bool) returns (lora: seq<RadioFrame>)
      requires Valid()
      modifies device`nextPacketId
      ensures Valid() && (device.View(), lora)
              == SendNodeInfo(env, old(device.View()), nodeDb.View(), dest, wantResponse, impoliteOk)
      ensures View() == old(View()).(dev := device.View())
    {
      hide Send;
      lora := [];
      if impoliteOk {
        lora := SendRequest(NodeInfoRequest(env, device.View(), dest, wantResponse));
      }
    }

    method ReportToPhone(dest: u32, requestId: u32, error: RoutingError) returns (m: BleMsg)
      requires Valid()
      modifies device`nextPacketId
      ensures Valid() && (device.View(), m) == SendBleResult(old(device.View()), dest, requestId, error)
      ensures View() == old(View()).(dev := device.View())
    {
      var id := device.NextPacketId();
      m := ResultMsg(dest, id, requestId, error);
    }

    // ---- The relay queue ----

    method ScheduleRebroadcast(ev: RxEvent, newHop: u8) returns (out: Out)
      requires Valid()
      modifies `pendingRebroadcast
      ensures Valid() && (View(), out) == Reschedule(old(View()), ev, newHop)
    {
      hide MinBy, SwapRemove, WellBehaved, ValidNodes, Unroll;
      var r := Relay(ev.frame.Rewritten(newHop, device.myNodeNum % 0x100), ev.now + ev.delay, ev.taken + 1);
      out := Quiet.(log := [Scheduled(r)]);
      if |pendingRebroadcast| >= MAX_RELAYS {
        var soonest := MinBy(pendingRebroadcast, DeadlineOf());
        out := Quiet.(log := [Evicted(pendingRebroadcast[soonest]), Scheduled(r)]);
        pendingRebroadcast := SwapRemove(pendingRebroadcast, soonest);
      }
      pendingRebroadcast := pendingRebroadcast + [r];
      assert r == Relay(ev.frame.Rewritten(newHop, old(View()).dev.LastByte()), ev.now + ev.delay, ev.taken + 1);
    }

    method FireNextRelay() returns (out: Out)
      requires Valid()
      modifies `pendingRebroadcast
      ensures Valid() && (View(), out) == FireRelay(old(View()))
    {
      hide MinBy;
      if pendingRebroadcast == [] {
        return Quiet;
      }
      var i := MinBy(pendingRebroadcast, DeadlineOf());
      var r := pendingRebroadcast[i];
      pendingRebroadcast := SwapRemove(pendingRebroadcast, i);
      out := Out([r.frame], [], [Relayed(r)]);
    }

    // ---- Layer 0 and packets that do not decode ----

    method HearEcho(h: PacketHeader) returns (out: Out)
      requires Valid()
      modifies `pendingPackets
      ensures Valid() && (View(), out) == HearOwnEcho(old(View()), h)
    {
      hide Position;
      var i := Position(pendingPackets, (p: PendingPacket) => p.packetId == h.packetId);
      out := Quiet;
      if i < |pendingPackets| {
        out := Quiet.(log := [EchoHeard(pendingPackets[i].serial)]);
        pendingPackets := SwapRemove(pendingPackets, i);
      }
    }

    method ReportKeyless(ev: RxEvent, h: PacketHeader) returns (out: Out)
      requires Valid()
      modifies device`nextPacketId
      ensures Valid() && (View(), out) == ReportUnknownKey(env, old(View()), ev, h)
    {
      hide Send, SendNodeInfo;
      var lora: seq<RadioFrame> := [];
      if h.WantAck() {
        lora := SendRequest(UnknownKeyReport(env, h));
      }
      var info := SendNodeInfoTo(h.sender, false, ev.impoliteOk);
      out := Quiet.(lora := lora + info);
    }

    method RelayUnread(ev: RxEvent, h: PacketHeader) returns (out: Out)
      requires Valid()
      modifies `pendingRebroadcast, router`opaqueHead, router`opaqueCount, router.opaqueSeen
      ensures Valid() && (View(), out) == MaybeRelayOpaque(old(View()), ev, h)
    {
      hide RelayOpaque, Reschedule, HopLimitOf, HopStartOf, Aligned, FramesOf, Unroll, WellBehaved, ValidNodes, RingOk;
      if !RebroadcastsForRole(device.role) || h.HopLimit() == 0 {
        return Quiet;
      }
      var key := Key(h.sender, h.packetId);
      var relay := router.ShouldRelayOpaque(key, h.HopStart(), h.HopLimit());
      if !relay {
        return Quiet;
      }
      out := ScheduleRebroadcast(ev, h.HopLimit() - 1);
      out := out.(log := [OpaqueAccepted(key, 0 < h.HopStart() == h.HopLimit())] + out.log);
    }

    // ---- Local processing ----

    method NoteSenderOf(ev: RxEvent, h: PacketHeader) returns (out: Out)
      requires Valid()
      modifies nodeDb
      ensures Valid() && (View(), out) == NoteSender(old(View()), ev, h)
    {
      hide Touch, Amend, Get, HopsAway;
      var known := Get(nodeDb.View(), h.sender).Some?;
      nodeDb.TouchNode(h.sender, 0, Some(ev.snr), ev.now);
      nodeDb.SetHops(h.sender, HopsAway(h));
      var entry := Get(nodeDb.View(), h.sender);
      out := Quiet;
      if !known && entry.Some? {
        out := Quiet.(ble := [NodeMsg(entry.value)]);
      }
    }

    method AskForNodeinfo(ev: RxEvent, h: PacketHeader) returns (out: Out)
      requires Valid()
      modifies `lastNodeinfoTx, device`nextPacketId
      ensures Valid() && (View(), out) == MaybeRequestNodeinfo(env, old(View()), ev, h)
    {
      hide Get, SendNodeInfo, HopLimitOf, HopStartOf, Aligned, FramesOf, Unroll, WellBehaved;
      var entry := Get(nodeDb.View(), h.sender);
      if entry.Some? && entry.value.user.Some? {
        return Quiet;
      }
      if !RoleAllowsCancel(device.role) || |nodeDb.nodes| >= MAX_NODES {
        return Quiet;
      }
      if lastNodeinfoTx.Some? && SatSub(ev.now, lastNodeinfoTx.value) < NODEINFO_MIN_INTERVAL_MS {
        return Quiet;
      }
      if !ev.politeOk || SatSub(h.HopStart(), h.HopLimit()) > Min(device.hopLimit + 2, 255) {
        return Quiet;
      }
      var lora := SendNodeInfoTo(h.sender, true, ev.impoliteOk);
      lastNodeinfoTx := Some(ev.now);
      out := Quiet.(lora := lora);
    }

    /** Text for a phone that is away goes into the flash ring, whether or not the writes succeed. */
    method BufferText(ev: RxEvent, d: DecodedPayload)
      requires Valid() && ev.frame.Valid()
      modifies storage, storage.slots, storage.flash
      ensures Valid() && View() == StoreText(old(View()), ev, d)
      ensures old(Mirrored()) && ev.write.slot && ev.write.header ==> Mirrored()
    {
      hide AddRing, FlashInAdd, WriteHeader, FramesOf, Aligned, AsBytesOf, Mirrors, Unroll, WellBehaved, Lawful;
      if (d.portnum == Tx.TEXT_MESSAGE_APP || d.portnum == Tx.TEXT_MESSAGE_COMPRESSED_APP) && !bleConnected {
        AddingStores(storage.View(), ev.frame);
        if Mirrored() {
          AddKeepsMirror(storage.flash[..], storage.View(), AsBytesOf(ev.frame));
        }
        storage.AddFrame(AsBytesOf(ev.frame), ev.write.slot, ev.write.header);
      }
    }

    method ClearAcked(i: nat) returns (out: Out)
      requires Valid() && i < |pendingPackets|
      modifies `pendingPackets, device`nextPacketId
      ensures var e := old(pendingPackets)[i];
              && Valid() && View() == old(View()).(dev := device.View(), pending := SwapRemove(old(pendingPackets), i))
              && if e.bleNotify.None? then
                   device.View() == old(device.View()) && out == Quiet.(log := [Acked(e.serial)])
                 else var (d, m) := SendBleResult(old(device.View()), e.bleNotify.value, e.packetId, NoError);
                      device.View() == d && out == Out([], [m], [Acked(e.serial)])
    {
      hide SendBleResult, Aligned, FramesOf, Unroll, WellBehaved;
      var e := pendingPackets[i];
      pendingPackets := SwapRemove(pendingPackets, i);
      out := Quiet.(log := [Acked(e.serial)]);
      if e.bleNotify.Some? {
        var m := ReportToPhone(e.bleNotify.value, e.packetId, NoError);
        out := Out([], [m], [Acked(e.serial)]);
      }
    }

    /** A routing ACK: clear what it answers, tell the phone, learn the route. */
    method HandleAck(p: Inbound) returns (out: Out)
      requires Valid()
      modifies `pendingPackets, nodeDb, device`nextPacketId
      ensures Valid() && (View(), out) == HandleRouting(env, old(View()), p)
    {
      hide Position, LearnRoute, SendBleResult, Aligned, FramesOf, Unroll, WellBehaved;
      out := Quiet;
      if !env.routingDecodes(p.payload) || p.requestId == 0 {
        return;
      }
      var i := Position(pendingPackets, (e: PendingPacket) => e.packetId == p.requestId);
      if i < |pendingPackets| {
        out := ClearAcked(i);
      }
      var learned := nodeDb.Learn(p.sender, p.relayNode);
    }

    /** Take over a handler's state, then send what it asked for. */
    method AdoptEffect(e: HandlerEffect) returns (out: Out)
      requires Valid() && e.state.dev.myNodeNum == device.myNodeNum
      requires e.state.db.our == nodeDb.our && ValidNodes(e.state.db.nodes)
      modifies `app, `lastNodeinfoTx, device, nodeDb
      ensures Valid() && (View(), out) == Adopt(env, old(View()), e)
    {
      hide Send, ValidNodes, Aligned, FramesOf, Unroll;
      app, lastNodeinfoTx := e.state.app, e.state.lastNodeinfoTx;
      device.Adopt(e.state.dev);
      nodeDb.Adopt(e.state.db);
      var lora := SendEach(e.sends);
      out := Out(lora, e.ble, []);
    }

    method SendEach(reqs: seq<Tx.TxRequest>) returns (lora: seq<RadioFrame>)
      requires Valid()
      modifies device`nextPacketId
      ensures Valid() && (device.View(), lora) == SendAll(env, old(device.View()), nodeDb.View(), reqs)
      ensures View() == old(View()).(dev := device.View())
    {
      hide Send, Aligned, FramesOf, Unroll, WellBehaved;
      lora := [];
      ghost var all := SendAll(env, device.View(), nodeDb.View(), reqs);
      assert reqs[0..] == reqs && lora + all.1 == all.1;
      for i := 0 to |reqs|
        invariant Valid() && View() == old(View()).(dev := device.View())
        invariant var rest := SendAll(env, device.View(), nodeDb.View(), reqs[i..]);
                  all == (rest.0, lora + rest.1)
      {
        assert reqs[i..][0] == reqs[i] && reqs[i..][1..] == reqs[i + 1..];
        ghost var rest := SendAll(env, device.View(), nodeDb.View(), reqs[i..]);
        var f := SendRequest(reqs[i]);
        ghost var after := SendAll(env, device.View(), nodeDb.View(), reqs[i + 1..]);
        assert rest.1 == f + after.1;
        assert lora + (f + after.1) == lora + f + after.1;
        lora := lora + f;
      }
      assert reqs[|reqs|..] == [] && lora + [] == lora;
    }

    method Handle(ev: RxEvent, p: Inbound, portnum: i32) returns (out: Out)
      requires Valid()
      modifies `app, `lastNodeinfoTx, `pendingPackets, device, nodeDb
      ensures Valid() && (View(), out) == RunHandler(env, old(View()), ev, p, portnum)
    {
      hide HandleRouting, Adopt;
      if portnum == Tx.ROUTING_APP {
        out := HandleAck(p);
        return;
      }
      if portnum == Tx.ADMIN_APP && !p.addressedToUs {
        return Quiet;
      }
      var a := AppState(app, device.View(), nodeDb.View(), lastNodeinfoTx);
      assert KeepsIdentityOf(a, env.handle(a, portnum, p, ev.now));
      out := AdoptEffect(env.handle(a, portnum, p, ev.now));
    }

    method AcknowledgeTo(h: PacketHeader, channelIndex: u8) returns (out: Out)
      requires Valid()
      modifies device`nextPacketId
      ensures Valid() && (View(), out) == Acknowledge(env, old(View()), h, channelIndex)
    {
      hide Send;
      out := Quiet;
      if h.destination == device.myNodeNum && h.WantAck() {
        var lora := SendRequest(AckRequest(h, channelIndex));
        out := Quiet.(lora := lora);
      }
    }

    /** Everything a new packet does except being relayed. */
    method ProcessNew(ev: RxEvent, h: PacketHeader, d: DecodedPayload) returns (out: Out)
      requires Valid() && ev.frame.Valid()
      modifies `app, `lastNodeinfoTx, `pendingPackets, device, nodeDb, storage, storage.slots, storage.flash
      ensures Valid() && (View(), out) == ProcessLocally(env, old(View()), ev, h, d)
      ensures old(Mirrored()) && ev.write.slot && ev.write.header ==> Mirrored()
    {
      hide NoteSender, MaybeRequestNodeinfo, StoreText, RunHandler, Acknowledge, Send, Aligned, FramesOf, Unroll,
        Mirrors, WellBehaved, Lawful, ValidNodes, Router.Ok, RingOk;
      var o1 := NoteSenderOf(ev, h);
      var o2 := AskForNodeinfo(ev, h);
      var p := Inbound(h.sender, h.packetId, h.relayNode, d.payload, h.IsForUs(device.myNodeNum), d.wantResponse,
                       d.requestId, d.replyId, d.emoji, d.channelIndex, ev.snr);
      BufferText(ev, d);
      var o4 := Handle(ev, p, d.portnum);
      var o5 := Quiet;
      if (d.portnum != Tx.ADMIN_APP || !p.addressedToUs) && bleConnected {
        o5 := Quiet.(ble := [PacketMsg(h, d.channelIndex, d.portnum, d.payload, d.replyId, d.emoji, ev.snr, ev.rssi)]);
      }
      var o6 := AcknowledgeTo(h, d.channelIndex);
      out := Join(Join(Join(Join(o1, o2), o4), o5), o6);
    }

    // ---- Layers 1 to 3 ----

    method DecideRelay(ev: RxEvent, h: PacketHeader) returns (out: Out)
      requires Valid()
      modifies `pendingRebroadcast
      ensures Valid() && (View(), out) == RelayDecision(old(View()), ev, h)
    {
      hide Reschedule, HopLimitOf;
      out := Quiet;
      if !RebroadcastsForRole(device.role) || h.sender == device.myNodeNum || h.HopLimit() == 0 {
        return;
      }
      if h.destination == BROADCAST_ADDR || ShouldRelayDirected(device.View(), h.destination, h.nextHop) {
        out := ScheduleRebroadcast(ev, h.HopLimit() - 1);
      }
    }

    method Upgrade(key: Key, ev: RxEvent, newHop: u8)
      requires Valid()
      modifies `pendingRebroadcast
      ensures Valid()
      ensures View() == old(View()).(relays := UpgradeRelay(old(pendingRebroadcast), key,
                                                            ev.frame.Rewritten(newHop, device.myNodeNum % 0x100),
                                                            ev.taken + 1))
    {
      hide Position;
      var i := Position(pendingRebroadcast, RelayIsFor(key));
      if i < |pendingRebroadcast| {
        var frame := ev.frame.Rewritten(newHop, device.myNodeNum % 0x100);
        pendingRebroadcast := pendingRebroadcast[i := pendingRebroadcast[i].(frame := frame, taken := ev.taken + 1)];
      }
    }

    method FloodPacket(ev: RxEvent, h: PacketHeader, d: DecodedPayload) returns (out: Out)
      requires Valid() && ev.frame.Valid()
      modifies this, device, nodeDb, router`historyHead, router`historyCount, router.history, storage, storage.slots,
               storage.flash
      ensures Valid() && (View(), out) == Flood(env, old(View()), ev, h, d)
      ensures old(Mirrored()) && ev.write.slot && ev.write.header ==> Mirrored()
    {
      hide Filter, ProcessLocally, RelayDecision, UpgradeRelay, PendingHopLimit, Retain, Dropped, Aligned, FramesOf,
        Unroll, WellBehaved, Mirrors, Lawful, ValidNodes, RingOk;
      var key := Key(h.sender, h.packetId);
      var pendingHop := PendingHopLimit(pendingRebroadcast, key);
      var verdict := router.ShouldFilterReceived(device.role, key, h.HopLimit(), h.relayNode, pendingHop);
      match verdict
      case New =>
        var o1 := ProcessNew(ev, h, d);
        var o2 := DecideRelay(ev, h);
        out := Join(Quiet.(log := [NewPacket(key)]), Join(o1, o2));
      case DuplicateUpgrade(newHop) =>
        Upgrade(key, ev, newHop);
        out := Quiet;
      case DuplicateCancelRelay =>
        out := Quiet.(log := CancelledLines(Dropped(pendingRebroadcast, RelayIsNotFor(key))));
        pendingRebroadcast := Retain(pendingRebroadcast, RelayIsNotFor(key));
      case DuplicateDrop =>
        out := Quiet;
    }

    method DispatchFrame(ev: RxEvent) returns (out: Out)
      requires Valid() && ev.frame.Valid()
      modifies this, device, nodeDb, router, router.history, router.opaqueSeen, storage, storage.slots, storage.flash
      ensures Valid() && (View(), out) == Dispatch(env, old(View()), ev)
      ensures old(Mirrored()) && ev.write.slot && ev.write.header ==> Mirrored()
    {
      hide HearOwnEcho, ReportUnknownKey, MaybeRelayOpaque, Flood, TryDecryptAndDecode, Aligned, FramesOf, Unroll,
        WellBehaved, Mirrors, ValidNodes, RingOk;
      if ev.frame.Runt? {
        return Quiet;
      }
      var h := ev.frame.hdr;
      if h.sender == device.myNodeNum {
        out := HearEcho(h);
        return;
      }
      var outcome := DecryptAndDecode(env.suite, h, ev.frame.body, device.View(), nodeDb.View(), priv);
      match outcome
      case PkiUnknownPubkey => out := ReportKeyless(ev, h);
      case Drop =>
        out := Quiet;
        if h.destination != device.myNodeNum {
          out := RelayUnread(ev, h);
        }
      case Decoded(d) => out := FloodPacket(ev, h, d);
    }

    // ---- The timers and the phone ----

    method Tick(now: nat) returns (out: Out)
      requires Valid()
      modifies `pendingPackets, nodeDb, device`nextPacketId
      ensures Valid() && (View(), out) == RetxTick(old(View()), now)
    {
      hide TickFrom, ReportGiveUps;
      var pending, toSend, gaveUp := TickRetransmissions(pendingPackets, now, nodeDb);
      pendingPackets := pending;
      var ble := ReportEach(gaveUp);
      out := Out(ResentFrames(toSend), ble, TickLines(toSend, gaveUp));
    }

    method ReportEach(gs: seq<GiveUp>) returns (ble: seq<BleMsg>)
      requires Valid()
      modifies device`nextPacketId
      ensures Valid() && (device.View(), ble) == ReportGiveUps(old(device.View()), gs)
      ensures View() == old(View()).(dev := device.View())
    {
      hide SendBleResult;
      ble := [];
      ghost var all := ReportGiveUps(device.View(), gs);
      assert gs[0..] == gs && ble + all.1 == all.1;
      for i := 0 to |gs|
        invariant Valid() && View() == old(View()).(dev := device.View())
        invariant var rest := ReportGiveUps(device.View(), gs[i..]);
                  all == (rest.0, ble + rest.1)
      {
        assert gs[i..][0] == gs[i] && gs[i..][1..] == gs[i + 1..];
        ghost var rest := ReportGiveUps(device.View(), gs[i..]);
        if gs[i].notify.Some? {
          var m := ReportToPhone(gs[i].notify.value, gs[i].packetId, MaxRetransmit);
          ghost var after := ReportGiveUps(device.View(), gs[i + 1..]);
          assert rest.1 == [m] + after.1;
          assert ble + ([m] + after.1) == ble + [m] + after.1;
          ble := ble + [m];
        }
      }
      assert gs[|gs|..] == [] && ble + [] == ble;
    }

    method Transmit(pkt: PhonePacket, packetId: u32, f: RadioFrame, now: nat) returns (out: Out)
      requires Valid()
      modifies `pendingPackets, `nextSerial, device`nextPacketId
      ensures Valid() && (View(), out) == TransmitFrame(old(View()), pkt, packetId, f, now)
    {
      hide SendBleResult, Aligned, FramesOf, Unroll, WellBehaved;
      var ackDest := if pkt.from == 0 then device.myNodeNum else pkt.from;
      if PhoneRequest(pkt).wantAck && pkt.to != BROADCAST_ADDR {
        if |pendingPackets| < MAX_PENDING {
          var e := PendingPacket(f, packetId, pkt.to, device.myNodeNum, now + WANT_ACK_TIMEOUT_MS, NUM_RELIABLE_RETX,
                                 true, Some(ackDest), nextSerial);
          pendingPackets := pendingPackets + [e];
          nextSerial := nextSerial + 1;
          return Out([f], [], [Tracking(e.serial, f)]);
        }
        var m := ReportToPhone(ackDest, pkt.id, NoError);
        return Out([f], [m], []);
      }
      var m := ReportToPhone(ackDest, pkt.id, NoError);
      out := Out([f], [m], []);
    }

    method HandleAdminHere(pkt: PhonePacket) returns (out: Out)
      requires Valid() && HandledLocally(View(), pkt)
      modifies `app, `lastNodeinfoTx, device, nodeDb
      ensures Valid() && (View(), out) == TransmitFromPhone(env, old(View()), pkt, 0, 0)
    {
      hide Adopt, SendBleResult;
      var a := AppState(app, device.View(), nodeDb.View(), lastNodeinfoTx);
      assert KeepsIdentityOf(a, env.admin(a, pkt.from, pkt.id, pkt.payload));
      out := AdoptEffect(env.admin(a, pkt.from, pkt.id, pkt.payload));
      if pkt.wantAck {
        var m := ReportToPhone(pkt.from, pkt.id, NoError);
        out := Join(out, Quiet.(ble := [m]));
      }
    }

    method TransmitFromBle(pkt: PhonePacket, now: nat, extraNonce: u32) returns (out: Out)
      requires Valid()
      modifies this, device, nodeDb
      ensures Valid() && (View(), out) == TransmitFromPhone(env, old(View()), pkt, now, extraNonce)
    {
      hide Adopt, SendBleResult, ChooseKey, Tx.Build, TransmitFrame, PhoneRequest, Aligned, FramesOf, Unroll;
      if HandledLocally(View(), pkt) {
        out := HandleAdminHere(pkt);
        return;
      }
      var packetId := pkt.id;
      if packetId == 0 {
        packetId := device.NextPacketId();
      }
      var choice := ChooseKey(View(), pkt);
      if choice.Refuse? {
        out := Quiet;
        if choice.report.Some? {
          var m := ReportToPhone(pkt.to, pkt.id, choice.report.value);
          out := Quiet.(ble := [m]);
        }
        return;
      }
      var keys := if choice.UsePkc? then Some(Tx.PkcKeys(priv, extraNonce)) else None;
      var f := Tx.BuildFrame(env.suite, device.View(), nodeDb.View(), PhoneRequest(pkt), packetId, keys);
      if f.None? {
        return Quiet;
      }
      out := Transmit(pkt, packetId, f.value, now);
    }

    /** A reception first pushes every retransmission back. */
    method ReceiveFrame(ev: RxEvent) returns (out: Out)
      requires Valid() && ev.frame.Valid()
      modifies this, device, nodeDb, router, router.history, router.opaqueSeen, storage, storage.slots, storage.flash
      ensures Valid() && (View(), out) == Step(env, old(View()), Rx(ev))
      ensures old(Mirrored()) && ev.write.slot && ev.write.header ==> Mirrored()
    {
      hide Dispatch, FireRelay, RetxTick, TransmitFromPhone, SendAll, Aligned, FramesOf, Unroll, WellBehaved, Mirrors,
        ValidNodes, RingOk;
      pendingPackets := ExtendPendingDeadlines(pendingPackets, RETX_AIRTIME_EXTENSION_MS);
      out := DispatchFrame(ev);
    }

    method BroadcastPeriodically(newApp: seq<u8>, lastTx: Option<nat>, sends: seq<Tx.TxRequest>) returns (out: Out)
      requires Valid()
      modifies `app, `lastNodeinfoTx, device`nextPacketId
      ensures Valid() && (View(), out) == Step(env, old(View()), Periodic(newApp, lastTx, sends))
    {
      hide SendAll, Dispatch, FireRelay, RetxTick, TransmitFromPhone, Aligned, FramesOf, Unroll, WellBehaved,
        ValidNodes, RingOk, Leading, Others, ReplayAll;
      var lora := SendEach(sends);
      app, lastNodeinfoTx := newApp, lastTx;
      out := Quiet.(lora := lora);
    }

    // ---- The phone's side and the flush ----

    /** Send the configuration, then the stored frames that can still be read. */
    method SendConfig(config: seq<seq<u8>>, outcomes: seq<WriteOutcome>) returns (out: Out)
      requires Valid()
      modifies storage, storage.slots, storage.flash
      ensures Valid() && (View(), out) == Step(env, old(View()), WantConfig(config, outcomes))
      ensures old(Mirrored()) && AllReachFlash(outcomes) ==> Mirrored()
    {
      hide Dispatch, FireRelay, RetxTick, TransmitFromPhone, SendAll, ReplayOne, ReplayAll, Leading, FramesOf, Window,
        Aligned, Mirrors, Unroll, WellBehaved, Lawful, Others, MessageRing.Ok, Blocked, Contents, Behind;
      ghost var before := storage.View();
      var frames := storage.ReplayStoredFrames(outcomes);
      ReplayTakes(before, storage.View(), frames);
      var replayed := DecodeEach(frames);
      out := Quiet.(ble := Others(config) + replayed);
    }

    method DecodeEach(frames: seq<StoredFrame>) returns (ble: seq<BleMsg>)
      requires Valid()
      ensures ble == ReplayAll(env, device.View(), ParsedFrames(frames))
    {
      hide DecodePskFrame, WellBehaved, Aligned, Unroll, ValidNodes, RingOk;
      ble := [];
      ghost var all := ParsedFrames(frames);
      for i := 0 to |frames|
        invariant ble == ReplayAll(env, device.View(), all[..i])
      {
        assert all[..i + 1][..i] == all[..i] && all[..i + 1][i] == Parse(frames[i]);
        assert ReplayAll(env, device.View(), all[..i + 1]) == ble + ReplayOne(env, device.View(), all[i]);
        var f := Parse(frames[i]);
        ParseIsInverseOfAsBytes(f, frames[i]);
        var decoded := DecodeStored(env.suite, f, device.View());
        if decoded.Some? {
          var d := decoded.value;
          ble := ble + [PacketMsg(f.hdr, d.channelIndex, d.portnum, d.payload, d.replyId, d.emoji, 0, 0)];
        }
      }
      assert all[..|frames|] == all;
    }

    /** Write a changed node table to flash; it stays marked as changed if the write fails. */
    method FlushTable(written: bool)
      requires Valid()
      modifies `savedTable, nodeDb`dirty
      ensures Valid() && View() == Step(env, old(View()), Flush(written)).0
      ensures !(old(nodeDb.dirty) && written) ==> savedTable == old(savedTable)
      ensures old(nodeDb.dirty) && written ==>
                exists order :: && Permutes(order, |nodeDb.nodes|) && NewestFirst(nodeDb.nodes, order)
                                && savedTable == SnapshotOf(nodeDb.nodes, order)
    {
      hide Permutes, NewestFirst, SnapshotOf, FramesOf, Aligned, Unroll, WellBehaved, Lawful, RingOk, Dispatch,
        FireRelay, RetxTick, TransmitFromPhone, SendAll, Leading;
      if nodeDb.dirty {
        var bytes, order := ToSnapshot(nodeDb);
        if written {
          savedTable := bytes;
          nodeDb.dirty := false;
        }
      }
    }

    /** One event of the node's loop. */
    method HandleEvent(e: Event) returns (out: Out)
      requires Valid() && (e.Rx? ==> e.ev.frame.Valid())
      modifies this, device, nodeDb, router, router.history, router.opaqueSeen, storage, storage.slots, storage.flash
      ensures Valid() && (View(), out) == Step(env, old(View()), e)
      ensures old(Mirrored()) && RingWritesSucceed(e) ==> Mirrored()
    {
      hide Dispatch, FireRelay, RetxTick, TransmitFromPhone, SendAll, WellBehaved, ValidNodes, Unroll, Aligned,
        FramesOf, Mirrors, Leading, Others, ReplayAll, RingOk;
      match e
      case Rx(ev) => out := ReceiveFrame(ev);
      case RelayTimer => out := FireNextRelay();
      case RetxTimer(now) => out := Tick(now);
      case Phone(pkt, at, extraNonce) => out := TransmitFromBle(pkt, at, extraNonce);
      case Periodic(newApp, lastTx, sends) => out := BroadcastPeriodically(newApp, lastTx, sends);
      case BleLink(connected) =>
        bleConnected := connected;
        out := Quiet;
      case Answer(messages) => out := Quiet.(ble := Others(messages));
      case WantConfig(config, outcomes) => out := SendConfig(config, outcomes);
      case Flush(written) =>
        FlushTable(written);
        out := Quiet;
    }

    /** The node's loop over any finite stretch of events: every result about runs of the state
        machine is one about this loop. */
    method HandleEvents(es: seq<Event>) returns (out: Out)
      requires Valid() && forall e :: e in es && e.Rx? ==> e.ev.frame.Valid()
      modifies this, device, nodeDb, router, router.history, router.opaqueSeen, storage, storage.slots, storage.flash
      ensures Valid() && (View(), out) == Run(env, old(View()), es)
      ensures old(Mirrored()) && (forall e :: e in es ==> RingWritesSucceed(e)) ==> Mirrored()
    {
      hide Step, Aligned, FramesOf, Unroll, Mirrors, RingWritesSucceed, WellBehaved, ValidNodes, RingOk;
      out := Quiet;
      for i := 0 to |es|
        invariant Valid() && (View(), out) == Run(env, old(View()), es[..i])
        invariant old(Mirrored()) && (forall e :: e in es ==> RingWritesSucceed(e)) ==> Mirrored()
      {
        assert es[..i + 1][..i] == es[..i] && es[i] in es;
        var o := HandleEvent(es[i]);
        out := Join(out, o);
      }
      assert es[..|es|] == es;
    }
  }
}
