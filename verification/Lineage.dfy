/** Every copy in the system is its originator's frame, with one hop spent per relay. */
module Lineage {
  import opened Bytes
  import opened Vecs
  import opened Rings
  import opened Packet
  import opened Channels
  import opened Device
  import opened NodeDb
  import opened Crypto
  import opened Tx
  import opened Receive
  import opened Router
  import opened Retransmit
  import opened Mesh
  import opened Network

  /** A frame as its originator sends it: the whole hop budget unspent. */
  predicate Unspent(f: RadioFrame) {
    f.Framed? && f.hdr.HopLimit() == f.hdr.HopStart() <= MAX_HOP_LIMIT
  }

  /** `f` is `origin` after `taken` relays: only hop limit and relay byte may differ. */
  predicate Descends(f: RadioFrame, taken: nat, origin: RadioFrame) {
    && Unspent(origin) && f.Framed?
    && f.hdr.HopLimit() + taken == f.hdr.HopStart() == origin.hdr.HopStart()
    && f.hdr.destination == origin.hdr.destination && f.hdr.sender == origin.hdr.sender
    && f.hdr.packetId == origin.hdr.packetId && f.hdr.WantAck() == origin.hdr.WantAck()
    && ViaMqttOf(f.hdr.flags) == ViaMqttOf(origin.hdr.flags)
    && f.hdr.channelIndex == origin.hdr.channelIndex && f.hdr.nextHop == origin.hdr.nextHop
    && f.body == origin.body
  }

  ghost predicate Genuine(f: RadioFrame, taken: nat, sent: seq<Transmission>) {
    exists o :: o in sent && Descends(f, taken, o.frame)
  }

  lemma GenuineGrows(f: RadioFrame, taken: nat, sent: seq<Transmission>, more: seq<Transmission>)
    requires Genuine(f, taken, sent)
    ensures Genuine(f, taken, sent + more)
  {
    var o :| o in sent && Descends(f, taken, o.frame);
    assert o in sent + more;
  }

  /** Relaying spends exactly one hop and rewrites nothing else of substance. */
  lemma RelayingSpendsOneHop(f: RadioFrame, taken: nat, sent: seq<Transmission>, relay: u8)
    requires Genuine(f, taken, sent) && f.hdr.HopLimit() > 0
    ensures Genuine(f.Rewritten(f.hdr.HopLimit() - 1, relay), taken + 1, sent)
  {
    var o :| o in sent && Descends(f, taken, o.frame);
    HopFieldsFitThreeBits(f.hdr.flags);
    SetHopLimitRewritesOnlyHopLimit(f.hdr.flags, f.hdr.HopLimit() - 1);
    assert Descends(f.Rewritten(f.hdr.HopLimit() - 1, relay), taken + 1, o.frame);
  }

  // ---- One node ----

  ghost predicate QueueGenuine(relays: seq<Relay>, sent: seq<Transmission>) {
    forall r :: r in relays ==> Genuine(r.frame, r.taken, sent)
  }

  /** A frame as node number `us` originates it. */
  predicate Ours(f: RadioFrame, us: u32) { Unspent(f) && f.hdr.sender == us }

  lemma OursIsGenuine(o: Transmission, us: u32, sent: seq<Transmission>)
    requires Ours(o.frame, us) && o in sent
    ensures Genuine(o.frame, 0, sent)
  {
    assert Descends(o.frame, 0, o.frame);
  }

  predicate PendingOurs(pending: seq<PendingPacket>, us: u32) { forall e :: e in pending ==> Ours(e.frame, us) }

  predicate AllOurs(fs: seq<RadioFrame>, us: u32) { forall f :: f in fs ==> Ours(f, us) }

  lemma SentFramesAreOurs(env: Env, dev: Device, db: Db, req: TxRequest)
    ensures AllOurs(Send(env, dev, db, req).1, dev.myNodeNum) && Send(env, dev, db, req).0.myNodeNum == dev.myNodeNum
  {
    hide EncryptedBody;
    var d := dev.AfterPacketId();
    if Build(env.suite, d, db, req, d.nextPacketId, None).Some? {
      BuiltFramesStartFresh(env.suite, d, db, req, d.nextPacketId, None);
    }
  }

  lemma {:induction false} SentAllAreOurs(env: Env, dev: Device, db: Db, reqs: seq<TxRequest>)
    ensures AllOurs(SendAll(env, dev, db, reqs).1, dev.myNodeNum)
    ensures SendAll(env, dev, db, reqs).0.myNodeNum == dev.myNodeNum
    decreases |reqs|
  {
    hide Send;
    if reqs != [] {
      SentFramesAreOurs(env, dev, db, reqs[0]);
      SentAllAreOurs(env, Send(env, dev, db, reqs[0]).0, db, reqs[1..]);
    }
  }

  lemma {:induction false} TickKeepsOurs(p: seq<PendingPacket>, i: nat, now: nat, db: Db, us: u32)
    requires i <= |p| && PendingOurs(p, us)
    ensures var t := TickFrom(p, i, now, db);
            PendingOurs(t.pending, us) && forall r :: r in t.toSend ==> Ours(r.frame, us)
    decreases |p| - i
  {
    hide Amend;
    if i < |p| {
      if now < p[i].deadline {
        TickKeepsOurs(p, i + 1, now, db, us);
      } else if p[i].retriesLeft > 0 {
        var e := Retried(p[i], now);
        assert Ours(e.frame, us);
        assert forall x :: x in p[i := e] ==> x == e || x in p;
        var d := if e.retriesLeft == 0 then Amend(db, e.dest, NodeDb.WithNextHop(NO_NEXT_HOP)) else db;
        TickKeepsOurs(p[i := e], i + 1, now, d, us);
      } else {
        SwapRemoveMembers(p, i);
        TickKeepsOurs(SwapRemove(p, i), i, now, db, us);
      }
    }
  }

  lemma ScheduleKeepsGenuine(relays: seq<Relay>, r: Relay, sent: seq<Transmission>)
    requires QueueGenuine(relays, sent) && Genuine(r.frame, r.taken, sent)
    ensures QueueGenuine(ScheduleRelay(relays, r).0, sent)
  {
    hide Genuine;
    if |relays| >= MAX_RELAYS {
      SwapRemoveMembers(relays, MinBy(relays, DeadlineOf()));
    }
  }

  lemma RescheduleKeepsGenuine(n: Node, ev: RxEvent, sent: seq<Transmission>)
    requires QueueGenuine(n.relays, sent) && Genuine(ev.frame, ev.taken, sent) && ev.frame.hdr.HopLimit() > 0
    ensures var (after, out) := Reschedule(n, ev, ev.frame.hdr.HopLimit() - 1);
            QueueGenuine(after.relays, sent) && after.pending == n.pending && out.lora == [] && after.dev == n.dev
  {
    hide ScheduleRelay;
    RelayingSpendsOneHop(ev.frame, ev.taken, sent, n.dev.LastByte());
    var frame := ev.frame.Rewritten(ev.frame.hdr.HopLimit() - 1, n.dev.LastByte());
    ScheduleKeepsGenuine(n.relays, Relay(frame, ev.now + ev.delay, ev.taken + 1), sent);
  }

  /** What holds of a node, and of what it just sent, given all transmissions so far. */
  ghost predicate NodeGenuine(n: Node, sent: seq<Transmission>) {
    QueueGenuine(n.relays, sent) && PendingOurs(n.pending, n.dev.myNodeNum)
  }

  lemma LocalProcessingSendsOurs(env: Env, n: Node, ev: RxEvent, h: PacketHeader, d: DecodedPayload)
    requires WellBehaved(env) && PendingOurs(n.pending, n.dev.myNodeNum)
    ensures var (after, out) := ProcessLocally(env, n, ev, h, d);
            && AllOurs(out.lora, n.dev.myNodeNum) && PendingOurs(after.pending, n.dev.myNodeNum)
            && after.relays == n.relays && after.dev.myNodeNum == n.dev.myNodeNum
  {
    hide Send, SendAll, Touch, Amend, Get, LearnRoute, SendBleResult, Ours;
    var (n1, o1) := NoteSender(n, ev, h);
    var (n2, o2) := MaybeRequestNodeinfo(env, n1, ev, h);
    IntroductionsAreOurs(env, n1, ev, h);
    var p := InboundOf(n2, ev, h, d);
    var n3 := StoreText(n2, ev, d);
    HandlersSendOurs(env, n3, ev, p, d.portnum);
    var (n4, o4) := RunHandler(env, n3, ev, p, d.portnum);
    SentFramesAreOurs(env, n4.dev, n4.db, AckRequest(h, d.channelIndex));
  }

  lemma IntroductionsAreOurs(env: Env, n: Node, ev: RxEvent, h: PacketHeader)
    ensures var (after, out) := MaybeRequestNodeinfo(env, n, ev, h);
            && AllOurs(out.lora, n.dev.myNodeNum)
            && after.pending == n.pending && after.relays == n.relays && after.dev.myNodeNum == n.dev.myNodeNum
  {
    hide Send, Get, Ours;
    SentFramesAreOurs(env, n.dev, n.db, NodeInfoRequest(env, n.dev, h.sender, true));
  }

  lemma HandlersSendOurs(env: Env, n: Node, ev: RxEvent, p: Inbound, portnum: i32)
    requires WellBehaved(env) && PendingOurs(n.pending, n.dev.myNodeNum)
    ensures var (after, out) := RunHandler(env, n, ev, p, portnum);
            && AllOurs(out.lora, n.dev.myNodeNum) && PendingOurs(after.pending, n.dev.myNodeNum)
            && after.relays == n.relays && after.dev.myNodeNum == n.dev.myNodeNum
  {
    hide SendAll, LearnRoute, Ours;
    if portnum == ROUTING_APP {
      var i := Position(n.pending, (e: PendingPacket) => e.packetId == p.requestId);
      if i < |n.pending| {
        SwapRemoveMembers(n.pending, i);
      }
    } else {
      var e := env.handle(AppOf(n), portnum, p, ev.now);
      SentAllAreOurs(env, e.state.dev, e.state.db, e.sends);
    }
  }

  lemma FloodKeepsGenuine(env: Env, n: Node, ev: RxEvent, d: DecodedPayload, sent: seq<Transmission>)
    requires WellBehaved(env) && NodeGenuine(n, sent) && Genuine(ev.frame, ev.taken, sent)
    ensures ev.frame.Framed?
    ensures var (after, out) := Flood(env, n, ev, ev.frame.hdr, d);
            && NodeGenuine(after, sent) && AllOurs(out.lora, n.dev.myNodeNum)
            && after.dev.myNodeNum == n.dev.myNodeNum
  {
    hide ProcessLocally, Reschedule, Filter, CancelledLines, Genuine, Ours;
    FramesOnly(ev.frame, ev.taken, sent);
    var h := ev.frame.hdr;
    var key := Key(h.sender, h.packetId);
    var pendingHop := PendingHopLimit(n.relays, key);
    var (verdict, recent) := Filter(n.recent, n.dev.LastByte(), n.dev.role, key, h.HopLimit(), h.relayNode, pendingHop);
    UpgradesNeedHops(n.recent, n.dev.LastByte(), n.dev.role, key, h.HopLimit(), h.relayNode, pendingHop);
    match verdict
    case New =>
      var n0 := n.(recent := recent);
      LocalProcessingSendsOurs(env, n0, ev, h, d);
      if h.HopLimit() > 0 {
        RescheduleKeepsGenuine(ProcessLocally(env, n0, ev, h, d).0, ev, sent);
      }
    case DuplicateUpgrade(newHop) =>
      RelayingSpendsOneHop(ev.frame, ev.taken, sent, n.dev.LastByte());
    case DuplicateCancelRelay =>
    case DuplicateDrop =>
  }

  lemma FramesOnly(f: RadioFrame, taken: nat, sent: seq<Transmission>)
    requires Genuine(f, taken, sent)
    ensures f.Framed?
  {}

  lemma DispatchKeepsGenuine(env: Env, n: Node, ev: RxEvent, sent: seq<Transmission>)
    requires WellBehaved(env) && NodeGenuine(n, sent) && Genuine(ev.frame, ev.taken, sent)
    ensures var (after, out) := Dispatch(env, n, ev);
            && NodeGenuine(after, sent) && AllOurs(out.lora, n.dev.myNodeNum)
            && after.dev.myNodeNum == n.dev.myNodeNum
  {
    hide OutcomeOf, Flood, Reschedule, RelayOpaque, Send, Genuine, Ours;
    FramesOnly(ev.frame, ev.taken, sent);
    var h := ev.frame.hdr;
    if h.sender == n.dev.myNodeNum {
      var i := Position(n.pending, (p: PendingPacket) => p.packetId == h.packetId);
      if i < |n.pending| {
        SwapRemoveMembers(n.pending, i);
      }
    } else {
      match OutcomeOf(env, n, ev.frame)
      case PkiUnknownPubkey => UnknownKeyReportsAreOurs(env, n, ev, h);
      case Drop =>
        if h.HopLimit() > 0 {
          var seen := RelayOpaque(n.opaqueSeen, Key(h.sender, h.packetId), h.HopStart(), h.HopLimit()).1;
          RescheduleKeepsGenuine(n.(opaqueSeen := seen), ev, sent);
        }
      case Decoded(d) => FloodKeepsGenuine(env, n, ev, d, sent);
    }
  }

  lemma UnknownKeyReportsAreOurs(env: Env, n: Node, ev: RxEvent, h: PacketHeader)
    ensures var (after, out) := ReportUnknownKey(env, n, ev, h);
            AllOurs(out.lora, n.dev.myNodeNum) && after.dev.myNodeNum == n.dev.myNodeNum
  {
    hide Send, Ours;
    var req := UnknownKeyReport(env, h);
    SentFramesAreOurs(env, n.dev, n.db, req);
    var d1 := if h.WantAck() then Send(env, n.dev, n.db, req).0 else n.dev;
    SentFramesAreOurs(env, d1, n.db, NodeInfoRequest(env, d1, h.sender, false));
  }

  lemma PhoneSendsOurs(env: Env, n: Node, pkt: PhonePacket, at: nat, extraNonce: u32)
    requires WellBehaved(env) && PendingOurs(n.pending, n.dev.myNodeNum)
    ensures var (after, out) := TransmitFromPhone(env, n, pkt, at, extraNonce);
            && AllOurs(out.lora, n.dev.myNodeNum) && PendingOurs(after.pending, n.dev.myNodeNum)
            && after.relays == n.relays && after.dev.myNodeNum == n.dev.myNodeNum
  {
    hide Build, ChooseKey, SendAll, PhoneRequest, SendBleResult, Ours, TransmitFrame;
    if HandledLocally(n, pkt) {
      var e := env.admin(AppOf(n), pkt.from, pkt.id, pkt.payload);
      SentAllAreOurs(env, e.state.dev, e.state.db, e.sends);
      ResultsKeepNumber(SendAll(env, e.state.dev, e.state.db, e.sends).0, pkt.from, pkt.id, NoError);
    } else {
      var dev := if pkt.id != 0 then n.dev else n.dev.AfterPacketId();
      var packetId := if pkt.id != 0 then pkt.id else dev.nextPacketId;
      var n1 := n.(dev := dev);
      var choice := ChooseKey(n1, pkt);
      var keys := if choice.UsePkc? then Some(PkcKeys(n.priv, extraNonce)) else None;
      BuiltIsOurs(env.suite, dev, n.db, PhoneRequest(pkt), packetId, keys);
      if choice.Refuse? && choice.report.Some? {
        ResultsKeepNumber(dev, pkt.to, pkt.id, choice.report.value);
      }
      var f := Build(env.suite, dev, n.db, PhoneRequest(pkt), packetId, keys);
      if f.Some? {
        TransmittedIsOurs(n1, pkt, packetId, f.value, at);
      }
    }
  }

  lemma ResultsKeepNumber(dev: Device, dest: u32, requestId: u32, error: RoutingError)
    ensures SendBleResult(dev, dest, requestId, error).0.myNodeNum == dev.myNodeNum
  {}

  lemma TransmittedIsOurs(n: Node, pkt: PhonePacket, packetId: u32, f: RadioFrame, now: nat)
    requires PendingOurs(n.pending, n.dev.myNodeNum) && Ours(f, n.dev.myNodeNum)
    ensures var (after, out) := TransmitFrame(n, pkt, packetId, f, now);
            && AllOurs(out.lora, n.dev.myNodeNum) && PendingOurs(after.pending, n.dev.myNodeNum)
            && after.relays == n.relays && after.dev.myNodeNum == n.dev.myNodeNum
  {
    hide PhoneRequest, Ours;
  }

  lemma BuiltIsOurs(s: Suite, dev: Device, db: Db, req: TxRequest, packetId: u32, keys: Option<PkcKeys>)
    ensures Build(s, dev, db, req, packetId, keys).Some? ==>
              Ours(Build(s, dev, db, req, packetId, keys).value, dev.myNodeNum)
  {
    hide EncryptedBody;
    if Build(s, dev, db, req, packetId, keys).Some? {
      BuiltFramesStartFresh(s, dev, db, req, packetId, keys);
    }
  }

  lemma {:induction false} ReportingKeepsNumber(dev: Device, gs: seq<GiveUp>)
    ensures ReportGiveUps(dev, gs).0.myNodeNum == dev.myNodeNum
    decreases |gs|
  {
    if gs != [] {
      ReportingKeepsNumber(if gs[0].notify.Some? then dev.AfterPacketId() else dev, gs[1..]);
    }
  }

  lemma ActKeepsGenuine(env: Env, n: Node, e: Event, sent: seq<Transmission>)
    requires WellBehaved(env) && NodeGenuine(n, sent) && Originates(e)
    ensures var (after, out) := Step(env, n, e);
            && NodeGenuine(after, sent) && AllOurs(out.lora, n.dev.myNodeNum)
            && after.dev.myNodeNum == n.dev.myNodeNum
  {
    hide TransmitFromPhone, SendAll, TickFrom, ReportGiveUps, Genuine, Ours;
    match e
    case RetxTimer(now) =>
      TickKeepsOurs(n.pending, 0, now, n.db, n.dev.myNodeNum);
      ReportingKeepsNumber(n.dev, TickFrom(n.pending, 0, now, n.db).gaveUp);
    case Phone(pkt, at, extraNonce) => PhoneSendsOurs(env, n, pkt, at, extraNonce);
    case Periodic(_, _, sends) => SentAllAreOurs(env, n.dev, n.db, sends);
    case _ =>
  }

  // ---- The network ----

  /** Every copy in flight and every queued relay descends from a recorded transmission, and every
      transmission bears the number of the node that made it. */
  ghost predicate AllGenuine(net: Net) {
    && (forall c :: c in net.air ==> Genuine(c.frame, c.taken, net.sent))
    && (forall n :: n in net.nodes ==> NodeGenuine(n, net.sent))
    && (forall c :: c in net.delivered ==> Genuine(c.frame, c.taken, net.sent))
    && (forall o :: o in net.sent ==> o.origin < |net.nodes| && Ours(o.frame, net.nodes[o.origin].dev.myNodeNum))
  }

  predicate SameNumbers(a: seq<Node>, b: seq<Node>) {
    |a| == |b| && forall i :: 0 <= i < |a| ==> a[i].dev.myNodeNum == b[i].dev.myNodeNum
  }

  lemma NodeGenuineGrows(n: Node, sent: seq<Transmission>, more: seq<Transmission>)
    requires NodeGenuine(n, sent)
    ensures NodeGenuine(n, sent + more)
  {
    hide Ours;
    forall r | r in n.relays
      ensures Genuine(r.frame, r.taken, sent + more)
    {
      GenuineGrows(r.frame, r.taken, sent, more);
    }
  }

  lemma NetGrows(net: Net, who: nat, more: seq<RadioFrame>, hears: (nat, nat) -> bool)
    requires AllGenuine(net) && who < |net.nodes| && AllOurs(more, net.nodes[who].dev.myNodeNum)
    ensures AllGenuine(net.(air := net.air + Emit(more, hears, |net.nodes|), sent := net.sent + SentBy(who, more)))
  {
    hide Genuine, NodeGenuine, Ours;
    var added := SentBy(who, more);
    forall x | x in net.nodes
      ensures NodeGenuine(x, net.sent + added)
    {
      NodeGenuineGrows(x, net.sent, added);
    }
    forall c | c in net.air + Emit(more, hears, |net.nodes|)
      ensures Genuine(c.frame, c.taken, net.sent + added)
    {
      if c in net.air {
        GenuineGrows(c.frame, c.taken, net.sent, added);
      } else {
        var k :| 0 <= k < |more| && more[k] == c.frame;
        assert added[k] in net.sent + added;
        OursIsGenuine(added[k], net.nodes[who].dev.myNodeNum, net.sent + added);
      }
    }
    forall c | c in net.delivered
      ensures Genuine(c.frame, c.taken, net.sent + added)
    {
      GenuineGrows(c.frame, c.taken, net.sent, added);
    }
  }

  lemma ReplaceNode(net: Net, i: nat, n: Node, air: seq<Copy>, delivered: seq<Copy>, adopted: seq<Copy>)
    requires AllGenuine(net) && i < |net.nodes| && NodeGenuine(n, net.sent)
    requires n.dev.myNodeNum == net.nodes[i].dev.myNodeNum
    requires forall c :: c in air ==> Genuine(c.frame, c.taken, net.sent)
    requires forall c :: c in delivered ==> Genuine(c.frame, c.taken, net.sent)
    ensures AllGenuine(Net(net.nodes[i := n], air, net.sent, delivered, adopted))
  {
    hide Genuine, NodeGenuine;
    assert forall x :: x in net.nodes[i := n] ==> x == n || x in net.nodes;
  }

  lemma DeliverKeepsGenuine(env: Env, net: Net, i: nat, ev: RxEvent, hears: (nat, nat) -> bool)
    requires WellBehaved(env) && AllGenuine(net) && i < |net.air| && net.air[i].to < |net.nodes|
    ensures AllGenuine(NetStep(env, net, Deliver(i, ev, hears)))
    ensures SameNumbers(net.nodes, NetStep(env, net, Deliver(i, ev, hears)).nodes)
  {
    hide Dispatch, Genuine, Ours;
    var c := net.air[i];
    var x := net.nodes[c.to];
    var rx := ev.(frame := c.frame, taken := c.taken);
    var extended := x.(pending := ExtendDeadlines(x.pending, RETX_AIRTIME_EXTENSION_MS));
    assert x in net.nodes && c in net.air;
    ExtendKeepsOurs(x.pending, x.dev.myNodeNum);
    DispatchKeepsGenuine(env, extended, rx, net.sent);
    var (n, out) := Dispatch(env, extended, rx);
    var adopted := net.adopted + if TakesUp(out.log) then [c] else [];
    ReplaceNode(net, c.to, n, Without(net.air, i), net.delivered + [c], adopted);
    var received := Net(net.nodes[c.to := n], Without(net.air, i), net.sent, net.delivered + [c], adopted);
    NetGrows(received, c.to, out.lora, hears);
  }

  lemma ExtendKeepsOurs(p: seq<PendingPacket>, us: u32)
    requires PendingOurs(p, us)
    ensures PendingOurs(ExtendDeadlines(p, RETX_AIRTIME_EXTENSION_MS), us)
  {
    hide Ours;
    var r := ExtendDeadlines(p, RETX_AIRTIME_EXTENSION_MS);
    forall e | e in r
      ensures Ours(e.frame, us)
    {
      var k :| 0 <= k < |r| && r[k] == e;
      assert p[k] in p;
    }
  }

  lemma FireKeepsGenuine(env: Env, net: Net, who: nat, hears: (nat, nat) -> bool)
    requires AllGenuine(net) && who < |net.nodes| && net.nodes[who].relays != []
    ensures AllGenuine(NetStep(env, net, Fire(who, hears)))
    ensures SameNumbers(net.nodes, NetStep(env, net, Fire(who, hears)).nodes)
  {
    hide Genuine, Ours;
    var x := net.nodes[who];
    var r := NextRelay(x);
    var copies := CopiesTo(r.frame, r.taken, hears, 0, |net.nodes|);
    assert x in net.nodes;
    SwapRemoveMembers(x.relays, MinBy(x.relays, DeadlineOf()));
    ReplaceNode(net, who, FireRelay(x).0, net.air + copies, net.delivered, net.adopted);
  }

  lemma ActGenuine(env: Env, net: Net, who: nat, e: Event, hears: (nat, nat) -> bool)
    requires WellBehaved(env) && AllGenuine(net) && who < |net.nodes| && Originates(e)
    ensures AllGenuine(NetStep(env, net, Act(who, e, hears)))
    ensures SameNumbers(net.nodes, NetStep(env, net, Act(who, e, hears)).nodes)
  {
    hide Step, Genuine, Ours, NodeGenuine;
    var x := net.nodes[who];
    assert x in net.nodes;
    ActKeepsGenuine(env, x, e, net.sent);
    var (n, out) := Step(env, x, e);
    ReplaceNode(net, who, n, net.air, net.delivered, net.adopted);
    NetGrows(net.(nodes := net.nodes[who := n]), who, out.lora, hears);
  }

  lemma NetStepKeepsGenuine(env: Env, net: Net, m: Move)
    requires WellBehaved(env) && AllGenuine(net)
    ensures AllGenuine(NetStep(env, net, m))
    ensures SameNumbers(net.nodes, NetStep(env, net, m).nodes)
  {
    hide Step, FireRelay, Emit, CopiesTo, Genuine, NodeGenuine;
    match m
    case Deliver(i, ev, hears) =>
      if i < |net.air| && net.air[i].to < |net.nodes| {
        DeliverKeepsGenuine(env, net, i, ev, hears);
      }
    case Fire(who, hears) =>
      if who < |net.nodes| && net.nodes[who].relays != [] {
        FireKeepsGenuine(env, net, who, hears);
      }
    case Act(who, e, hears) =>
      if who < |net.nodes| && Originates(e) {
        ActGenuine(env, net, who, e, hears);
      }
    case Lose(_) =>
  }

  /** In every state a network can reach from rest, every copy in flight, queued for relaying or
      received is some originated frame, unchanged but for hop limit and relay byte, with
      hop_limit plus the relays it has made equal to hop_start, at most seven; and every originated
      frame bears the number of the node that originated it. */
  lemma {:induction false} EveryCopyIsGenuine(env: Env, net: Net, ms: seq<Move>)
    requires WellBehaved(env) && Network.Quiet(net)
    ensures AllGenuine(NetRun(env, net, ms)) && SameNumbers(net.nodes, NetRun(env, net, ms).nodes)
    decreases |ms|
  {
    hide NetStep, Genuine, WellBehaved;
    if ms != [] {
      EveryCopyIsGenuine(env, net, ms[..|ms| - 1]);
      NetStepKeepsGenuine(env, NetRun(env, net, ms[..|ms| - 1]), ms[|ms| - 1]);
    }
  }

  /** Among nodes that all run this code the sender field of a copy names the node that originated it,
      and that node's frame is the one received, but for hops spent and the relay byte. */
  lemma TheSenderFieldIsTrue(env: Env, net: Net, ms: seq<Move>, c: Copy) returns (o: Transmission)
    requires WellBehaved(env) && Network.Quiet(net)
    requires var end := NetRun(env, net, ms);
             c in end.air || c in end.delivered
    ensures o in NetRun(env, net, ms).sent && Descends(c.frame, c.taken, o.frame)
    ensures o.origin < |net.nodes| && c.frame.Framed? && c.frame.hdr.sender == net.nodes[o.origin].dev.myNodeNum
  {
    hide NetRun, Unspent, WellBehaved;
    EveryCopyIsGenuine(env, net, ms);
    var end := NetRun(env, net, ms);
    o :| o in end.sent && Descends(c.frame, c.taken, o.frame);
  }
}
