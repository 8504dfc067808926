/** Traffic a node discards changes nothing but blind relaying, and what it cannot read for want of
    a key changes little more. */
module NonInterference {
  import opened Bytes
  import opened Vecs
  import opened Rings
  import opened Packet
  import opened Device
  import opened NodeDb
  import opened Crypto
  import opened Receive
  import opened Router
  import opened Retransmit
  import opened Mesh
  import Duplicates
  import opened Tx

  function Forget(recent: seq<PacketRecord>): (r: seq<PacketRecord>)
    ensures |r| == |recent| && forall i :: 0 <= i < |r| ==> r[i] == recent[i].(bestHopLimit := 0)
  {
    seq(|recent|, i requires 0 <= i < |recent| => recent[i].(bestHopLimit := 0))
  }

  /** All of a node's state but the relay queue, the opaque seen-set and best hop limits. */
  function Protected(n: Node): Node {
    n.(relays := [], opaqueSeen := [], recent := Forget(n.recent))
  }

  predicate Alike(a: Node, b: Node) { Protected(a) == Protected(b) }

  /** What leaves the node over the air and to the phone. */
  predicate SaysTheSame(a: Out, b: Out) { a.lora == b.lora && a.ble == b.ble }

  // ---- The filter sees only what is protected ----

  lemma ForgetCommutesWithRelayer(r: PacketRecord, relay: u8, hop: u8)
    ensures AddRelayer(r, relay).(bestHopLimit := hop) == AddRelayer(r.(bestHopLimit := hop), relay)
  {}

  lemma {:induction false} SamePosition(a: seq<PacketRecord>, b: seq<PacketRecord>, key: Key)
    requires Forget(a) == Forget(b)
    ensures Position(a, IsKey(key)) == Position(b, IsKey(key))
  {
    assert |a| == |Forget(a)| == |b|;
    assert forall k :: 0 <= k < |a| ==>
           a[k].(bestHopLimit := 0) == Forget(a)[k] == Forget(b)[k] == b[k].(bestHopLimit := 0);
    assert forall k :: 0 <= k < |a| ==> a[k].Id() == b[k].Id();
  }

  /** Two histories alike up to best hop limits call the same packets new, and stay alike
      whatever is queued for relaying. */
  lemma FilterIsBlindToQueues(a: seq<PacketRecord>, b: seq<PacketRecord>, ourByte: u8, role: DeviceRole, key: Key,
          hopLimit: u8, relayNode: u8, pa: Option<u8>, pb: Option<u8>)
    requires Forget(a) == Forget(b)
    ensures var (va, ra) := Filter(a, ourByte, role, key, hopLimit, relayNode, pa);
            var (vb, rb) := Filter(b, ourByte, role, key, hopLimit, relayNode, pb);
            (va.New? <==> vb.New?) && Forget(ra) == Forget(rb)
  {
    hide AddRelayer, Position;
    SamePosition(a, b, key);
    var i := Position(a, IsKey(key));
    var ra := Filter(a, ourByte, role, key, hopLimit, relayNode, pa).1;
    var rb := Filter(b, ourByte, role, key, hopLimit, relayNode, pb).1;
    if i < |a| {
      ForgetCommutesWithRelayer(a[i], relayNode, 0);
      ForgetCommutesWithRelayer(b[i], relayNode, 0);
      SameButOne(a, b, i, ra[i], rb[i]);
    } else {
      SamePushed(a, b, AddRelayer(NewRecord(key, hopLimit), relayNode));
    }
  }

  lemma SameRecords(a: seq<PacketRecord>, b: seq<PacketRecord>)
    requires Forget(a) == Forget(b)
    ensures |a| == |b| && forall k :: 0 <= k < |a| ==> a[k].(bestHopLimit := 0) == b[k].(bestHopLimit := 0)
  {
    assert |a| == |Forget(a)| == |b|;
    assert forall k :: 0 <= k < |a| ==>
           a[k].(bestHopLimit := 0) == Forget(a)[k] == Forget(b)[k] == b[k].(bestHopLimit := 0);
  }

  lemma SameButOne(a: seq<PacketRecord>, b: seq<PacketRecord>, i: nat, x: PacketRecord, y: PacketRecord)
    requires Forget(a) == Forget(b) && i < |a| && |a| == |b|
    requires x.(bestHopLimit := 0) == y.(bestHopLimit := 0)
    ensures Forget(a[i := x]) == Forget(b[i := y])
  {
    SameRecords(a, b);
  }

  lemma SamePushed(a: seq<PacketRecord>, b: seq<PacketRecord>, x: PacketRecord)
    requires Forget(a) == Forget(b)
    ensures Forget(PushBounded(a, x, DUPLICATE_RING_SIZE)) == Forget(PushBounded(b, x, DUPLICATE_RING_SIZE))
  {
    SameRecords(a, b);
  }

  // ---- Local processing sees only what is protected ----

  /** `b` with the protected state of `a`: the same node with other queues. */
  function Graft(a: Node, b: Node): Node { a.(relays := b.relays, opaqueSeen := b.opaqueSeen, recent := b.recent) }

  /** Local processing commutes with swapping queues and history for others. */
  lemma LocalProcessingIgnoresQueues(env: Env, a: Node, b: Node, ev: RxEvent, h: PacketHeader, d: DecodedPayload)
    ensures var (a', oa) := ProcessLocally(env, a, ev, h, d);
            var (b', ob) := ProcessLocally(env, Graft(a, b), ev, h, d);
            b' == Graft(a', b) && oa == ob
  {
    hide Tx.Build, Touch, Amend, Get, SendNodeInfo, LearnRoute, SendAll, Send;
    var (n1, _) := NoteSender(a, ev, h);
    var (m1, _) := NoteSender(Graft(a, b), ev, h);
    assert m1 == Graft(n1, b);
    var (n2, _) := MaybeRequestNodeinfo(env, n1, ev, h);
    var (m2, _) := MaybeRequestNodeinfo(env, m1, ev, h);
    assert m2 == Graft(n2, b);
    var p := InboundOf(n2, ev, h, d);
    assert StoreText(m2, ev, d) == Graft(StoreText(n2, ev, d), b);
    HandlersIgnoreQueues(env, StoreText(n2, ev, d), b, ev, p, d.portnum);
  }

  lemma HandlersIgnoreQueues(env: Env, a: Node, b: Node, ev: RxEvent, p: Inbound, portnum: i32)
    ensures var (a', oa) := RunHandler(env, a, ev, p, portnum);
            var (b', ob) := RunHandler(env, Graft(a, b), ev, p, portnum);
            b' == Graft(a', b) && oa == ob
  {
    hide LearnRoute, SendAll, SendBleResult;
  }

  lemma RelayDecisionTouchesOnlyTheQueue(n: Node, ev: RxEvent, h: PacketHeader)
    ensures var (after, out) := RelayDecision(n, ev, h);
            after == n.(relays := after.relays) && out.lora == [] && out.ble == []
  {
    hide ScheduleRelay;
  }

  // ---- Whole dispatches ----

  lemma FloodIsBlindToQueues(env: Env, a: Node, b: Node, ev: RxEvent, d: DecodedPayload)
    requires Alike(a, b) && ev.frame.Framed?
    ensures var (a', oa) := Flood(env, a, ev, ev.frame.hdr, d);
            var (b', ob) := Flood(env, b, ev, ev.frame.hdr, d);
            Alike(a', b') && SaysTheSame(oa, ob)
  {
    hide ProcessLocally, RelayDecision, Filter, PendingHopLimit, UpgradeRelay, CancelledLines;
    var h := ev.frame.hdr;
    var key := Key(h.sender, h.packetId);
    var pa, pb := PendingHopLimit(a.relays, key), PendingHopLimit(b.relays, key);
    FilterIsBlindToQueues(a.recent, b.recent, a.dev.LastByte(), a.dev.role, key, h.HopLimit(), h.relayNode, pa, pb);
    var (va, ra) := Filter(a.recent, a.dev.LastByte(), a.dev.role, key, h.HopLimit(), h.relayNode, pa);
    var (vb, rb) := Filter(b.recent, b.dev.LastByte(), b.dev.role, key, h.HopLimit(), h.relayNode, pb);
    if va.New? {
      var a0, b0 := a.(recent := ra), b.(recent := rb);
      assert b0 == Graft(a0, b0);
      LocalProcessingIgnoresQueues(env, a0, b0, ev, h, d);
      Duplicates.ProcessingKeepsHistory(env, a0, ev, h, d);
      RelayDecisionTouchesOnlyTheQueue(ProcessLocally(env, a0, ev, h, d).0, ev, h);
      RelayDecisionTouchesOnlyTheQueue(ProcessLocally(env, b0, ev, h, d).0, ev, h);
    }
  }

  lemma OutcomeIsProtected(env: Env, a: Node, b: Node, f: RadioFrame)
    requires Alike(a, b) && f.Framed?
    ensures OutcomeOf(env, a, f) == OutcomeOf(env, b, f)
  {
    hide TryDecryptAndDecode;
  }

  lemma OpaqueRelayingTouchesOnlyQueues(n: Node, ev: RxEvent, h: PacketHeader)
    ensures var (after, out) := MaybeRelayOpaque(n, ev, h);
            Alike(after, n) && out.lora == [] && out.ble == []
  {
    hide ScheduleRelay, RelayOpaque;
  }

  /** Nodes alike in what is protected stay alike and say the same on every frame. */
  lemma DispatchIsBlindToQueues(env: Env, a: Node, b: Node, ev: RxEvent)
    requires Alike(a, b)
    ensures var (a', oa) := Dispatch(env, a, ev);
            var (b', ob) := Dispatch(env, b, ev);
            Alike(a', b') && SaysTheSame(oa, ob)
  {
    hide OutcomeOf, Flood, MaybeRelayOpaque, SendNodeInfo, Send;
    if ev.frame.Framed? && ev.frame.hdr.sender != a.dev.myNodeNum {
      OutcomeIsProtected(env, a, b, ev.frame);
      match OutcomeOf(env, a, ev.frame)
      case PkiUnknownPubkey =>
      case Drop =>
        OpaqueRelayingTouchesOnlyQueues(a, ev, ev.frame.hdr);
        OpaqueRelayingTouchesOnlyQueues(b, ev, ev.frame.hdr);
      case Decoded(d) => FloodIsBlindToQueues(env, a, b, ev, d);
    }
  }

  /** A frame, not claiming to be ours, that is neither decoded nor answered with an unknown-key
      report. */
  predicate Discarded(env: Env, n: Node, ev: RxEvent) {
    ev.frame.Framed? && ev.frame.hdr.sender != n.dev.myNodeNum && OutcomeOf(env, n, ev.frame).Drop?
  }

  lemma DiscardedFramesChangeNothingProtected(env: Env, n: Node, ev: RxEvent)
    requires Discarded(env, n, ev)
    ensures var (after, out) := Dispatch(env, n, ev);
            Alike(after, n) && out.lora == [] && out.ble == []
  {
    hide OutcomeOf, MaybeRelayOpaque;
    OpaqueRelayingTouchesOnlyQueues(n, ev, ev.frame.hdr);
  }

  // ---- Frames for which a key is missing ----

  /** A frame, not claiming to be ours, that could not be read for want of its sender's key. */
  predicate LacksKey(env: Env, n: Node, ev: RxEvent) {
    ev.frame.Framed? && ev.frame.hdr.sender != n.dev.myNodeNum && OutcomeOf(env, n, ev.frame).PkiUnknownPubkey?
  }

  /** The messages such a frame is answered with: a report if it wants an ACK, and an introduction
      if the airtime allows. */
  function AnswersOwed(ev: RxEvent): nat
    requires ev.frame.Framed?
  {
    (if ev.frame.hdr.WantAck() then 1 else 0) + if ev.impoliteOk then 1 else 0
  }

  function Advanced(dev: Device, k: nat): Device {
    dev.(nextPacketId := (dev.nextPacketId + k) % 0x1_0000_0000)
  }

  /** `out` is at most `k` fresh frames of ours, all to `dest`. */
  ghost predicate AnswersTo(fs: seq<RadioFrame>, us: u32, dest: u32, k: nat) {
    |fs| <= k && forall f :: f in fs ==> f.Framed? && f.hdr.sender == us && f.hdr.destination == dest
  }

  lemma SendAnswers(env: Env, dev: Device, db: Db, req: TxRequest)
    ensures var (d, fs) := Send(env, dev, db, req);
            d == Advanced(dev, 1) && AnswersTo(fs, dev.myNodeNum, req.dest, 1)
  {
    hide EncryptedBody;
    var d := dev.AfterPacketId();
    if Build(env.suite, d, db, req, d.nextPacketId, None).Some? {
      BuiltFramesStartFresh(env.suite, d, db, req, d.nextPacketId, None);
    }
  }

  lemma AdvancedTwice(dev: Device)
    ensures Advanced(Advanced(dev, 1), 1) == Advanced(dev, 2)
    ensures Advanced(dev, 0) == dev
  {}

  /** A frame whose key is missing moves our packet counter by exactly the answers owed and sends
      at most those, to its sender. Nothing else of the node changes, queues included, and the phone
      and the log are told nothing. */
  lemma WhatAMissingKeyChanges(env: Env, n: Node, ev: RxEvent)
    requires LacksKey(env, n, ev)
    ensures var (after, out) := Dispatch(env, n, ev);
            && after == n.(dev := Advanced(n.dev, AnswersOwed(ev)))
            && AnswersTo(out.lora, n.dev.myNodeNum, ev.frame.hdr.sender, AnswersOwed(ev))
            && out.ble == [] && out.log == []
  {
    hide OutcomeOf, Send;
    var h := ev.frame.hdr;
    var report := UnknownKeyReport(env, h);
    SendAnswers(env, n.dev, n.db, report);
    var d1 := if h.WantAck() then Send(env, n.dev, n.db, report).0 else n.dev;
    SendAnswers(env, d1, n.db, NodeInfoRequest(env, d1, h.sender, false));
    AdvancedTwice(n.dev);
  }

  // ---- Frames that claim to be ours ----

  /** A frame that bears our own number, whoever sent it. */
  predicate ClaimsToBeOurs(n: Node, ev: RxEvent) { ev.frame.Framed? && ev.frame.hdr.sender == n.dev.myNodeNum }

  /** A frame that claims to be ours ends the tracking of the first packet under its id, if there is
      one, and the phone is not told. It changes nothing else and sends nothing. */
  lemma WhatAnEchoChanges(env: Env, n: Node, ev: RxEvent)
    requires ClaimsToBeOurs(n, ev)
    ensures var (after, out) := Dispatch(env, n, ev);
            && out.lora == [] && out.ble == [] && after == n.(pending := after.pending)
            && if forall e :: e in n.pending ==> e.packetId != ev.frame.hdr.packetId then
                 after == n && out == Quiet
               else
                 exists i ::
                   && 0 <= i < |n.pending| && n.pending[i].packetId == ev.frame.hdr.packetId
                   && (forall k :: 0 <= k < i ==> n.pending[k].packetId != ev.frame.hdr.packetId)
                   && after.pending == SwapRemove(n.pending, i) && out.log == [EchoHeard(n.pending[i].serial)]
  {
    hide SwapRemove;
    var i := Position(n.pending, (p: PendingPacket) => p.packetId == ev.frame.hdr.packetId);
    if i < |n.pending| {
      assert n.pending[i] in n.pending;
    }
  }

  /** Every frame is too short to have a header, claims to be ours, is discarded, lacks a key, or has
      been decoded: what the first four may change is stated above, and a runt changes nothing. */
  lemma FramesAreOfFiveKinds(env: Env, n: Node, ev: RxEvent)
    ensures !ev.frame.Framed? ==> Dispatch(env, n, ev) == (n, Quiet)
    ensures ev.frame.Framed? ==>
              || ClaimsToBeOurs(n, ev) || Discarded(env, n, ev) || LacksKey(env, n, ev)
              || OutcomeOf(env, n, ev.frame).Decoded?
  {
    hide OutcomeOf, HearOwnEcho, Flood, ReportUnknownKey, MaybeRelayOpaque;
  }

  // ---- Sequences of dispatches ----

  function DispatchAll(env: Env, n: Node, evs: seq<RxEvent>): (Node, Out)
    decreases |evs|
  {
    if evs == [] then (n, Quiet)
    else
      var (n1, o1) := Dispatch(env, n, evs[0]);
      var (n2, o2) := DispatchAll(env, n1, evs[1..]);
      (n2, Join(o1, o2))
  }

  /** The same receptions with every discarded frame deleted. */
  function Purge(env: Env, n: Node, evs: seq<RxEvent>): seq<RxEvent>
    decreases |evs|
  {
    if evs == [] then []
    else (if Discarded(env, n, evs[0]) then [] else [evs[0]]) + Purge(env, Dispatch(env, n, evs[0]).0, evs[1..])
  }

  /** Deleting all discarded frames from any sequence of receptions changes neither the
      protected state reached nor anything sent over the air or to the phone. */
  lemma {:induction false} DiscardedTrafficDoesNotInterfere(env: Env, n: Node, m: Node, evs: seq<RxEvent>)
    requires Alike(n, m)
    ensures var (n', on) := DispatchAll(env, n, evs);
            var (m', om) := DispatchAll(env, m, Purge(env, n, evs));
            Alike(n', m') && SaysTheSame(on, om)
    decreases |evs|
  {
    hide Dispatch, Discarded;
    if evs != [] {
      var ev, rest := evs[0], evs[1..];
      var (n1, o1) := Dispatch(env, n, ev);
      var kept := Purge(env, n1, rest);
      if Discarded(env, n, ev) {
        DiscardedFramesChangeNothingProtected(env, n, ev);
        DiscardedTrafficDoesNotInterfere(env, n1, m, rest);
        assert Purge(env, n, evs) == kept;
        var o2 := DispatchAll(env, n1, rest).1;
        assert [] + o2.lora == o2.lora && [] + o2.ble == o2.ble;
      } else {
        DispatchIsBlindToQueues(env, n, m, ev);
        DiscardedTrafficDoesNotInterfere(env, n1, Dispatch(env, m, ev).0, rest);
        assert Purge(env, n, evs) == [ev] + kept && ([ev] + kept)[1..] == kept;
      }
    }
  }
}
