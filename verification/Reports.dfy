/** What the phone is told about the packets it asked to have tracked. */
module Reports {
  import opened Bytes
  import opened Vecs
  import opened Packet
  import opened Device
  import opened NodeDb
  import opened Receive
  import opened Router
  import opened Retransmit
  import opened Mesh
  import opened Processing
  import opened Lifecycle
  import opened Retries
  import Tx

  datatype Report = Report(requestId: u32, error: RoutingError)

  function ReportIn(m: BleMsg): seq<Report> { if m.ResultMsg? then [Report(m.requestId, m.error)] else [] }

  /** The results among the messages to the phone, in order. */
  function ReportsIn(ble: seq<BleMsg>): seq<Report> {
    if ble == [] then [] else ReportIn(ble[0]) + ReportsIn(ble[1..])
  }

  /** What a log line calls for: success when a routing message clears a packet, whatever it says,
      MaxRetransmit for giving up, and nothing for an overheard echo or anything else. */
  function DueFor(log: seq<Line>, l: Line): seq<Report> {
    if !l.Acked? && !l.GaveUpOn? then []
    else match TrackedFrame(log, l.serial)
         case None => []
         case Some(f) => [Report(PacketIdOf(f), if l.Acked? then NoError else MaxRetransmit)]
  }

  function Due(log: seq<Line>, lines: seq<Line>): seq<Report>
    decreases |lines|
  {
    if lines == [] then [] else DueFor(log, lines[0]) + Due(log, lines[1..])
  }

  ghost predicate NoReports(ble: seq<BleMsg>) { forall m :: m in ble ==> !m.ResultMsg? }

  /** Apart from that for routing messages, no handler of received packets reports results to the phone. */
  ghost predicate SilentHandlers(env: Env) {
    forall a, portnum, p, now :: NoReports(env.handle(a, portnum, p, now).ble)
  }

  lemma {:induction false} ReportsConcat(a: seq<BleMsg>, b: seq<BleMsg>)
    ensures ReportsIn(a + b) == ReportsIn(a) + ReportsIn(b)
  {
    if a == [] {
      assert a + b == b;
    } else {
      assert (a + b)[1..] == a[1..] + b;
      ReportsConcat(a[1..], b);
    }
  }

  lemma {:induction false} SilenceReportsNothing(ble: seq<BleMsg>)
    requires NoReports(ble)
    ensures ReportsIn(ble) == []
  {
    if ble != [] {
      SilenceReportsNothing(ble[1..]);
    }
  }

  lemma {:induction false} DueConcat(log: seq<Line>, a: seq<Line>, b: seq<Line>)
    ensures Due(log, a + b) == Due(log, a) + Due(log, b)
  {
    if a == [] {
      assert a + b == b;
    } else {
      assert (a + b)[1..] == a[1..] + b;
      DueConcat(log, a[1..], b);
    }
  }

  ghost predicate NothingEnds(lines: seq<Line>) { forall l :: l in lines ==> !l.Acked? && !l.GaveUpOn? }

  lemma {:induction false} NothingDue(log: seq<Line>, lines: seq<Line>)
    requires NothingEnds(lines)
    ensures Due(log, lines) == []
  {
    if lines != [] {
      NothingDue(log, lines[1..]);
    }
  }

  /** Nothing reported, and nothing that calls for a report. */
  lemma QuietIsSettled(log: seq<Line>, out: Out)
    requires NoReports(out.ble) && NothingEnds(out.log)
    ensures ReportsIn(out.ble) == Due(log, out.log)
  {
    SilenceReportsNothing(out.ble);
    NothingDue(log, out.log);
  }

  // ---- Routing messages ----

  lemma RoutingReports(env: Env, n: Node, log: seq<Line>, p: Inbound)
    requires AllHold(log, n.pending)
    ensures var out := HandleRouting(env, n, p).1;
            ReportsIn(out.ble) == Due(log, out.log)
  {
    hide LearnRoute, TrackedFrame;
    var i := Position(n.pending, (e: PendingPacket) => e.packetId == p.requestId);
    var out := HandleRouting(env, n, p).1;
    if env.routingDecodes(p.payload) && p.requestId != 0 && i < |n.pending| {
      var e := n.pending[i];
      assert HoldsPacket(log, e);
      var m := SendBleResult(n.dev, e.bleNotify.value, e.packetId, NoError).1;
      assert out.ble == [m] && out.log == [Acked(e.serial)];
      assert ReportsIn([m]) == ReportIn(m) + ReportsIn([]) == [Report(e.packetId, NoError)];
      assert Due(log, [Acked(e.serial)]) == DueFor(log, Acked(e.serial)) + Due(log, []);
    }
  }

  lemma HandlersReport(env: Env, n: Node, log: seq<Line>, ev: RxEvent, p: Inbound, portnum: i32)
    requires AllHold(log, n.pending) && SilentHandlers(env)
    ensures var out := RunHandler(env, n, ev, p, portnum).1;
            ReportsIn(out.ble) == Due(log, out.log)
  {
    hide SendAll, HandleRouting, AllHold;
    if portnum == Tx.ROUTING_APP {
      RoutingReports(env, n, log, p);
    } else {
      QuietIsSettled(log, RunHandler(env, n, ev, p, portnum).1);
    }
  }

  /** All that local processing reports, the handler does. */
  lemma OnlyTheHandlerReports(env: Env, n: Node, ev: RxEvent, h: PacketHeader, d: DecodedPayload)
    ensures var (x, p) := HandlerInput(env, n, ev, h, d);
            var out, handled := ProcessLocally(env, n, ev, h, d).1, RunHandler(env, x, ev, p, d.portnum).1;
            ReportsIn(out.ble) == ReportsIn(handled.ble)
  {
    hide Send, SendNodeInfo, Touch, Amend, Get, RunHandler, ReportsIn, WithHops, HopsAway;
    var (n1, o1) := NoteSender(n, ev, h);
    var (n2, o2) := MaybeRequestNodeinfo(env, n1, ev, h);
    var (x, p) := HandlerInput(env, n, ev, h, d);
    var (n4, o4) := RunHandler(env, x, ev, p, d.portnum);
    var o5 := ForwardToBle(n4, ev, h, d, p.addressedToUs);
    assert ProcessLocally(env, n, ev, h, d).1.ble == o1.ble + o4.ble + o5.ble;
    SilenceAround(o1.ble, o4.ble, o5.ble);
  }

  lemma LocalProcessingReports(env: Env, n: Node, log: seq<Line>, ev: RxEvent, h: PacketHeader, d: DecodedPayload)
    requires AllHold(log, n.pending) && SilentHandlers(env)
    ensures var out := ProcessLocally(env, n, ev, h, d).1;
            ReportsIn(out.ble) == Due(log, out.log)
  {
    hide ProcessLocally, RunHandler, HandlerInput, AllHold, ReportsIn, Due;
    OnlyTheHandlerLogs(env, n, ev, h, d);
    OnlyTheHandlerReports(env, n, ev, h, d);
    var (x, p) := HandlerInput(env, n, ev, h, d);
    HandlersReport(env, x, log, ev, p, d.portnum);
  }

  lemma SilenceAround(a: seq<BleMsg>, b: seq<BleMsg>, c: seq<BleMsg>)
    requires NoReports(a) && NoReports(c)
    ensures ReportsIn(a + b + c) == ReportsIn(b)
  {
    ReportsConcat(a + b, c);
    ReportsConcat(a, b);
    SilenceReportsNothing(a);
    SilenceReportsNothing(c);
  }

  lemma FloodReports(env: Env, n: Node, log: seq<Line>, ev: RxEvent, h: PacketHeader, d: DecodedPayload)
    requires AllHold(log, n.pending) && SilentHandlers(env)
    ensures var out := Flood(env, n, ev, h, d).1;
            ReportsIn(out.ble) == Due(log, out.log)
  {
    hide ProcessLocally, Filter, PendingHopLimit, UpgradeRelay, AllHold, ReportsIn, Due;
    var key := Key(h.sender, h.packetId);
    var (verdict, recent) :=
      Filter(n.recent, n.dev.LastByte(), n.dev.role, key, h.HopLimit(), h.relayNode, PendingHopLimit(n.relays, key));
    var n0 := n.(recent := recent);
    var out := Flood(env, n, ev, h, d).1;
    if verdict.New? {
      LocalProcessingReports(env, n0, log, ev, h, d);
      var (n1, o1) := ProcessLocally(env, n0, ev, h, d);
      var (n2, o2) := RelayDecision(n1, ev, h);
      var first := [NewPacket(key)];
      assert out.ble == o1.ble && out.log == first + (o1.log + o2.log);
      DueConcat(log, first, o1.log + o2.log);
      DueConcat(log, o1.log, o2.log);
      NothingDue(log, first);
      NothingDue(log, o2.log);
    } else {
      QuietIsSettled(log, out);
    }
  }

  lemma DispatchReports(env: Env, n: Node, log: seq<Line>, ev: RxEvent)
    requires AllHold(log, n.pending) && SilentHandlers(env)
    ensures var out := Dispatch(env, n, ev).1;
            ReportsIn(out.ble) == Due(log, out.log)
  {
    hide OutcomeOf, Flood, MaybeRelayOpaque, SendNodeInfo, Send, AllHold, ReportsIn, Due;
    var out := Dispatch(env, n, ev).1;
    if ev.frame.Framed? && ev.frame.hdr.sender != n.dev.myNodeNum {
      var h := ev.frame.hdr;
      var outcome := OutcomeOf(env, n, ev.frame);
      if outcome.Decoded? {
        FloodReports(env, n, log, ev, h, outcome.d);
        return;
      }
      OpaqueIsIdle(n, ev, h);
      OpaqueTellsNothing(n, ev, h);
    }
    QuietIsSettled(log, out);
  }

  lemma OpaqueTellsNothing(n: Node, ev: RxEvent, h: PacketHeader)
    ensures MaybeRelayOpaque(n, ev, h).1.ble == []
  {
    hide RelayOpaque, HopLimitOf, HopStartOf;
  }

  // ---- Giving up ----

  lemma {:induction false} GiveUpComesFrom(p: seq<PendingPacket>, now: nat, g: GiveUp) returns (e: PendingPacket)
    requires g in AllGiveUps(p, now)
    ensures e in p && g == GiveUp(e.serial, e.bleNotify, e.packetId)
  {
    if g in GivesUp(p[0], now) {
      e := p[0];
    } else {
      e := GiveUpComesFrom(p[1..], now, g);
    }
  }

  /** A give-up that names the packet tracked under its serial. */
  predicate NamesPacket(log: seq<Line>, g: GiveUp) {
    var t := TrackedFrame(log, g.serial);
    t.Some? && g.packetId == PacketIdOf(t.value) && g.notify.Some?
  }

  lemma TickNamesPackets(n: Node, log: seq<Line>, now: nat)
    requires AllHold(log, n.pending)
    ensures forall g :: g in TickFrom(n.pending, 0, now, n.db).gaveUp ==> NamesPacket(log, g)
  {
    hide TickFrom, TrackedFrame;
    var t := TickFrom(n.pending, 0, now, n.db);
    TickHandlesEachExpiredEntryOnce(n.pending, now, n.db);
    forall g | g in t.gaveUp
      ensures NamesPacket(log, g)
    {
      assert g in multiset(AllGiveUps(n.pending, now));
      var e := GiveUpComesFrom(n.pending, now, g);
      assert HoldsPacket(log, e);
    }
  }

  lemma {:induction false} GiveUpsReported(dev: Device, log: seq<Line>, gs: seq<GiveUp>)
    requires forall g :: g in gs ==> NamesPacket(log, g)
    ensures ReportsIn(ReportGiveUps(dev, gs).1) == Due(log, GaveUpLines(gs))
    decreases |gs|
  {
    hide TrackedFrame;
    if gs != [] {
      assert NamesPacket(log, gs[0]);
      var (d, m) := SendBleResult(dev, gs[0].notify.value, gs[0].packetId, MaxRetransmit);
      GiveUpsReported(d, log, gs[1..]);
      var rest := ReportGiveUps(d, gs[1..]).1;
      assert ([m] + rest)[1..] == rest;
      assert GaveUpLines(gs)[1..] == GaveUpLines(gs[1..]);
    }
  }

  lemma TickReports(n: Node, log: seq<Line>, now: nat)
    requires AllHold(log, n.pending)
    ensures var out := RetxTick(n, now).1;
            ReportsIn(out.ble) == Due(log, out.log)
  {
    hide TickFrom, ReportGiveUps, AllHold, NamesPacket, ReportsIn, Due;
    var t := TickFrom(n.pending, 0, now, n.db);
    TickNamesPackets(n, log, now);
    GiveUpsReported(n.dev, log, t.gaveUp);
    assert TickLines(t.toSend, t.gaveUp) == ResentLines(t.toSend) + GaveUpLines(t.gaveUp);
    DueConcat(log, ResentLines(t.toSend), GaveUpLines(t.gaveUp));
    NothingDue(log, ResentLines(t.toSend));
  }

  // ---- Steps and runs ----

  lemma StepReports(env: Env, n: Node, log: seq<Line>, e: Event)
    requires AllHold(log, n.pending) && SilentHandlers(env) && !e.Phone?
    ensures var out := Step(env, n, e).1;
            ReportsIn(out.ble) == Due(log, out.log)
  {
    hide Dispatch, RetxTick, SendAll, AllHold, ReportsIn, Due;
    match e
    case Rx(ev) =>
      var x := ExtendDeadlines(n.pending, RETX_AIRTIME_EXTENSION_MS);
      SamePendingWaits(x);
      ExtendingWaits(n.pending, RETX_AIRTIME_EXTENSION_MS, x);
      WaitingHolds(log, [], n.pending, x);
      assert log + [] == log;
      DispatchReports(env, n.(pending := x), log, ev);
    case RetxTimer(now) => TickReports(n, log, now);
    case _ => QuietIsSettled(log, Step(env, n, e).1);
  }

  /** The messages a run sends the phone other than in direct answer to what the phone sends. */
  function Unprompted(env: Env, n: Node, es: seq<Event>): seq<BleMsg> {
    if es == [] then []
    else
      var init, last := es[..|es| - 1], es[|es| - 1];
      Unprompted(env, n, init) + (if last.Phone? then [] else Step(env, Run(env, n, init).0, last).1.ble)
  }

  ghost predicate EndedAreTracked(log: seq<Line>, lines: seq<Line>) {
    forall l :: l in lines && (l.Acked? || l.GaveUpOn?) ==> TrackedFrame(log, l.serial).Some?
  }

  lemma BalancedIsTracked(n: Node, log: seq<Line>, l: Line)
    requires l in log && (l.Acked? || l.GaveUpOn?) && Balanced(n, log, l.serial)
    ensures TrackedFrame(log, l.serial).Some?
  {
    var s := l.serial;
    var i :| 0 <= i < |log| && log[i] == l;
    SumAtLeast(log, i, Ends(s));
    if forall x :: x in log ==> !TracksSerial(s)(x) {
      SumZero(log, Begins(s));
    }
  }

  lemma {:induction false} DueStays(log: seq<Line>, more: seq<Line>, lines: seq<Line>)
    requires EndedAreTracked(log, lines)
    ensures Due(log + more, lines) == Due(log, lines)
  {
    if lines != [] {
      DueStays(log, more, lines[1..]);
      if lines[0].Acked? || lines[0].GaveUpOn? {
        TrackedFrameStays(log, more, lines[0].serial);
      }
    }
  }

  /** Over every run, what the phone is told unprompted is exactly one success for each routing
      message that cleared a packet and one MaxRetransmit for each exhaustion, in the order they
      happened, each naming the packet as it was first sent, and never anything for an echo. */
  lemma {:induction false} ThePhoneIsToldExactlyTheOutcomes(env: Env, n: Node, es: seq<Event>)
    requires NothingTracked(n) && SilentHandlers(env)
    ensures var log := Run(env, n, es).1.log;
            ReportsIn(Unprompted(env, n, es)) == Due(log, log)
    decreases |es|
  {
    hide Step, Balanced, AllHold, RetriesFaithful, ReportsIn, Due, NothingEnds, TrackedFrame;
    if es == [] {
      NothingDue([], []);
      SilenceReportsNothing([]);
    } else {
      var init, last := es[..|es| - 1], es[|es| - 1];
      ThePhoneIsToldExactlyTheOutcomes(env, n, init);
      var (n1, o1) := Run(env, n, init);
      var out := Step(env, n1, last).1;
      EveryRetryRepeatsThePacket(env, n, init);
      forall l | l in o1.log && (l.Acked? || l.GaveUpOn?)
        ensures TrackedFrame(o1.log, l.serial).Some?
      {
        BooksAlwaysBalance(env, n, init, l.serial);
        BalancedIsTracked(n1, o1.log, l);
      }
      var all := o1.log + out.log;
      DueConcat(all, o1.log, out.log);
      DueStays(o1.log, out.log, o1.log);
      SamePendingWaits(n1.pending);
      WaitingHolds(o1.log, out.log, n1.pending, n1.pending);
      ReportsConcat(Unprompted(env, n, init), if last.Phone? then [] else out.ble);
      if last.Phone? {
        PhoneTouchesNoQueue(env, n1, last);
        NothingDue(all, out.log);
        SilenceReportsNothing([]);
      } else {
        StepReports(env, n1, all, last);
      }
    }
  }
}
