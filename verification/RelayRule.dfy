/** Exactly which received frames a node queues for relaying, and as what. */
module RelayRule {
  import opened Bytes
  import opened Vecs
  import opened Rings
  import opened Packet
  import opened Device
  import opened NodeDb
  import opened Receive
  import opened Router
  import opened Retransmit
  import opened Mesh
  import opened Processing
  import opened Lifecycle
  import Tx

  /** A frame a node in this role may relay at all: the role relays, and a hop is left. */
  predicate MayRelay(role: DeviceRole, h: PacketHeader) { RebroadcastsForRole(role) && h.HopLimit() > 0 }

  predicate IsNew(n: Node, h: PacketHeader) {
    Position(n.recent, IsKey(Key(h.sender, h.packetId))) == |n.recent|
  }

  /** A readable frame is relayed when it is new and either for everybody, or for us, or names
      us as its next hop. `role` is the role once the packet itself has been handled. */
  predicate RelaysRead(n: Node, role: DeviceRole, h: PacketHeader) {
    && IsNew(n, h) && MayRelay(role, h)
    && (h.destination == BROADCAST_ADDR || h.destination == n.dev.myNodeNum
        || (h.nextHop != NO_NEXT_HOP && h.nextHop == n.dev.LastByte()))
  }

  /** An unreadable frame is relayed when it is not for us and either not yet seen or being
      retransmitted by its originator. */
  predicate RelaysUnread(n: Node, h: PacketHeader) {
    && MayRelay(n.dev.role, h) && h.destination != n.dev.myNodeNum
    && (Key(h.sender, h.packetId) !in n.opaqueSeen || 0 < h.HopStart() == h.HopLimit())
  }

  predicate ShouldRelay(env: Env, n: Node, role: DeviceRole, ev: RxEvent) {
    && ev.frame.Framed? && ev.frame.hdr.sender != n.dev.myNodeNum
    && match OutcomeOf(env, n, ev.frame)
       case Decoded(_) => RelaysRead(n, role, ev.frame.hdr)
       case Drop => RelaysUnread(n, ev.frame.hdr)
       case PkiUnknownPubkey => false
  }

  /** The relay of a received frame: one hop spent, our byte on it, due after the delay drawn. */
  function RelayOf(n: Node, ev: RxEvent): Relay
    requires ev.frame.Framed? && ev.frame.hdr.HopLimit() > 0
  {
    Relay(ev.frame.Rewritten(ev.frame.hdr.HopLimit() - 1, n.dev.LastByte()), ev.now + ev.delay, ev.taken + 1)
  }

  function ScheduledBy(l: Line): seq<Relay> { if l.Scheduled? then [l.r] else [] }

  /** The relays a log says were queued, in order. */
  function Schedules(log: seq<Line>): seq<Relay> {
    if log == [] then [] else ScheduledBy(log[0]) + Schedules(log[1..])
  }

  lemma {:induction false} SchedulesConcat(a: seq<Line>, b: seq<Line>)
    ensures Schedules(a + b) == Schedules(a) + Schedules(b)
  {
    if a == [] {
      assert a + b == b;
    } else {
      assert (a + b)[1..] == a[1..] + b;
      SchedulesConcat(a[1..], b);
    }
  }

  ghost predicate NothingScheduled(log: seq<Line>) { forall l :: l in log ==> !l.Scheduled? }

  lemma {:induction false} NoSchedules(log: seq<Line>)
    requires NothingScheduled(log)
    ensures Schedules(log) == []
  {
    if log != [] {
      NoSchedules(log[1..]);
    }
  }

  lemma ReschedulingSchedules(n: Node, ev: RxEvent)
    requires ev.frame.Framed? && ev.frame.hdr.HopLimit() > 0
    ensures Schedules(Reschedule(n, ev, ev.frame.hdr.HopLimit() - 1).1.log) == [RelayOf(n, ev)]
  {
    hide MinBy, HopLimitOf;
    var log := Reschedule(n, ev, ev.frame.hdr.HopLimit() - 1).1.log;
    var last := [Scheduled(RelayOf(n, ev))];
    assert Schedules(last) == ScheduledBy(last[0]) + Schedules(last[1..]);
    if |log| > 1 {
      assert log == [log[0]] + last;
      SchedulesConcat([log[0]], last);
      NoSchedules([log[0]]);
    } else {
      assert log == last;
    }
  }

  lemma {:induction false} SendingKeepsNumber(env: Env, dev: Device, db: Db, reqs: seq<Tx.TxRequest>)
    ensures SendAll(env, dev, db, reqs).0.myNodeNum == dev.myNodeNum
    decreases |reqs|
  {
    hide Tx.Build;
    if reqs != [] {
      SendingKeepsNumber(env, Send(env, dev, db, reqs[0]).0, db, reqs[1..]);
    }
  }

  lemma HandlersScheduleNothing(env: Env, n: Node, ev: RxEvent, p: Inbound, portnum: i32)
    requires WellBehaved(env)
    ensures var (m, out) := RunHandler(env, n, ev, p, portnum);
            NothingScheduled(out.log) && m.dev.myNodeNum == n.dev.myNodeNum
  {
    hide Send, LearnRoute;
    var e := env.handle(AppOf(n), portnum, p, ev.now);
    assert KeepsIdentityOf(AppOf(n), e);
    SendingKeepsNumber(env, e.state.dev, e.state.db, e.sends);
  }

  lemma ProcessingSchedulesNothing(env: Env, n: Node, ev: RxEvent, h: PacketHeader, d: DecodedPayload)
    requires WellBehaved(env)
    ensures var (m, out) := ProcessLocally(env, n, ev, h, d);
            NothingScheduled(out.log) && m.dev.myNodeNum == n.dev.myNodeNum
  {
    hide ProcessLocally, RunHandler, HandlerInput, WellBehaved;
    OnlyTheHandlerLogs(env, n, ev, h, d);
    var (x, p) := HandlerInput(env, n, ev, h, d);
    HandlersScheduleNothing(env, x, ev, p, d.portnum);
  }

  lemma DecisionSchedules(n: Node, ev: RxEvent)
    requires ev.frame.Framed? && ev.frame.hdr.sender != n.dev.myNodeNum
    ensures var h := ev.frame.hdr;
            var (m, out) := RelayDecision(n, ev, h);
            && m.dev == n.dev
            && Schedules(out.log) == if MayRelay(n.dev.role, h)
               && (h.destination == BROADCAST_ADDR || ShouldRelayDirected(n.dev, h.destination, h.nextHop))
                                     then [RelayOf(n, ev)] else []
  {
    hide Reschedule, HopLimitOf, Schedules, RelayOf;
    NoSchedules([]);
    if ev.frame.hdr.HopLimit() > 0 {
      ReschedulingSchedules(n, ev);
      ReschedulingKeepsDevice(n, ev);
    }
  }

  lemma ReschedulingKeepsDevice(n: Node, ev: RxEvent)
    requires ev.frame.Framed? && ev.frame.hdr.HopLimit() > 0
    ensures Reschedule(n, ev, ev.frame.hdr.HopLimit() - 1).0.dev == n.dev
  {}

  lemma ReadFramesRelay(env: Env, n: Node, ev: RxEvent, d: DecodedPayload)
    requires WellBehaved(env) && ev.frame.Framed? && ev.frame.hdr.sender != n.dev.myNodeNum
    ensures var (m, out) := Flood(env, n, ev, ev.frame.hdr, d);
            Schedules(out.log) == if RelaysRead(n, m.dev.role, ev.frame.hdr) then [RelayOf(n, ev)] else []
  {
    hide ProcessLocally, RelayDecision, Position, PendingHopLimit, UpgradeRelay, HopLimitOf, WellBehaved, Schedules,
      AddRelayer;
    var h := ev.frame.hdr;
    var key := Key(h.sender, h.packetId);
    var (verdict, recent) :=
      Filter(n.recent, n.dev.LastByte(), n.dev.role, key, h.HopLimit(), h.relayNode, PendingHopLimit(n.relays, key));
    var n0 := n.(recent := recent);
    var (m, out) := Flood(env, n, ev, h, d);
    assert verdict.New? <==> IsNew(n, h);
    if verdict.New? {
      ProcessingSchedulesNothing(env, n0, ev, h, d);
      var (n1, o1) := ProcessLocally(env, n0, ev, h, d);
      DecisionSchedules(n1, ev);
      var (n2, o2) := RelayDecision(n1, ev, h);
      var first := [NewPacket(key)];
      SchedulesConcat(first, o1.log + o2.log);
      SchedulesConcat(o1.log, o2.log);
      NoSchedules(first);
      NoSchedules(o1.log);
    } else {
      NoSchedules(out.log);
    }
  }

  lemma UnreadFramesRelay(n: Node, ev: RxEvent)
    requires ev.frame.Framed? && ev.frame.hdr.destination != n.dev.myNodeNum
    ensures Schedules(MaybeRelayOpaque(n, ev, ev.frame.hdr).1.log)
            == if RelaysUnread(n, ev.frame.hdr) then [RelayOf(n, ev)] else []
  {
    hide Reschedule, HopLimitOf, HopStartOf, Schedules, PushBounded;
    var h := ev.frame.hdr;
    var key := Key(h.sender, h.packetId);
    NoSchedules([]);
    if RelaysUnread(n, h) {
      var n0 := n.(opaqueSeen := RelayOpaque(n.opaqueSeen, key, h.HopStart(), h.HopLimit()).1);
      var first := [OpaqueAccepted(key, 0 < h.HopStart() == h.HopLimit())];
      ReschedulingSchedules(n0, ev);
      SchedulesConcat(first, Reschedule(n0, ev, h.HopLimit() - 1).1.log);
      NoSchedules(first);
    }
  }

  /** On every reception a relay is queued if and only if the rule above says so, and then
      exactly one: the frame with one hop spent and our byte on it, due after the delay drawn. */
  lemma FramesAreRelayedExactlyByRule(env: Env, n: Node, ev: RxEvent)
    requires WellBehaved(env)
    ensures var (m, out) := Dispatch(env, n, ev);
            Schedules(out.log) == if ShouldRelay(env, n, m.dev.role, ev) then [RelayOf(n, ev)] else []
  {
    hide OutcomeOf, Flood, MaybeRelayOpaque, SendNodeInfo, Send, WellBehaved, Schedules, RelaysRead, RelaysUnread,
      RelayOf;
    var (m, out) := Dispatch(env, n, ev);
    NoSchedules([]);
    if ev.frame.Framed? {
      var h := ev.frame.hdr;
      if h.sender == n.dev.myNodeNum {
        NoSchedules(out.log);
      } else if OutcomeOf(env, n, ev.frame).Decoded? {
        ReadFramesRelay(env, n, ev, OutcomeOf(env, n, ev.frame).d);
      } else if OutcomeOf(env, n, ev.frame).Drop? {
        NotForUs(n, h);
        if h.destination != n.dev.myNodeNum {
          UnreadFramesRelay(n, ev);
        }
      }
    }
  }

  lemma NotForUs(n: Node, h: PacketHeader)
    ensures RelaysUnread(n, h) ==> h.destination != n.dev.myNodeNum
  {}
}
