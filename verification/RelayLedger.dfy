/** Relay conservation: every relay scheduled is accounted for, whatever happens to the queue. */
module RelayLedger {
  import opened Bytes
  import opened Vecs
  import opened Packet
  import opened Device
  import opened NodeDb
  import opened Receive
  import Tx
  import opened Router
  import opened Mesh
  import opened Processing

  // ---- Counting one packet's relays in the log ----

  function CountsScheduled(key: Key): Line -> nat {
    (l: Line) => if l.Scheduled? && Carries(l.r.frame, key) then 1 else 0
  }

  /** A relay leaves the queue by being sent, cancelled or evicted. */
  function CountsGone(key: Key): Line -> nat {
    (l: Line) => if (l.Relayed? || l.Cancelled? || l.Evicted?) && Carries(l.r.frame, key) then 1 else 0
  }

  /** What entitles a relay to be scheduled: a new packet, or an opaque one let through. */
  function CountsLicence(key: Key): Line -> nat {
    (l: Line) => if (l.NewPacket? || l.OpaqueAccepted?) && l.key == key then 1 else 0
  }

  function Queued(relays: seq<Relay>, key: Key): nat {
    Sum(relays, (r: Relay) => if Carries(r.frame, key) then 1 else 0)
  }

  function ScheduledIn(log: seq<Line>, key: Key): nat { Sum(log, CountsScheduled(key)) }

  function GoneIn(log: seq<Line>, key: Key): nat { Sum(log, CountsGone(key)) }

  function LicencesIn(log: seq<Line>, key: Key): nat { Sum(log, CountsLicence(key)) }

  /** The books balance from `before` to `after` over `log`. */
  ghost predicate Balances(before: seq<Relay>, after: seq<Relay>, log: seq<Line>, key: Key) {
    && Queued(after, key) + GoneIn(log, key) == Queued(before, key) + ScheduledIn(log, key)
    && ScheduledIn(log, key) <= LicencesIn(log, key)
    && (|before| <= MAX_RELAYS ==> |after| <= MAX_RELAYS)
  }

  lemma ConcatCounts(a: seq<Line>, b: seq<Line>, key: Key)
    ensures ScheduledIn(a + b, key) == ScheduledIn(a, key) + ScheduledIn(b, key)
    ensures GoneIn(a + b, key) == GoneIn(a, key) + GoneIn(b, key)
    ensures LicencesIn(a + b, key) == LicencesIn(a, key) + LicencesIn(b, key)
  {
    SumConcat(a, b, CountsScheduled(key));
    SumConcat(a, b, CountsGone(key));
    SumConcat(a, b, CountsLicence(key));
  }

  lemma OneCounts(l: Line, key: Key)
    ensures ScheduledIn([l], key) == CountsScheduled(key)(l)
    ensures GoneIn([l], key) == CountsGone(key)(l)
    ensures LicencesIn([l], key) == CountsLicence(key)(l)
  {
    SumOne(l, CountsScheduled(key));
    SumOne(l, CountsGone(key));
    SumOne(l, CountsLicence(key));
  }

  // ---- The queue operations ----

  /** A newly scheduled relay is always admitted, at the back, and the queue never overflows. */
  lemma ScheduledIsAdmitted(relays: seq<Relay>, r: Relay)
    requires |relays| <= MAX_RELAYS
    ensures var after := ScheduleRelay(relays, r).0;
            && 0 < |after| <= MAX_RELAYS && after[|after| - 1] == r
            && (|relays| < MAX_RELAYS ==> after == relays + [r])
            && (|relays| == MAX_RELAYS ==>
                 exists i :: 0 <= i < |relays| && after == SwapRemove(relays, i) + [r]
                             && forall k :: 0 <= k < |relays| ==> relays[i].deadline <= relays[k].deadline)
  {
    if |relays| == MAX_RELAYS {
      var i := MinBy(relays, DeadlineOf());
      assert forall k :: 0 <= k < |relays| ==> DeadlineOf()(relays[i]) <= DeadlineOf()(relays[k]);
    }
  }

  lemma ScheduleCounts(relays: seq<Relay>, r: Relay, key: Key)
    ensures var (after, log) := ScheduleRelay(relays, r);
            && Queued(after, key) + GoneIn(log, key) == Queued(relays, key) + ScheduledIn(log, key)
            && ScheduledIn(log, key) == (if Carries(r.frame, key) then 1 else 0)
            && (|relays| <= MAX_RELAYS ==> |after| <= MAX_RELAYS)
  {
    var f := (x: Relay) => if Carries(x.frame, key) then 1 else 0;
    OneCounts(Scheduled(r), key);
    if |relays| < MAX_RELAYS {
      SumAppend(relays, r, f);
    } else {
      var i := MinBy(relays, DeadlineOf());
      SumSwapRemove(relays, i, f);
      SumAppend(SwapRemove(relays, i), r, f);
      OneCounts(Evicted(relays[i]), key);
      ConcatCounts([Evicted(relays[i])], [Scheduled(r)], key);
      assert [Evicted(relays[i])] + [Scheduled(r)] == [Evicted(relays[i]), Scheduled(r)];
    }
  }

  lemma {:induction false} CancelledCounts(gone: seq<Relay>, key: Key)
    ensures GoneIn(CancelledLines(gone), key) == Queued(gone, key)
    ensures ScheduledIn(CancelledLines(gone), key) == 0 && LicencesIn(CancelledLines(gone), key) == 0
  {
    if gone != [] {
      var rest := gone[1..];
      CancelledCounts(rest, key);
      assert CancelledLines(gone) == [Cancelled(gone[0])] + CancelledLines(rest);
      OneCounts(Cancelled(gone[0]), key);
      ConcatCounts([Cancelled(gone[0])], CancelledLines(rest), key);
    }
  }

  /** Cancelling takes every queued copy of the packet and leaves every other relay. */
  lemma CancelTakesEveryCopy(relays: seq<Relay>, key: Key)
    ensures var after := Retain(relays, RelayIsNotFor(key));
            && Queued(after, key) == 0
            && (forall r :: r in relays && !Carries(r.frame, key) ==> r in after)
            && (forall r :: r in after ==> r in relays)
  {
    SumZero(Retain(relays, RelayIsNotFor(key)), (r: Relay) => if Carries(r.frame, key) then 1 else 0);
  }

  lemma CancelBalances(relays: seq<Relay>, cancel: Key, key: Key)
    ensures Balances(relays, Retain(relays, RelayIsNotFor(cancel)),
                     CancelledLines(Dropped(relays, RelayIsNotFor(cancel))), key)
  {
    SumRetain(relays, RelayIsNotFor(cancel), (r: Relay) => if Carries(r.frame, key) then 1 else 0);
    CancelledCounts(Dropped(relays, RelayIsNotFor(cancel)), key);
  }

  /** An upgrade swaps in another copy of the same packet with a higher hop limit. */
  lemma UpgradeBalances(relays: seq<Relay>, upgrade: Key, frame: RadioFrame, taken: nat, key: Key)
    requires Carries(frame, upgrade)
    ensures Balances(relays, UpgradeRelay(relays, upgrade, frame, taken), [], key)
  {
    var i := Position(relays, RelayIsFor(upgrade));
    if i < |relays| {
      SumUpdate(relays, i, relays[i].(frame := frame, taken := taken),
                (r: Relay) => if Carries(r.frame, key) then 1 else 0);
      assert RelayIsFor(upgrade)(relays[i]);
    }
  }

  /** The flooding filter upgrades only to a hop limit no lower than the queued one. */
  lemma UpgradeNeverLowersHopLimit(env: Env, n: Node, ev: RxEvent, h: PacketHeader, d: DecodedPayload)
    requires ev.frame.Framed? && ev.frame.hdr == h
    requires Filter(n.recent, n.dev.LastByte(), n.dev.role, Key(h.sender, h.packetId), h.HopLimit(), h.relayNode,
                    PendingHopLimit(n.relays, Key(h.sender, h.packetId))).0.DuplicateUpgrade?
    ensures var i := Position(n.relays, RelayIsFor(Key(h.sender, h.packetId)));
            var after := Flood(env, n, ev, h, d).0.relays;
            && i < |n.relays| && |after| == |n.relays|
            && n.relays[i].frame.hdr.HopLimit() <= after[i].frame.hdr.HopLimit() == h.HopLimit() - 1
            && after[i].deadline == n.relays[i].deadline
            && forall k :: 0 <= k < |after| && k != i ==> after[k] == n.relays[k]
  {
    var i := Position(n.relays, RelayIsFor(Key(h.sender, h.packetId)));
    HopFieldsFitThreeBits(h.flags);
    SetHopLimitRewritesOnlyHopLimit(h.flags, h.HopLimit() - 1);
    assert RelayIsFor(Key(h.sender, h.packetId))(n.relays[i]);
  }

  // ---- Whole steps ----

  lemma LocalProcessingLeavesRelays(env: Env, n: Node, ev: RxEvent, h: PacketHeader, d: DecodedPayload, key: Key)
    ensures var (after, out) := ProcessLocally(env, n, ev, h, d);
            && after.relays == n.relays
            && ScheduledIn(out.log, key) == 0 && GoneIn(out.log, key) == 0 && LicencesIn(out.log, key) == 0
  {
    hide ProcessLocally, RunHandler, HandlerInput;
    OnlyTheHandlerLogs(env, n, ev, h, d);
    var (x, p) := HandlerInput(env, n, ev, h, d);
    HandlerLeavesRelays(env, x, ev, p, d.portnum, key);
  }

  lemma HandlerLeavesRelays(env: Env, n: Node, ev: RxEvent, p: Inbound, portnum: i32, key: Key)
    ensures var (after, out) := RunHandler(env, n, ev, p, portnum);
            && after.relays == n.relays
            && ScheduledIn(out.log, key) == 0 && GoneIn(out.log, key) == 0 && LicencesIn(out.log, key) == 0
  {
    hide SendAll, LearnRoute, SendBleResult;
    var out := RunHandler(env, n, ev, p, portnum).1;
    if out.log != [] {
      OneCounts(out.log[0], key);
      assert out.log == [out.log[0]];
    }
  }

  lemma RescheduleCounts(n: Node, ev: RxEvent, newHop: u8, key: Key)
    requires ev.frame.Framed?
    ensures var (after, out) := Reschedule(n, ev, newHop);
            && Queued(after.relays, key) + GoneIn(out.log, key) == Queued(n.relays, key) + ScheduledIn(out.log, key)
            && ScheduledIn(out.log, key) == (if Carries(ev.frame, key) then 1 else 0)
            && (|n.relays| <= MAX_RELAYS ==> |after.relays| <= MAX_RELAYS)
  {
    ScheduleCounts(n.relays, Relay(ev.frame.Rewritten(newHop, n.dev.LastByte()), ev.now + ev.delay, ev.taken + 1), key);
    assert Carries(ev.frame.Rewritten(newHop, n.dev.LastByte()), key) == Carries(ev.frame, key);
  }

  lemma OpaqueBalances(n: Node, ev: RxEvent, key: Key)
    requires ev.frame.Framed?
    ensures var (after, out) := MaybeRelayOpaque(n, ev, ev.frame.hdr);
            Balances(n.relays, after.relays, out.log, key)
  {
    hide Reschedule, RelayOpaque, HopStartOf, HopLimitOf, ScheduledIn, GoneIn, LicencesIn, Queued;
    NothingBalances(n.relays, key);
    var h := ev.frame.hdr;
    var packet := Key(h.sender, h.packetId);
    var (relay, seen) := RelayOpaque(n.opaqueSeen, packet, h.HopStart(), h.HopLimit());
    if RebroadcastsForRole(n.dev.role) && h.HopLimit() > 0 && relay {
      var n0 := n.(opaqueSeen := seen);
      RescheduleCounts(n0, ev, h.HopLimit() - 1, key);
      var o := Reschedule(n0, ev, h.HopLimit() - 1).1;
      var accepted := OpaqueAccepted(packet, 0 < h.HopStart() == h.HopLimit());
      OneCounts(accepted, key);
      ConcatCounts([accepted], o.log, key);
    }
  }

  lemma NewPacketBalances(env: Env, n: Node, ev: RxEvent, d: DecodedPayload, key: Key)
    requires ev.frame.Framed?
    ensures var h := ev.frame.hdr;
            var (n1, o1) := ProcessLocally(env, n, ev, h, d);
            var (n2, o2) := RelayDecision(n1, ev, h);
            Balances(n.relays, n2.relays, [NewPacket(Key(h.sender, h.packetId))] + (o1.log + o2.log), key)
  {
    hide Tx.Build, Touch, Amend, Get, LearnRoute, ProcessLocally, Reschedule;
    var h := ev.frame.hdr;
    var (n1, o1) := ProcessLocally(env, n, ev, h, d);
    var (n2, o2) := RelayDecision(n1, ev, h);
    LocalProcessingLeavesRelays(env, n, ev, h, d, key);
    RelayDecisionCounts(n1, ev, key);
    LicensedLog(NewPacket(Key(h.sender, h.packetId)), o1.log, o2.log, key);
  }

  lemma RelayDecisionCounts(n: Node, ev: RxEvent, key: Key)
    requires ev.frame.Framed?
    ensures var (after, out) := RelayDecision(n, ev, ev.frame.hdr);
            && Queued(after.relays, key) + GoneIn(out.log, key) == Queued(n.relays, key) + ScheduledIn(out.log, key)
            && ScheduledIn(out.log, key) <= (if Carries(ev.frame, key) then 1 else 0)
            && (|n.relays| <= MAX_RELAYS ==> |after.relays| <= MAX_RELAYS)
  {
    hide Reschedule, HopLimitOf;
    var h := ev.frame.hdr;
    HopFieldsFitThreeBits(h.flags);
    if h.HopLimit() > 0 {
      RescheduleCounts(n, ev, h.HopLimit() - 1, key);
    }
  }

  lemma LicensedLog(first: Line, a: seq<Line>, b: seq<Line>, key: Key)
    ensures var log := [first] + (a + b);
            && ScheduledIn(log, key) == CountsScheduled(key)(first) + ScheduledIn(a, key) + ScheduledIn(b, key)
            && GoneIn(log, key) == CountsGone(key)(first) + GoneIn(a, key) + GoneIn(b, key)
            && LicencesIn(log, key) == CountsLicence(key)(first) + LicencesIn(a, key) + LicencesIn(b, key)
  {
    OneCounts(first, key);
    ConcatCounts(a, b, key);
    ConcatCounts([first], a + b, key);
  }

  lemma FloodBalances(env: Env, n: Node, ev: RxEvent, d: DecodedPayload, key: Key)
    requires ev.frame.Framed?
    ensures var (after, out) := Flood(env, n, ev, ev.frame.hdr, d);
            Balances(n.relays, after.relays, out.log, key)
  {
    hide ProcessLocally, RelayDecision, Filter, PendingHopLimit, UpgradeRelay, CancelledLines, Balances;
    var h := ev.frame.hdr;
    var packet := Key(h.sender, h.packetId);
    var (verdict, recent) :=
      Filter(n.recent, n.dev.LastByte(), n.dev.role, packet, h.HopLimit(), h.relayNode,
             PendingHopLimit(n.relays, packet));
    match verdict
    case New => NewPacketBalances(env, n.(recent := recent), ev, d, key);
    case DuplicateUpgrade(newHop) =>
      UpgradeBalances(n.relays, packet, ev.frame.Rewritten(newHop, n.dev.LastByte()), ev.taken + 1, key);
    case DuplicateCancelRelay => CancelBalances(n.relays, packet, key);
    case DuplicateDrop => NothingBalances(n.relays, key);
  }

  lemma NothingBalances(relays: seq<Relay>, key: Key)
    ensures Balances(relays, relays, [], key)
  {}

  lemma FireBalances(n: Node, key: Key)
    ensures Balances(n.relays, FireRelay(n).0.relays, FireRelay(n).1.log, key)
  {
    if n.relays != [] {
      var i := MinBy(n.relays, DeadlineOf());
      SumSwapRemove(n.relays, i, (r: Relay) => if Carries(r.frame, key) then 1 else 0);
      OneCounts(Relayed(n.relays[i]), key);
    }
  }

  lemma {:induction false} NoRelayLines(log: seq<Line>, key: Key)
    requires forall l :: l in log ==> l.Resent? || l.GaveUpOn? || l.Tracking? || l.Acked? || l.EchoHeard?
    ensures ScheduledIn(log, key) == 0 && GoneIn(log, key) == 0 && LicencesIn(log, key) == 0
  {
    SumZero(log, CountsScheduled(key));
    SumZero(log, CountsGone(key));
    SumZero(log, CountsLicence(key));
  }

  lemma StepBalances(env: Env, n: Node, e: Event, key: Key)
    ensures var (after, out) := Step(env, n, e);
            Balances(n.relays, after.relays, out.log, key)
  {
    hide Dispatch, TransmitFromPhone, FireRelay, SendAll, Retransmit.TickFrom, ReportGiveUps;
    match e
    case Rx(ev) =>
      var m := n.(pending := Retransmit.ExtendDeadlines(n.pending, Retransmit.RETX_AIRTIME_EXTENSION_MS));
      DispatchBalances(env, m, ev, key);
    case RelayTimer => FireBalances(n, key);
    case RetxTimer(_) => NoRelayLines(Step(env, n, e).1.log, key);
    case Phone(_, _, _) => PhoneBalances(env, n, e, key);
    case _ =>
  }

  lemma DispatchBalances(env: Env, n: Node, ev: RxEvent, key: Key)
    ensures var (after, out) := Dispatch(env, n, ev);
            Balances(n.relays, after.relays, out.log, key)
  {
    hide OutcomeOf, Flood, MaybeRelayOpaque, SendNodeInfo, Send;
    if ev.frame.Framed? && ev.frame.hdr.sender != n.dev.myNodeNum {
      match OutcomeOf(env, n, ev.frame)
      case PkiUnknownPubkey =>
      case Drop => OpaqueBalances(n, ev, key);
      case Decoded(d) => FloodBalances(env, n, ev, d, key);
    } else if ev.frame.Framed? {
      NoRelayLines(HearOwnEcho(n, ev.frame.hdr).1.log, key);
    }
  }

  lemma PhoneBalances(env: Env, n: Node, e: Event, key: Key)
    requires e.Phone?
    ensures var (after, out) := Step(env, n, e);
            Balances(n.relays, after.relays, out.log, key)
  {
    hide Step;
    PhoneTouchesNoQueue(env, n, e);
    NoRelayLines(Step(env, n, e).1.log, key);
  }

  /** Over any run of any events, for every packet: relays queued at the end plus those sent,
      cancelled and evicted are the relays queued at the start plus those scheduled; no more
      were scheduled than packets called new or let through opaquely; and the queue holds at
      most eight throughout. */
  lemma {:induction false} RelaysAreConserved(env: Env, n: Node, es: seq<Event>, key: Key)
    ensures var (after, out) := Run(env, n, es);
            Balances(n.relays, after.relays, out.log, key)
    decreases |es|
  {
    hide Step;
    if es != [] {
      var init, last := es[..|es| - 1], es[|es| - 1];
      RelaysAreConserved(env, n, init, key);
      var (n1, o1) := Run(env, n, init);
      StepBalances(env, n1, last, key);
      ConcatCounts(o1.log, Step(env, n1, last).1.log, key);
    }
  }
}
