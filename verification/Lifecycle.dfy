/** The life of a tracked packet: at most four transmissions and at most one end. */
module Lifecycle {
  import opened Bytes
  import opened Vecs
  import opened Packet
  import opened Device
  import opened NodeDb
  import opened Receive
  import opened Router
  import opened Retransmit
  import opened Mesh
  import opened Processing
  import Tx

  // ---- Books kept per serial number ----

  function EntryIs(s: nat): PendingPacket -> nat { (e: PendingPacket) => if e.serial == s then 1 else 0 }

  function RetriesOf(s: nat): PendingPacket -> nat { (e: PendingPacket) => if e.serial == s then e.retriesLeft else 0 }

  function ResendIs(s: nat): Resend -> nat { (r: Resend) => if r.serial == s then 1 else 0 }

  function GiveUpIs(s: nat): GiveUp -> nat { (g: GiveUp) => if g.serial == s then 1 else 0 }

  function Begins(s: nat): Line -> nat { (l: Line) => if l.Tracking? && l.serial == s then 1 else 0 }

  function Resends(s: nat): Line -> nat { (l: Line) => if l.Resent? && l.serial == s then 1 else 0 }

  function Exhausts(s: nat): Line -> nat { (l: Line) => if l.GaveUpOn? && l.serial == s then 1 else 0 }

  /** A packet leaves by ACK, by its own echo, or by exhaustion. */
  function Ends(s: nat): Line -> nat {
    (l: Line) => if (l.Acked? || l.EchoHeard? || l.GaveUpOn?) && l.serial == s then 1 else 0
  }

  function Live(p: seq<PendingPacket>, s: nat): nat { Sum(p, EntryIs(s)) }

  function RetriesLeft(p: seq<PendingPacket>, s: nat): nat { Sum(p, RetriesOf(s)) }

  function Begun(log: seq<Line>, s: nat): nat { Sum(log, Begins(s)) }

  function ResentIn(log: seq<Line>, s: nat): nat { Sum(log, Resends(s)) }

  function Exhausted(log: seq<Line>, s: nat): nat { Sum(log, Exhausts(s)) }

  function Ended(log: seq<Line>, s: nat): nat { Sum(log, Ends(s)) }

  /** The books of one serial: it began once it was handed out, is live or has ended, and each
      retry was drawn from its three. */
  ghost predicate Balanced(n: Node, log: seq<Line>, s: nat) {
    && Begun(log, s) == (if s < n.nextSerial then 1 else 0)
    && Live(n.pending, s) + Ended(log, s) == Begun(log, s)
    && RetriesLeft(n.pending, s) + ResentIn(log, s) <= 3 * Begun(log, s)
    && (Ended(log, s) == 0 ==> RetriesLeft(n.pending, s) + ResentIn(log, s) == 3 * Begun(log, s))
    && (Exhausted(log, s) > 0 ==> ResentIn(log, s) == 3)
    && Exhausted(log, s) <= Ended(log, s)
  }

  lemma ConcatBooks(a: seq<Line>, b: seq<Line>, s: nat)
    ensures Begun(a + b, s) == Begun(a, s) + Begun(b, s)
    ensures ResentIn(a + b, s) == ResentIn(a, s) + ResentIn(b, s)
    ensures Ended(a + b, s) == Ended(a, s) + Ended(b, s)
    ensures Exhausted(a + b, s) == Exhausted(a, s) + Exhausted(b, s)
  {
    SumConcat(a, b, Begins(s));
    SumConcat(a, b, Resends(s));
    SumConcat(a, b, Ends(s));
    SumConcat(a, b, Exhausts(s));
  }

  lemma OneBook(l: Line, s: nat)
    ensures Begun([l], s) == Begins(s)(l) && ResentIn([l], s) == Resends(s)(l)
    ensures Ended([l], s) == Ends(s)(l) && Exhausted([l], s) == Exhausts(s)(l)
  {
    SumOne(l, Begins(s));
    SumOne(l, Resends(s));
    SumOne(l, Ends(s));
    SumOne(l, Exhausts(s));
  }

  lemma {:induction false} IdleBooks(log: seq<Line>, s: nat)
    requires forall l :: l in log ==> !l.Tracking? && !l.Resent? && !l.Acked? && !l.EchoHeard? && !l.GaveUpOn?
    ensures Begun(log, s) == 0 && ResentIn(log, s) == 0 && Ended(log, s) == 0 && Exhausted(log, s) == 0
  {
    SumZero(log, Begins(s));
    SumZero(log, Resends(s));
    SumZero(log, Ends(s));
    SumZero(log, Exhausts(s));
  }

  // ---- The retransmission tick ----

  lemma SameWithout<T>(a: seq<T>, b: seq<T>, x: T)
    requires multiset(a + [x]) == multiset(b) + multiset{x}
    ensures multiset(a) == multiset(b)
  {
    assert multiset(a + [x]) - multiset{x} == multiset(a);
    assert multiset(b) + multiset{x} - multiset{x} == multiset(b);
  }

  lemma {:induction false} SumOfSameMultiset<T>(a: seq<T>, b: seq<T>, f: T -> nat)
    requires multiset(a) == multiset(b)
    ensures Sum(a, f) == Sum(b, f)
    decreases |a|
  {
    if a == [] {
      assert |multiset(a)| == |a| && |multiset(b)| == |b|;
    } else {
      var n := |a| - 1;
      assert a == a[..n] + [a[n]];
      assert a[n] in multiset(b);
      var i :| 0 <= i < |b| && b[i] == a[n];
      var rest := b[..i] + b[i + 1..];
      assert b == b[..i] + [b[i]] + b[i + 1..];
      assert multiset(b) == multiset(rest) + multiset{b[i]};
      SameWithout(a[..n], rest, a[n]);
      SumOfSameMultiset(a[..n], rest, f);
      SumAppend(a[..n], a[n], f);
      SumSplit(b, i, f);
      SumConcat(b[..i], b[i + 1..], f);
    }
  }

  lemma {:induction false} SimpleTickBalances(p: seq<PendingPacket>, now: nat, s: nat)
    ensures Live(Survivors(p, now), s) + Sum(AllGiveUps(p, now), GiveUpIs(s)) == Live(p, s)
    ensures RetriesLeft(Survivors(p, now), s) + Sum(AllResends(p, now), ResendIs(s)) == RetriesLeft(p, s)
    ensures Sum(AllResends(p, now), ResendIs(s)) <= Live(p, s)
    ensures Sum(AllGiveUps(p, now), GiveUpIs(s)) > 0 && Live(p, s) <= 1 ==> RetriesLeft(p, s) == 0
  {
    if p != [] {
      var e, rest := p[0], p[1..];
      SimpleTickBalances(rest, now, s);
      SumConcat(Survives(e, now), Survivors(rest, now), EntryIs(s));
      SumConcat(Survives(e, now), Survivors(rest, now), RetriesOf(s));
      SumConcat(Retransmit.Resends(e, now), AllResends(rest, now), ResendIs(s));
      SumConcat(GivesUp(e, now), AllGiveUps(rest, now), GiveUpIs(s));
      OneEntryBalances(e, now, s);
      NotLiveHasNoRetries(rest, s);
    }
  }

  lemma OneEntryBalances(e: PendingPacket, now: nat, s: nat)
    ensures Sum(Survives(e, now), EntryIs(s)) + Sum(GivesUp(e, now), GiveUpIs(s)) == EntryIs(s)(e)
    ensures Sum(Survives(e, now), RetriesOf(s)) + Sum(Retransmit.Resends(e, now), ResendIs(s)) == RetriesOf(s)(e)
    ensures Sum(Retransmit.Resends(e, now), ResendIs(s)) <= EntryIs(s)(e)
    ensures Sum(GivesUp(e, now), GiveUpIs(s)) > 0 ==> e.serial == s && e.retriesLeft == 0
  {
    if now < e.deadline {
      SumOne(e, EntryIs(s));
      SumOne(e, RetriesOf(s));
    } else if e.retriesLeft > 0 {
      SumOne(Retried(e, now), EntryIs(s));
      SumOne(Retried(e, now), RetriesOf(s));
      SumOne(Resend(e.serial, RetryFrame(e)), ResendIs(s));
    } else {
      SumOne(GiveUp(e.serial, e.bleNotify, e.packetId), GiveUpIs(s));
    }
  }

  lemma {:induction false} NotLiveHasNoRetries(p: seq<PendingPacket>, s: nat)
    ensures Live(p, s) == 0 ==> RetriesLeft(p, s) == 0
  {
    if p != [] {
      NotLiveHasNoRetries(p[1..], s);
    }
  }

  /** The tick moves retries from the queue to the log and entries from the queue to the log. */
  lemma TickBooks(p: seq<PendingPacket>, now: nat, db: Db, s: nat)
    ensures var t := TickFrom(p, 0, now, db);
            && Live(t.pending, s) + Sum(t.gaveUp, GiveUpIs(s)) == Live(p, s)
            && RetriesLeft(t.pending, s) + Sum(t.toSend, ResendIs(s)) == RetriesLeft(p, s)
            && Sum(t.toSend, ResendIs(s)) <= Live(p, s)
            && (Sum(t.gaveUp, GiveUpIs(s)) > 0 && Live(p, s) <= 1 ==> RetriesLeft(p, s) == 0)
  {
    var t := TickFrom(p, 0, now, db);
    TickHandlesEachExpiredEntryOnce(p, now, db);
    SimpleTickBalances(p, now, s);
    SumOfSameMultiset(t.pending, Survivors(p, now), EntryIs(s));
    SumOfSameMultiset(t.pending, Survivors(p, now), RetriesOf(s));
    SumOfSameMultiset(t.toSend, AllResends(p, now), ResendIs(s));
    SumOfSameMultiset(t.gaveUp, AllGiveUps(p, now), GiveUpIs(s));
  }

  function ResentLines(rs: seq<Resend>): (l: seq<Line>)
    ensures |l| == |rs| && forall i :: 0 <= i < |l| ==> l[i] == Resent(rs[i].serial, rs[i].frame)
  {
    seq(|rs|, i requires 0 <= i < |rs| => Resent(rs[i].serial, rs[i].frame))
  }

  function GaveUpLines(gs: seq<GiveUp>): (l: seq<Line>)
    ensures |l| == |gs| && forall i :: 0 <= i < |l| ==> l[i] == GaveUpOn(gs[i].serial)
  {
    seq(|gs|, i requires 0 <= i < |gs| => GaveUpOn(gs[i].serial))
  }

  lemma {:induction false} ResentLinesCount(rs: seq<Resend>, s: nat)
    ensures var l := ResentLines(rs);
            Begun(l, s) == 0 && ResentIn(l, s) == Sum(rs, ResendIs(s)) && Ended(l, s) == 0 && Exhausted(l, s) == 0
  {
    if rs != [] {
      var line, rest := Resent(rs[0].serial, rs[0].frame), rs[1..];
      ResentLinesCount(rest, s);
      assert ResentLines(rs) == [line] + ResentLines(rest);
      ConcatBooks([line], ResentLines(rest), s);
      OneBook(line, s);
    }
  }

  lemma {:induction false} GaveUpLinesCount(gs: seq<GiveUp>, s: nat)
    ensures var l, k := GaveUpLines(gs), Sum(gs, GiveUpIs(s));
            Begun(l, s) == 0 && ResentIn(l, s) == 0 && Ended(l, s) == k && Exhausted(l, s) == k
  {
    if gs != [] {
      var line, rest := GaveUpOn(gs[0].serial), gs[1..];
      GaveUpLinesCount(rest, s);
      assert GaveUpLines(gs) == [line] + GaveUpLines(rest);
      ConcatBooks([line], GaveUpLines(rest), s);
      OneBook(line, s);
    }
  }

  lemma TickLinesCount(rs: seq<Resend>, gs: seq<GiveUp>, s: nat)
    ensures var l := TickLines(rs, gs);
            && Begun(l, s) == 0 && ResentIn(l, s) == Sum(rs, ResendIs(s))
            && Ended(l, s) == Exhausted(l, s) == Sum(gs, GiveUpIs(s))
  {
    assert TickLines(rs, gs) == ResentLines(rs) + GaveUpLines(gs);
    ConcatBooks(ResentLines(rs), GaveUpLines(gs), s);
    ResentLinesCount(rs, s);
    GaveUpLinesCount(gs, s);
  }

  lemma TickKeepsBalance(n: Node, log: seq<Line>, now: nat, s: nat)
    requires Balanced(n, log, s)
    ensures Balanced(RetxTick(n, now).0, log + RetxTick(n, now).1.log, s)
  {
    hide TickFrom, ReportGiveUps, Live, RetriesLeft, Begun, ResentIn, Ended, Exhausted;
    var t := TickFrom(n.pending, 0, now, n.db);
    TickBooks(n.pending, now, n.db, s);
    TickLinesCount(t.toSend, t.gaveUp, s);
    ConcatBooks(log, TickLines(t.toSend, t.gaveUp), s);
  }

  // ---- The other ways in and out ----

  lemma RemovalBooks(p: seq<PendingPacket>, i: nat, s: nat)
    requires i < |p|
    ensures Live(SwapRemove(p, i), s) + EntryIs(s)(p[i]) == Live(p, s)
    ensures RetriesLeft(SwapRemove(p, i), s) <= RetriesLeft(p, s)
    ensures p[i].serial != s ==> RetriesLeft(SwapRemove(p, i), s) == RetriesLeft(p, s)
  {
    SumSwapRemove(p, i, EntryIs(s));
    SumSwapRemove(p, i, RetriesOf(s));
  }

  /** Clearing an entry before its time ends its life and forfeits its remaining retries. */
  lemma ClearingKeepsBalance(n: Node, m: Node, log: seq<Line>, i: nat, l: Line, s: nat)
    requires Balanced(n, log, s) && i < |n.pending|
    requires (l.Acked? || l.EchoHeard?) && l.serial == n.pending[i].serial
    requires m.pending == SwapRemove(n.pending, i) && m.nextSerial == n.nextSerial
    ensures Balanced(m, log + [l], s)
  {
    hide Live, RetriesLeft, Begun, ResentIn, Ended, Exhausted;
    RemovalBooks(n.pending, i, s);
    ConcatBooks(log, [l], s);
    OneBook(l, s);
  }

  lemma {:induction false} ExtendingKeepsBooks(p: seq<PendingPacket>, ms: nat, s: nat)
    ensures Live(ExtendDeadlines(p, ms), s) == Live(p, s)
    ensures RetriesLeft(ExtendDeadlines(p, ms), s) == RetriesLeft(p, s)
  {
    if p != [] {
      ExtendingKeepsBooks(p[1..], ms, s);
      assert ExtendDeadlines(p, ms)[1..] == ExtendDeadlines(p[1..], ms);
    }
  }

  lemma IdleKeepsBalance(n: Node, m: Node, log: seq<Line>, more: seq<Line>, s: nat)
    requires Balanced(n, log, s)
    requires m.pending == n.pending && m.nextSerial == n.nextSerial
    requires forall l :: l in more ==> !l.Tracking? && !l.Resent? && !l.Acked? && !l.EchoHeard? && !l.GaveUpOn?
    ensures Balanced(m, log + more, s)
  {
    ConcatBooks(log, more, s);
    IdleBooks(more, s);
  }

  lemma HandlersKeepBalance(env: Env, n: Node, log: seq<Line>, ev: RxEvent, p: Inbound, portnum: i32, s: nat)
    requires Balanced(n, log, s)
    ensures var (m, out) := RunHandler(env, n, ev, p, portnum);
            Balanced(m, log + out.log, s)
  {
    hide Balanced, SendAll, LearnRoute, SendBleResult;
    var (m, out) := RunHandler(env, n, ev, p, portnum);
    var i := Position(n.pending, (e: PendingPacket) => e.packetId == p.requestId);
    if portnum == Tx.ROUTING_APP && env.routingDecodes(p.payload) && p.requestId != 0 && i < |n.pending| {
      assert out.log == [Acked(n.pending[i].serial)];
      ClearingKeepsBalance(n, m, log, i, Acked(n.pending[i].serial), s);
    } else {
      IdleKeepsBalance(n, m, log, out.log, s);
    }
  }

  lemma LocalProcessingKeepsBalance(env: Env, n: Node, log: seq<Line>, ev: RxEvent, h: PacketHeader,
          d: DecodedPayload, s: nat)
    requires Balanced(n, log, s)
    ensures var (m, out) := ProcessLocally(env, n, ev, h, d);
            Balanced(m, log + out.log, s)
  {
    hide ProcessLocally, RunHandler, HandlerInput, Live, RetriesLeft, Begun, ResentIn, Ended, Exhausted;
    OnlyTheHandlerLogs(env, n, ev, h, d);
    var (x, p) := HandlerInput(env, n, ev, h, d);
    HandlersKeepBalance(env, x, log, ev, p, d.portnum, s);
  }

  lemma FloodKeepsBalance(env: Env, n: Node, log: seq<Line>, ev: RxEvent, h: PacketHeader, d: DecodedPayload, s: nat)
    requires Balanced(n, log, s)
    ensures var (m, out) := Flood(env, n, ev, h, d);
            Balanced(m, log + out.log, s)
  {
    hide ProcessLocally, Filter, PendingHopLimit, UpgradeRelay, Balanced;
    var key := Key(h.sender, h.packetId);
    var (verdict, recent) :=
      Filter(n.recent, n.dev.LastByte(), n.dev.role, key, h.HopLimit(), h.relayNode, PendingHopLimit(n.relays, key));
    var n0 := n.(recent := recent);
    var (m, out) := Flood(env, n, ev, h, d);
    if verdict.New? {
      var first := [NewPacket(key)];
      IdleKeepsBalance(n, n0, log, first, s);
      LocalProcessingKeepsBalance(env, n0, log + first, ev, h, d, s);
      var (n1, o1) := ProcessLocally(env, n0, ev, h, d);
      var (n2, o2) := RelayDecision(n1, ev, h);
      IdleKeepsBalance(n1, n2, log + first + o1.log, o2.log, s);
      assert log + out.log == log + first + o1.log + o2.log;
    } else {
      IdleKeepsBalance(n, m, log, out.log, s);
    }
  }

  lemma DispatchKeepsBalance(env: Env, n: Node, log: seq<Line>, ev: RxEvent, s: nat)
    requires Balanced(n, log, s)
    ensures var (m, out) := Dispatch(env, n, ev);
            Balanced(m, log + out.log, s)
  {
    hide OutcomeOf, Flood, MaybeRelayOpaque, SendNodeInfo, Send, Balanced;
    var (m, out) := Dispatch(env, n, ev);
    if ev.frame.Framed? {
      var h := ev.frame.hdr;
      if h.sender == n.dev.myNodeNum {
        var i := Position(n.pending, (p: PendingPacket) => p.packetId == h.packetId);
        if i < |n.pending| {
          ClearingKeepsBalance(n, m, log, i, EchoHeard(n.pending[i].serial), s);
          return;
        }
      } else if OutcomeOf(env, n, ev.frame).Decoded? {
        FloodKeepsBalance(env, n, log, ev, h, OutcomeOf(env, n, ev.frame).d, s);
        return;
      } else if OutcomeOf(env, n, ev.frame).Drop? {
        OpaqueIsIdle(n, ev, h);
      }
    }
    IdleKeepsBalance(n, m, log, out.log, s);
  }

  lemma OpaqueIsIdle(n: Node, ev: RxEvent, h: PacketHeader)
    ensures var (m, out) := MaybeRelayOpaque(n, ev, h);
            && m.pending == n.pending && m.nextSerial == n.nextSerial
            && forall l :: l in out.log ==> !l.Tracking? && !l.Resent? && !l.Acked? && !l.EchoHeard? && !l.GaveUpOn?
  {
    hide RelayOpaque, HopLimitOf, HopStartOf;
  }

  lemma TrackingKeepsBalance(n: Node, m: Node, log: seq<Line>, e: PendingPacket, s: nat)
    requires Balanced(n, log, s)
    requires e.serial == n.nextSerial && e.retriesLeft == NUM_RELIABLE_RETX
    requires m.pending == n.pending + [e] && m.nextSerial == n.nextSerial + 1
    ensures Balanced(m, log + [Tracking(e.serial, e.frame)], s)
  {
    hide Live, RetriesLeft, Begun, ResentIn, Ended, Exhausted;
    ConcatBooks(log, [Tracking(e.serial, e.frame)], s);
    OneBook(Tracking(e.serial, e.frame), s);
    AddingBooks(n.pending, e, s);
  }

  lemma AddingBooks(p: seq<PendingPacket>, e: PendingPacket, s: nat)
    ensures Live(p + [e], s) == Live(p, s) + EntryIs(s)(e)
    ensures RetriesLeft(p + [e], s) == RetriesLeft(p, s) + RetriesOf(s)(e)
  {
    SumAppend(p, e, EntryIs(s));
    SumAppend(p, e, RetriesOf(s));
  }

  lemma PhoneKeepsBalance(env: Env, n: Node, log: seq<Line>, pkt: PhonePacket, at: nat, extraNonce: u32, s: nat)
    requires Balanced(n, log, s)
    ensures var (m, out) := TransmitFromPhone(env, n, pkt, at, extraNonce);
            Balanced(m, log + out.log, s)
  {
    hide Tx.Build, ChooseKey, SendAll, PhoneRequest, SendBleResult, Balanced;
    var (m, out) := TransmitFromPhone(env, n, pkt, at, extraNonce);
    if out.log == [] {
      IdleKeepsBalance(n, m, log, out.log, s);
    } else {
      var e := m.pending[|m.pending| - 1];
      assert out.log == [Tracking(e.serial, e.frame)];
      TrackingKeepsBalance(n, m, log, e, s);
    }
  }

  lemma StepKeepsBalance(env: Env, n: Node, log: seq<Line>, e: Event, s: nat)
    requires Balanced(n, log, s)
    ensures var (m, out) := Step(env, n, e);
            Balanced(m, log + out.log, s)
  {
    hide Dispatch, TransmitFromPhone, RetxTick, SendAll, Live, RetriesLeft, Begun, ResentIn, Ended, Exhausted;
    match e
    case Rx(ev) =>
      var x := n.(pending := ExtendDeadlines(n.pending, RETX_AIRTIME_EXTENSION_MS));
      ExtendingKeepsBooks(n.pending, RETX_AIRTIME_EXTENSION_MS, s);
      DispatchKeepsBalance(env, x, log, ev, s);
    case RetxTimer(now) => TickKeepsBalance(n, log, now, s);
    case Phone(pkt, at, extraNonce) => PhoneKeepsBalance(env, n, log, pkt, at, extraNonce, s);
    case _ => IdleKeepsBalance(n, Step(env, n, e).0, log, Step(env, n, e).1.log, s);
  }

  /** Before anything has been tracked. */
  predicate NothingTracked(n: Node) { n.pending == [] && n.nextSerial == 0 }

  lemma {:induction false} BooksAlwaysBalance(env: Env, n: Node, es: seq<Event>, s: nat)
    requires NothingTracked(n)
    ensures var (m, out) := Run(env, n, es);
            Balanced(m, out.log, s)
    decreases |es|
  {
    hide Step;
    if es != [] {
      var init, last := es[..|es| - 1], es[|es| - 1];
      BooksAlwaysBalance(env, n, init, s);
      var (n1, o1) := Run(env, n, init);
      StepKeepsBalance(env, n1, o1.log, last, s);
    }
  }

  /** Over every run: each tracked packet is transmitted once and retried at most three times,
      so at most four transmissions; it ends at most once, and has not ended exactly while it is
      queued; and giving up on it means all three retries were made. */
  lemma TrackedPacketsLiveOnce(env: Env, n: Node, es: seq<Event>, s: nat)
    requires NothingTracked(n)
    ensures var (m, out) := Run(env, n, es);
            && Begun(out.log, s) == (if s < m.nextSerial then 1 else 0)
            && Begun(out.log, s) + ResentIn(out.log, s) <= 1 + NUM_RELIABLE_RETX
            && Ended(out.log, s) <= 1
            && (s < m.nextSerial ==> (Ended(out.log, s) == 0 <==> Live(m.pending, s) == 1))
            && (Exhausted(out.log, s) > 0 ==> ResentIn(out.log, s) == NUM_RELIABLE_RETX)
  {
    hide Run, Live, RetriesLeft, Begun, ResentIn, Ended, Exhausted;
    BooksAlwaysBalance(env, n, es, s);
  }
}
