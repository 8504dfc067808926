/** What the retries of a tracked packet send: the packet itself, and the last time with its
    next hop cleared so that everybody may relay it. */
module Retries {
  import opened Bytes
  import opened Vecs
  import opened Packet
  import opened Device
  import opened NodeDb
  import opened Receive
  import opened Router
  import opened Retransmit
  import opened Mesh
  import opened Processing
  import opened Lifecycle
  import Tx

  function TracksSerial(s: nat): Line -> bool { (l: Line) => l.Tracking? && l.serial == s }

  /** The frame a packet was first sent in. */
  function TrackedFrame(log: seq<Line>, s: nat): Option<RadioFrame> {
    var i := Position(log, TracksSerial(s));
    if i < |log| && log[i].Tracking? then Some(log[i].frame) else None
  }

  function PacketIdOf(f: RadioFrame): u32 { if f.Framed? then f.hdr.packetId else 0 }

  function ForAll(f: RadioFrame): RadioFrame { f.WithNextHop(NO_NEXT_HOP) }

  /** `f` repeats the packet of serial `s`: exactly, but flooded if it is the third repeat. */
  predicate Faithful(log: seq<Line>, s: nat, f: RadioFrame) {
    var t := TrackedFrame(log, s);
    t.Some? && f == if ResentIn(log, s) == 2 then ForAll(t.value) else t.value
  }

  ghost predicate RetriesFaithful(log: seq<Line>) {
    forall k :: 0 <= k < |log| && log[k].Resent? ==> Faithful(log[..k], log[k].serial, log[k].frame)
  }

  /** A queued entry holds the packet as first sent until it has spent its retries, knows its
      id, and knows whom to tell. */
  predicate HoldsPacket(log: seq<Line>, e: PendingPacket) {
    var t := TrackedFrame(log, e.serial);
    && t.Some? && e.frame == (if e.retriesLeft == 0 then ForAll(t.value) else t.value)
    && e.packetId == PacketIdOf(t.value) && e.bleNotify.Some?
  }

  ghost predicate AllHold(log: seq<Line>, p: seq<PendingPacket>) {
    forall e :: e in p ==> HoldsPacket(log, e)
  }

  lemma TrackedFrameStays(log: seq<Line>, more: seq<Line>, s: nat)
    requires TrackedFrame(log, s).Some?
    ensures TrackedFrame(log + more, s) == TrackedFrame(log, s)
  {
    var i, j := Position(log, TracksSerial(s)), Position(log + more, TracksSerial(s));
    assert (log + more)[i] == log[i];
    assert forall k :: 0 <= k < |log| ==> (log + more)[k] == log[k];
  }

  lemma TrackedFrameStarts(log: seq<Line>, s: nat, f: RadioFrame)
    requires Begun(log, s) == 0
    ensures TrackedFrame(log + [Tracking(s, f)], s) == Some(f)
  {
    var all := log + [Tracking(s, f)];
    var i := Position(all, TracksSerial(s));
    assert TracksSerial(s)(all[|log|]);
    if i < |log| {
      assert all[i] == log[i];
      SumAtLeast(log, i, Begins(s));
    }
  }

  /** A queued entry that differs at most in its deadline from one that was there before. */
  predicate Waited(e: PendingPacket, was: PendingPacket) {
    e == was.(deadline := e.deadline)
  }

  ghost predicate AllWaited(p: seq<PendingPacket>, was: seq<PendingPacket>) {
    forall e :: e in p ==> exists o :: o in was && Waited(e, o)
  }

  lemma WaitingHolds(log: seq<Line>, more: seq<Line>, was: seq<PendingPacket>, p: seq<PendingPacket>)
    requires AllHold(log, was) && AllWaited(p, was)
    ensures AllHold(log + more, p)
  {
    forall e | e in p
      ensures HoldsPacket(log + more, e)
    {
      var o :| o in was && Waited(e, o);
      TrackedFrameStays(log, more, o.serial);
    }
  }

  lemma QuietKeepsFaithful(log: seq<Line>, more: seq<Line>)
    requires RetriesFaithful(log) && forall l :: l in more ==> !l.Resent?
    ensures RetriesFaithful(log + more)
  {
    var all := log + more;
    assert forall k :: |log| <= k < |all| ==> all[k] == more[k - |log|];
    forall k | 0 <= k < |log| && log[k].Resent?
      ensures Faithful(all[..k], all[k].serial, all[k].frame)
    {
      assert all[..k] == log[..k];
    }
  }

  // ---- The tick ----

  lemma {:induction false} ResendComesFrom(p: seq<PendingPacket>, now: nat, r: Resend) returns (e: PendingPacket)
    requires r in AllResends(p, now)
    ensures e in p && e.retriesLeft > 0 && r == Resend(e.serial, RetryFrame(e))
  {
    if r in Retransmit.Resends(p[0], now) {
      e := p[0];
    } else {
      e := ResendComesFrom(p[1..], now, r);
    }
  }

  lemma {:induction false} SurvivorComesFrom(p: seq<PendingPacket>, now: nat, q: PendingPacket)
    returns (e: PendingPacket)
    requires q in Survivors(p, now)
    ensures e in p && (q == e || (e.retriesLeft > 0 && q == Retried(e, now)))
  {
    if q in Survives(p[0], now) {
      e := p[0];
    } else {
      e := SurvivorComesFrom(p[1..], now, q);
    }
  }

  lemma {:induction false} OnlyOneHoldsItsRetries(p: seq<PendingPacket>, e: PendingPacket)
    requires e in p && Live(p, e.serial) <= 1
    ensures Live(p, e.serial) == 1 && RetriesLeft(p, e.serial) == e.retriesLeft
  {
    var s := e.serial;
    if p[0] == e {
      NotLiveHasNoRetries(p[1..], s);
    } else {
      OnlyOneHoldsItsRetries(p[1..], e);
    }
  }

  lemma TickHolds(log: seq<Line>, more: seq<Line>, p: seq<PendingPacket>, now: nat, db: Db)
    requires AllHold(log, p)
    ensures AllHold(log + more, TickFrom(p, 0, now, db).pending)
  {
    hide TickFrom;
    var t := TickFrom(p, 0, now, db);
    TickHandlesEachExpiredEntryOnce(p, now, db);
    forall q | q in t.pending
      ensures HoldsPacket(log + more, q)
    {
      assert q in multiset(Survivors(p, now));
      var e := SurvivorComesFrom(p, now, q);
      TrackedFrameStays(log, more, e.serial);
    }
  }

  /** Nothing in this tick was resent under the serial of the resend at `j` before it. */
  lemma {:induction false} OneResendPerTick(log: seq<Line>, rs: seq<Resend>, gs: seq<GiveUp>, j: nat)
    requires j < |rs| && Sum(rs, ResendIs(rs[j].serial)) <= 1
    ensures ResentIn(log + TickLines(rs, gs)[..j], rs[j].serial) == ResentIn(log, rs[j].serial)
  {
    hide ResentIn, Begun, Ended, Exhausted;
    var s := rs[j].serial;
    assert TickLines(rs, gs)[..j] == ResentLines(rs[..j]);
    SumSplit(rs, j, ResendIs(s));
    ResentLinesCount(rs[..j], s);
    ConcatBooks(log, ResentLines(rs[..j]), s);
  }

  lemma ResendIsFaithful(log: seq<Line>, p: seq<PendingPacket>, now: nat, r: Resend, before: seq<Line>)
    requires AllHold(log, p) && r in AllResends(p, now)
    requires Live(p, r.serial) <= 1 && RetriesLeft(p, r.serial) + ResentIn(log, r.serial) == 3
    requires ResentIn(log + before, r.serial) == ResentIn(log, r.serial)
    ensures Faithful(log + before, r.serial, r.frame)
  {
    hide Live, RetriesLeft, ResentIn, TrackedFrame, AllResends;
    var e := ResendComesFrom(p, now, r);
    assert HoldsPacket(log, e);
    OnlyOneHoldsItsRetries(p, e);
    TrackedFrameStays(log, before, r.serial);
  }

  lemma TickResendIsFaithful(n: Node, log: seq<Line>, now: nat, j: nat)
    requires AllHold(log, n.pending)
    requires j < |TickFrom(n.pending, 0, now, n.db).toSend|
    requires Balanced(n, log, TickFrom(n.pending, 0, now, n.db).toSend[j].serial)
    ensures var t := TickFrom(n.pending, 0, now, n.db);
            Faithful(log + TickLines(t.toSend, t.gaveUp)[..j], t.toSend[j].serial, t.toSend[j].frame)
  {
    hide TickFrom, Live, RetriesLeft, Begun, ResentIn, Ended, Exhausted, Faithful, AllHold;
    var t := TickFrom(n.pending, 0, now, n.db);
    var r := t.toSend[j];
    TickHandlesEachExpiredEntryOnce(n.pending, now, n.db);
    assert r in multiset(AllResends(n.pending, now));
    TickBooks(n.pending, now, n.db, r.serial);
    SumAtLeast(t.toSend, j, ResendIs(r.serial));
    OneResendPerTick(log, t.toSend, t.gaveUp, j);
    ResendIsFaithful(log, n.pending, now, r, TickLines(t.toSend, t.gaveUp)[..j]);
  }

  lemma TickIsFaithful(n: Node, log: seq<Line>, now: nat)
    requires AllHold(log, n.pending) && RetriesFaithful(log)
    requires forall s :: Balanced(n, log, s)
    ensures RetriesFaithful(log + RetxTick(n, now).1.log)
  {
    hide TickFrom, ReportGiveUps, Balanced, Faithful;
    var t := TickFrom(n.pending, 0, now, n.db);
    var more := TickLines(t.toSend, t.gaveUp);
    var all := log + more;
    forall k | 0 <= k < |all| && all[k].Resent?
      ensures Faithful(all[..k], all[k].serial, all[k].frame)
    {
      if k < |log| {
        assert all[..k] == log[..k];
      } else {
        var j := k - |log|;
        assert Balanced(n, log, t.toSend[j].serial);
        TickResendIsFaithful(n, log, now, j);
        assert all[..k] == log + more[..j];
      }
    }
  }

  // ---- The other events resend nothing ----

  /** What every event but the tick does to the tracked packets. */
  ghost predicate OnlyWaitsOrTracks(n: Node, m: Node, out: Out) {
    && (forall l :: l in out.log ==> !l.Resent?)
    && (AllWaited(m.pending, n.pending)
        || (exists e ::
              m.pending == n.pending + [e] && out.log == [Tracking(e.serial, e.frame)]
              && Starts(n, e)))
  }

  /** A newly tracked packet. */
  predicate Starts(n: Node, e: PendingPacket) {
    && e.serial == n.nextSerial && e.retriesLeft == NUM_RELIABLE_RETX
    && e.packetId == PacketIdOf(e.frame) && e.bleNotify.Some?
  }

  lemma SamePendingWaits(p: seq<PendingPacket>)
    ensures AllWaited(p, p)
  {
    assert forall e :: e in p ==> Waited(e, e);
  }

  lemma RemovalWaits(p: seq<PendingPacket>, i: nat)
    requires i < |p|
    ensures AllWaited(SwapRemove(p, i), p)
  {
    SwapRemoveMembers(p, i);
    assert forall e :: e in SwapRemove(p, i) ==> Waited(e, e);
  }

  lemma ExtendingWaits(p: seq<PendingPacket>, ms: nat, q: seq<PendingPacket>)
    requires AllWaited(q, ExtendDeadlines(p, ms))
    ensures AllWaited(q, p)
  {
    var x := ExtendDeadlines(p, ms);
    forall e | e in q
      ensures exists o :: o in p && Waited(e, o)
    {
      var y :| y in x && Waited(e, y);
      var i :| 0 <= i < |x| && x[i] == y;
      assert p[i] in p && Waited(e, p[i]);
    }
  }

  lemma HandlersOnlyWait(env: Env, n: Node, ev: RxEvent, p: Inbound, portnum: i32)
    ensures var (m, out) := RunHandler(env, n, ev, p, portnum);
            AllWaited(m.pending, n.pending) && forall l :: l in out.log ==> !l.Resent?
  {
    hide SendAll, LearnRoute, SendBleResult, AllWaited;
    var i := Position(n.pending, (e: PendingPacket) => e.packetId == p.requestId);
    SamePendingWaits(n.pending);
    if i < |n.pending| {
      RemovalWaits(n.pending, i);
    }
  }

  lemma LocalProcessingOnlyWaits(env: Env, n: Node, ev: RxEvent, h: PacketHeader, d: DecodedPayload)
    ensures var (m, out) := ProcessLocally(env, n, ev, h, d);
            AllWaited(m.pending, n.pending) && forall l :: l in out.log ==> !l.Resent?
  {
    hide ProcessLocally, RunHandler, HandlerInput, AllWaited;
    OnlyTheHandlerLogs(env, n, ev, h, d);
    var (x, p) := HandlerInput(env, n, ev, h, d);
    HandlersOnlyWait(env, x, ev, p, d.portnum);
  }

  lemma DispatchOnlyWaits(env: Env, n: Node, ev: RxEvent)
    ensures var (m, out) := Dispatch(env, n, ev);
            AllWaited(m.pending, n.pending) && forall l :: l in out.log ==> !l.Resent?
  {
    hide OutcomeOf, ProcessLocally, Filter, PendingHopLimit, UpgradeRelay, MaybeRelayOpaque, SendNodeInfo, Send,
      AllWaited;
    var (m, out) := Dispatch(env, n, ev);
    SamePendingWaits(n.pending);
    if ev.frame.Framed? {
      var h := ev.frame.hdr;
      if h.sender == n.dev.myNodeNum {
        var i := Position(n.pending, (p: PendingPacket) => p.packetId == h.packetId);
        if i < |n.pending| {
          RemovalWaits(n.pending, i);
        }
      } else if OutcomeOf(env, n, ev.frame).Decoded? {
        FloodOnlyWaits(env, n, ev, h, OutcomeOf(env, n, ev.frame).d);
      } else {
        OpaqueIsIdle(n, ev, h);
      }
    }
  }

  lemma FloodOnlyWaits(env: Env, n: Node, ev: RxEvent, h: PacketHeader, d: DecodedPayload)
    ensures var (m, out) := Flood(env, n, ev, h, d);
            AllWaited(m.pending, n.pending) && forall l :: l in out.log ==> !l.Resent?
  {
    hide ProcessLocally, Filter, PendingHopLimit, UpgradeRelay, AllWaited;
    var key := Key(h.sender, h.packetId);
    var recent := Filter(n.recent, n.dev.LastByte(), n.dev.role, key, h.HopLimit(), h.relayNode,
                         PendingHopLimit(n.relays, key)).1;
    SamePendingWaits(n.pending);
    LocalProcessingOnlyWaits(env, n.(recent := recent), ev, h, d);
  }

  lemma TransmitOnlyTracks(n: Node, pkt: PhonePacket, packetId: u32, f: RadioFrame, now: nat)
    requires packetId == PacketIdOf(f)
    ensures var (m, out) := TransmitFrame(n, pkt, packetId, f, now);
            OnlyWaitsOrTracks(n, m, out)
  {
    hide PhoneRequest, SendBleResult, AllWaited;
    var (m, out) := TransmitFrame(n, pkt, packetId, f, now);
    SamePendingWaits(n.pending);
    if out.log != [] {
      var e := TrackedEntry(n, f, packetId, pkt, now);
      assert m.pending == n.pending + [e] && out.log == [Tracking(e.serial, e.frame)] && Starts(n, e);
    }
  }

  lemma PhoneOnlyTracks(env: Env, n: Node, pkt: PhonePacket, at: nat, extraNonce: u32)
    ensures var (m, out) := TransmitFromPhone(env, n, pkt, at, extraNonce);
            OnlyWaitsOrTracks(n, m, out)
  {
    hide Tx.Build, ChooseKey, SendAll, PhoneRequest, SendBleResult, TransmitFrame, AllWaited;
    SamePendingWaits(n.pending);
    if !HandledLocally(n, pkt) {
      var (dev, packetId) := if pkt.id != 0 then (n.dev, pkt.id) else TakeId(n.dev);
      var n1 := n.(dev := dev);
      var choice := ChooseKey(n1, pkt);
      var keys := if choice.UsePkc? then Some(Tx.PkcKeys(n1.priv, extraNonce)) else None;
      var built := Tx.Build(env.suite, n1.dev, n1.db, PhoneRequest(pkt), packetId, keys);
      if !choice.Refuse? && built.Some? {
        Tx.BuiltFramesStartFresh(env.suite, n1.dev, n1.db, PhoneRequest(pkt), packetId, keys);
        TransmitOnlyTracks(n1, pkt, packetId, built.value, at);
      }
    }
  }

  lemma StepOnlyWaitsOrTracks(env: Env, n: Node, e: Event)
    requires !e.RetxTimer?
    ensures OnlyWaitsOrTracks(n, Step(env, n, e).0, Step(env, n, e).1)
  {
    hide Dispatch, TransmitFromPhone, SendAll, AllWaited;
    SamePendingWaits(n.pending);
    match e
    case Rx(ev) =>
      DispatchOnlyWaits(env, n.(pending := ExtendDeadlines(n.pending, RETX_AIRTIME_EXTENSION_MS)), ev);
      ExtendingWaits(n.pending, RETX_AIRTIME_EXTENSION_MS, Step(env, n, e).0.pending);
    case Phone(pkt, at, extraNonce) => PhoneOnlyTracks(env, n, pkt, at, extraNonce);
    case _ =>
  }

  lemma StepHolds(env: Env, n: Node, log: seq<Line>, e: Event)
    requires AllHold(log, n.pending) && RetriesFaithful(log)
    requires forall s :: Balanced(n, log, s)
    ensures var (m, out) := Step(env, n, e);
            AllHold(log + out.log, m.pending) && RetriesFaithful(log + out.log)
  {
    hide Dispatch, TransmitFromPhone, TickFrom, ReportGiveUps, SendAll, AllHold, RetriesFaithful, AllWaited, Balanced;
    var (m, out) := Step(env, n, e);
    if e.RetxTimer? {
      TickHolds(log, out.log, n.pending, e.now, n.db);
      TickIsFaithful(n, log, e.now);
    } else {
      StepOnlyWaitsOrTracks(env, n, e);
      QuietKeepsFaithful(log, out.log);
      SamePendingWaits(n.pending);
      if AllWaited(m.pending, n.pending) {
        WaitingHolds(log, out.log, n.pending, m.pending);
      } else {
        var p :| m.pending == n.pending + [p] && out.log == [Tracking(p.serial, p.frame)] && Starts(n, p);
        assert Balanced(n, log, p.serial);
        NewEntryHolds(n, log, p);
      }
    }
  }

  lemma NewEntryHolds(n: Node, log: seq<Line>, p: PendingPacket)
    requires AllHold(log, n.pending) && Balanced(n, log, p.serial)
    requires Starts(n, p)
    ensures AllHold(log + [Tracking(p.serial, p.frame)], n.pending + [p])
  {
    hide Live, RetriesLeft, Begun, ResentIn, Ended, Exhausted, TrackedFrame, HoldsPacket;
    var more := [Tracking(p.serial, p.frame)];
    SamePendingWaits(n.pending);
    WaitingHolds(log, more, n.pending, n.pending);
    TrackedFrameStarts(log, p.serial, p.frame);
    FreshHolds(log + more, p);
  }

  lemma FreshHolds(log: seq<Line>, e: PendingPacket)
    requires TrackedFrame(log, e.serial) == Some(e.frame) && e.retriesLeft > 0
    requires e.packetId == PacketIdOf(e.frame) && e.bleNotify.Some?
    ensures HoldsPacket(log, e)
  {}

  /** Over every run, each retry sends the very frame the packet was first sent in, except that
      the third, and only the third, clears its next hop. */
  lemma {:induction false} EveryRetryRepeatsThePacket(env: Env, n: Node, es: seq<Event>)
    requires NothingTracked(n)
    ensures RetriesFaithful(Run(env, n, es).1.log)
    ensures AllHold(Run(env, n, es).1.log, Run(env, n, es).0.pending)
    decreases |es|
  {
    hide Step, Balanced, AllHold, RetriesFaithful;
    if es == [] {
      NothingToRepeat(n);
    } else {
      var init, last := es[..|es| - 1], es[|es| - 1];
      EveryRetryRepeatsThePacket(env, n, init);
      var (n1, o1) := Run(env, n, init);
      forall s: nat
        ensures Balanced(n1, o1.log, s)
      {
        BooksAlwaysBalance(env, n, init, s);
      }
      StepHolds(env, n1, o1.log, last);
    }
  }

  lemma NothingToRepeat(n: Node)
    requires n.pending == []
    ensures RetriesFaithful([]) && AllHold([], n.pending)
  {}
}
