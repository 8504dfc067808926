/** Unreadable packets over whole runs: which ones a node remembers, and which it relays twice. */
module Opaque {
  import opened Bytes
  import opened Vecs
  import opened Rings
  import opened Packet
  import opened Device
  import opened NodeDb
  import opened Receive
  import opened Router
  import opened Retransmit
  import opened Mesh
  import opened Processing

  function Remembered(keys: seq<Key>): seq<Key> { LastN(keys, OPAQUE_SEEN_RING_SIZE) }

  /** The unreadable packets a log accepts, in order, each only when not among the last 32. */
  function OpaqueKeys(log: seq<Line>): seq<Key> {
    if log == [] then []
    else
      var before, last := OpaqueKeys(log[..|log| - 1]), log[|log| - 1];
      if last.OpaqueAccepted? && last.key !in Remembered(before) then before + [last.key] else before
  }

  /** No key occurs twice within any 33 consecutive ones. */
  ghost predicate FarApart(keys: seq<Key>) {
    forall i, j :: 0 <= i < j < |keys| && j - i <= OPAQUE_SEEN_RING_SIZE ==> keys[i] != keys[j]
  }

  /** A packet still remembered is accepted only when its originator is retransmitting it. */
  ghost predicate RepeatsAreRetransmissions(log: seq<Line>) {
    forall k :: 0 <= k < |log| && log[k].OpaqueAccepted? && log[k].key in Remembered(OpaqueKeys(log[..k])) ==>
      log[k].again
  }

  ghost predicate Recalls(seen: seq<Key>, log: seq<Line>) {
    seen == Remembered(OpaqueKeys(log)) && FarApart(OpaqueKeys(log)) && RepeatsAreRetransmissions(log)
  }

  ghost predicate NothingOpaque(lines: seq<Line>) { forall l :: l in lines ==> !l.OpaqueAccepted? }

  lemma {:induction false} OtherLinesChangeNothing(seen: seq<Key>, log: seq<Line>, more: seq<Line>)
    requires Recalls(seen, log) && NothingOpaque(more)
    ensures Recalls(seen, log + more)
  {
    if more == [] {
      assert log + more == log;
    } else {
      var init, last := more[..|more| - 1], more[|more| - 1];
      OtherLinesChangeNothing(seen, log, init);
      OneMoreLine(log + init, last);
      assert log + more == (log + init) + [last];
    }
  }

  lemma OneMoreLine(log: seq<Line>, l: Line)
    requires RepeatsAreRetransmissions(log)
    requires l.OpaqueAccepted? && l.key in Remembered(OpaqueKeys(log)) ==> l.again
    ensures RepeatsAreRetransmissions(log + [l])
    ensures OpaqueKeys(log + [l])
         == if l.OpaqueAccepted? && l.key !in Remembered(OpaqueKeys(log)) then OpaqueKeys(log) + [l.key]
            else OpaqueKeys(log)
  {
    hide OpaqueKeys, Remembered;
    assert (log + [l])[..|log|] == log;
    assert forall k :: 0 <= k < |log| ==> (log + [l])[..k] == log[..k];
    LastOpaqueKey(log, l);
  }

  lemma LastOpaqueKey(log: seq<Line>, l: Line)
    ensures OpaqueKeys(log + [l])
         == if l.OpaqueAccepted? && l.key !in Remembered(OpaqueKeys(log)) then OpaqueKeys(log) + [l.key]
            else OpaqueKeys(log)
  {
    assert (log + [l])[..|log|] == log;
  }

  lemma NewKeyIsFarApart(keys: seq<Key>, key: Key)
    requires FarApart(keys) && key !in Remembered(keys)
    ensures FarApart(keys + [key])
  {
    var recent := Remembered(keys);
    forall i | 0 <= i < |keys| && |keys| - i <= OPAQUE_SEEN_RING_SIZE
      ensures keys[i] != key
    {
      assert keys[i] == recent[i - (|keys| - |recent|)];
    }
  }

  lemma AcceptingRecalls(seen: seq<Key>, log: seq<Line>, key: Key, hopStart: u8, hopLimit: u8)
    requires Recalls(seen, log)
    ensures var (relay, after) := RelayOpaque(seen, key, hopStart, hopLimit);
            Recalls(after, if relay then log + [OpaqueAccepted(key, 0 < hopStart == hopLimit)] else log)
  {
    hide FarApart, RepeatsAreRetransmissions, OpaqueKeys, LastN;
    var keys := OpaqueKeys(log);
    OpaqueRingRefinesLog(keys, key, hopStart, hopLimit);
    if RelayOpaque(seen, key, hopStart, hopLimit).0 {
      OneMoreLine(log, OpaqueAccepted(key, 0 < hopStart == hopLimit));
      if key !in seen {
        NewKeyIsFarApart(keys, key);
      }
    }
  }

  // ---- One event ----

  lemma OpaqueRelayingRecalls(n: Node, log: seq<Line>, ev: RxEvent, h: PacketHeader)
    requires Recalls(n.opaqueSeen, log)
    ensures var (m, out) := MaybeRelayOpaque(n, ev, h);
            Recalls(m.opaqueSeen, log + out.log)
  {
    hide Recalls, RelayOpaque, ScheduleRelay, HopLimitOf, HopStartOf;
    var key := Key(h.sender, h.packetId);
    var (m, out) := MaybeRelayOpaque(n, ev, h);
    assert log + [] == log;
    AcceptingRecalls(n.opaqueSeen, log, key, h.HopStart(), h.HopLimit());
    if out.log != [] {
      var first := OpaqueAccepted(key, 0 < h.HopStart() == h.HopLimit());
      var rest := Reschedule(n.(opaqueSeen := m.opaqueSeen), ev, h.HopLimit() - 1).1.log;
      SchedulingIsNotOpaque(n.(opaqueSeen := m.opaqueSeen), ev, h.HopLimit() - 1);
      assert out.log == [first] + rest && log + out.log == (log + [first]) + rest;
      OtherLinesChangeNothing(m.opaqueSeen, log + [first], rest);
    }
  }

  lemma SchedulingIsNotOpaque(n: Node, ev: RxEvent, hop: u8)
    ensures NothingOpaque(Reschedule(n, ev, hop).1.log) && Reschedule(n, ev, hop).0.opaqueSeen == n.opaqueSeen
  {}

  lemma HandlersKeepOpaque(env: Env, n: Node, ev: RxEvent, p: Inbound, portnum: i32)
    ensures var (m, out) := RunHandler(env, n, ev, p, portnum);
            m.opaqueSeen == n.opaqueSeen && NothingOpaque(out.log)
  {
    hide SendAll, LearnRoute, SendBleResult;
  }

  lemma ProcessingKeepsOpaque(env: Env, n: Node, ev: RxEvent, h: PacketHeader, d: DecodedPayload)
    ensures var (m, out) := ProcessLocally(env, n, ev, h, d);
            m.opaqueSeen == n.opaqueSeen && NothingOpaque(out.log)
  {
    hide ProcessLocally, RunHandler, HandlerInput;
    OnlyTheHandlerLogs(env, n, ev, h, d);
    var (x, p) := HandlerInput(env, n, ev, h, d);
    HandlersKeepOpaque(env, x, ev, p, d.portnum);
  }

  lemma FloodKeepsOpaque(env: Env, n: Node, ev: RxEvent, d: DecodedPayload)
    requires ev.frame.Framed?
    ensures var (m, out) := Flood(env, n, ev, ev.frame.hdr, d);
            m.opaqueSeen == n.opaqueSeen && NothingOpaque(out.log)
  {
    hide ProcessLocally, Filter, PendingHopLimit, UpgradeRelay, Reschedule;
    var h := ev.frame.hdr;
    var key := Key(h.sender, h.packetId);
    var (verdict, recent) :=
      Filter(n.recent, n.dev.LastByte(), n.dev.role, key, h.HopLimit(), h.relayNode, PendingHopLimit(n.relays, key));
    if verdict.New? {
      ProcessingKeepsOpaque(env, n.(recent := recent), ev, h, d);
      var n1 := ProcessLocally(env, n.(recent := recent), ev, h, d).0;
      if h.HopLimit() > 0 {
        SchedulingIsNotOpaque(n1, ev, h.HopLimit() - 1);
      }
    }
  }

  lemma DispatchRecalls(env: Env, n: Node, log: seq<Line>, ev: RxEvent)
    requires Recalls(n.opaqueSeen, log)
    ensures var (m, out) := Dispatch(env, n, ev);
            Recalls(m.opaqueSeen, log + out.log)
  {
    hide Recalls, OutcomeOf, Flood, MaybeRelayOpaque, SendNodeInfo, Send;
    if ev.frame.Framed? && ev.frame.hdr.sender != n.dev.myNodeNum {
      match OutcomeOf(env, n, ev.frame)
      case PkiUnknownPubkey =>
      case Drop =>
        OpaqueRelayingRecalls(n, log, ev, ev.frame.hdr);
        if ev.frame.hdr.destination != n.dev.myNodeNum {
          return;
        }
      case Decoded(d) => FloodKeepsOpaque(env, n, ev, d);
    }
    OtherLinesChangeNothing(n.opaqueSeen, log, Dispatch(env, n, ev).1.log);
  }

  lemma StepRecalls(env: Env, n: Node, log: seq<Line>, e: Event)
    requires Recalls(n.opaqueSeen, log)
    ensures var (m, out) := Step(env, n, e);
            Recalls(m.opaqueSeen, log + out.log)
  {
    hide Recalls, Dispatch, TransmitFromPhone, SendAll, TickFrom, ReportGiveUps;
    match e
    case Rx(ev) => DispatchRecalls(env, n.(pending := ExtendDeadlines(n.pending, RETX_AIRTIME_EXTENSION_MS)), log, ev);
    case Phone(_, _, _) =>
      PhoneTouchesNoQueue(env, n, e);
      OtherLinesChangeNothing(n.opaqueSeen, log, Step(env, n, e).1.log);
    case _ => OtherLinesChangeNothing(n.opaqueSeen, log, Step(env, n, e).1.log);
  }

  /** Over every run the opaque ring is exactly the last 32 unreadable packets accepted, none of them
      twice within 33 in a row, and one that is still remembered is relayed again only when its
      originator is retransmitting it. */
  lemma {:induction false} OpaquePacketsOverEveryRun(env: Env, n: Node, es: seq<Event>)
    requires n.opaqueSeen == []
    ensures var (m, out) := Run(env, n, es);
            Recalls(m.opaqueSeen, out.log)
    decreases |es|
  {
    hide Step, Recalls;
    if es == [] {
      NothingRecalled();
    } else {
      OpaquePacketsOverEveryRun(env, n, es[..|es| - 1]);
      var (n1, o1) := Run(env, n, es[..|es| - 1]);
      StepRecalls(env, n1, o1.log, es[|es| - 1]);
    }
  }

  lemma NothingRecalled()
    ensures Recalls([], [])
  {}
}
