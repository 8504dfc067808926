/** Duplicate detection over whole runs: which packets a node takes up as new. */
module Duplicates {
  import opened Bytes
  import opened Vecs
  import opened Rings
  import opened Packet
  import opened Device
  import opened NodeDb
  import opened Receive
  import opened Router
  import opened Retransmit
  import opened Mesh
  import opened Processing

  function NewKey(l: Line): seq<Key> { if l.NewPacket? then [l.key] else [] }

  /** The packets a log calls new, in order. */
  function NewKeys(log: seq<Line>): seq<Key> {
    if log == [] then [] else NewKey(log[0]) + NewKeys(log[1..])
  }

  lemma {:induction false} NewKeysConcat(a: seq<Line>, b: seq<Line>)
    ensures NewKeys(a + b) == NewKeys(a) + NewKeys(b)
  {
    if a == [] {
      assert a + b == b;
    } else {
      assert (a + b)[1..] == a[1..] + b;
      NewKeysConcat(a[1..], b);
    }
  }

  ghost predicate NothingNew(log: seq<Line>) { forall l :: l in log ==> !l.NewPacket? }

  lemma {:induction false} NoNewKeys(log: seq<Line>)
    requires NothingNew(log)
    ensures NewKeys(log) == []
  {
    if log != [] {
      NoNewKeys(log[1..]);
    }
  }

  /** The duplicate ring holds the last 200 of `log`, which never repeats a key that close. */
  ghost predicate Remembers(recent: seq<PacketRecord>, log: seq<Key>) { Tracks(recent, log) && WindowsDistinct(log) }

  lemma HandlersKeepHistory(env: Env, n: Node, ev: RxEvent, p: Inbound, portnum: i32)
    ensures var (m, out) := RunHandler(env, n, ev, p, portnum);
            m.recent == n.recent && NothingNew(out.log)
  {
    hide SendAll, LearnRoute, SendBleResult;
  }

  lemma ProcessingKeepsHistory(env: Env, n: Node, ev: RxEvent, h: PacketHeader, d: DecodedPayload)
    ensures var (m, out) := ProcessLocally(env, n, ev, h, d);
            m.recent == n.recent && NothingNew(out.log)
  {
    hide ProcessLocally, RunHandler, HandlerInput;
    OnlyTheHandlerLogs(env, n, ev, h, d);
    var (x, p) := HandlerInput(env, n, ev, h, d);
    HandlersKeepHistory(env, x, ev, p, d.portnum);
  }

  lemma FloodRemembers(env: Env, n: Node, log: seq<Key>, ev: RxEvent, h: PacketHeader, d: DecodedPayload)
    requires Remembers(n.recent, log)
    ensures var (m, out) := Flood(env, n, ev, h, d);
            Remembers(m.recent, log + NewKeys(out.log))
  {
    hide ProcessLocally, Filter, PendingHopLimit, UpgradeRelay, Tracks, WindowsDistinct, NewKeys;
    var key := Key(h.sender, h.packetId);
    var hop := PendingHopLimit(n.relays, key);
    var (verdict, recent) := Filter(n.recent, n.dev.LastByte(), n.dev.role, key, h.HopLimit(), h.relayNode, hop);
    FilterRefinesLog(n.recent, log, n.dev.LastByte(), n.dev.role, key, h.HopLimit(), h.relayNode, hop);
    var n0 := n.(recent := recent);
    var (m, out) := Flood(env, n, ev, h, d);
    if verdict.New? {
      NewKeysStayDistinct(log, key);
      ProcessingKeepsHistory(env, n0, ev, h, d);
      var (n1, o1) := ProcessLocally(env, n0, ev, h, d);
      var (n2, o2) := RelayDecision(n1, ev, h);
      FirstLineOnly(NewPacket(key), o1.log + o2.log);
      assert m.recent == recent && out.log == [NewPacket(key)] + (o1.log + o2.log);
    } else {
      NoNewKeys(out.log);
      assert log + [] == log;
    }
  }

  lemma FirstLineOnly(l: Line, rest: seq<Line>)
    requires NothingNew(rest)
    ensures NewKeys([l] + rest) == NewKey(l)
  {
    NoNewKeys(rest);
    assert ([l] + rest)[1..] == rest;
  }

  lemma OpaqueIsNotNew(n: Node, ev: RxEvent, h: PacketHeader)
    ensures MaybeRelayOpaque(n, ev, h).0.recent == n.recent && NothingNew(MaybeRelayOpaque(n, ev, h).1.log)
  {
    hide RelayOpaque, HopLimitOf, HopStartOf;
  }

  lemma DispatchRemembers(env: Env, n: Node, log: seq<Key>, ev: RxEvent)
    requires Remembers(n.recent, log)
    ensures var (m, out) := Dispatch(env, n, ev);
            Remembers(m.recent, log + NewKeys(out.log))
  {
    hide OutcomeOf, Flood, MaybeRelayOpaque, SendNodeInfo, Send, NewKeys, Tracks, WindowsDistinct;
    var (m, out) := Dispatch(env, n, ev);
    if ev.frame.Framed? && ev.frame.hdr.sender != n.dev.myNodeNum {
      var outcome := OutcomeOf(env, n, ev.frame);
      if outcome.Decoded? {
        FloodRemembers(env, n, log, ev, ev.frame.hdr, outcome.d);
        return;
      }
      OpaqueIsNotNew(n, ev, ev.frame.hdr);
    }
    NoNewKeys(out.log);
    assert log + [] == log;
  }

  lemma StepRemembers(env: Env, n: Node, log: seq<Key>, e: Event)
    requires Remembers(n.recent, log)
    ensures var (m, out) := Step(env, n, e);
            Remembers(m.recent, log + NewKeys(out.log))
  {
    hide Dispatch, TransmitFromPhone, SendAll, TickFrom, ReportGiveUps, NewKeys, Tracks, WindowsDistinct;
    match e
    case Rx(ev) =>
      DispatchRemembers(env, n.(pending := ExtendDeadlines(n.pending, RETX_AIRTIME_EXTENSION_MS)), log, ev);
    case Phone(_, _, _) =>
      PhoneTouchesNoQueue(env, n, e);
      NoNewKeys(Step(env, n, e).1.log);
      assert log + [] == log;
    case _ =>
      NoNewKeys(Step(env, n, e).1.log);
      assert log + [] == log;
  }

  /** Over every run, the packets taken up as new never repeat within 201 in a row, and the
      duplicate ring is exactly the last 200 of them. */
  lemma {:induction false} NewPacketsAreNewOverEveryRun(env: Env, n: Node, es: seq<Event>)
    requires n.recent == []
    ensures var (m, out) := Run(env, n, es);
            Remembers(m.recent, NewKeys(out.log))
    decreases |es|
  {
    hide Step, Tracks, WindowsDistinct;
    if es == [] {
      EmptyRemembers();
    } else {
      var init, last := es[..|es| - 1], es[|es| - 1];
      NewPacketsAreNewOverEveryRun(env, n, init);
      var (n1, o1) := Run(env, n, init);
      StepRemembers(env, n1, NewKeys(o1.log), last);
      NewKeysConcat(o1.log, Step(env, n1, last).1.log);
    }
  }

  lemma EmptyRemembers()
    ensures Remembers([], [])
  {}
}
