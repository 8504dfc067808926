/** The distance a node records for another is the relay count of the copy that set it. */
module HopCount {
  import opened Bytes
  import opened Vecs
  import opened Packet
  import opened NodeDb
  import opened Receive
  import opened Router
  import opened Retransmit
  import opened Mesh
  import opened Network
  import opened Lineage
  import Tx
  import Tables

  /** The distances on record: which node, how many hops. */
  ghost function Distances(db: Db): set<(u32, u8)> {
    set e | e in db.nodes && e.hopsAway.Some? :: (e.nodeNum, e.hopsAway.value)
  }

  /** Handlers never make up a distance. */
  ghost predicate HandlersKeepDistances(env: Env) {
    && (forall a, portnum, p, now :: Distances(env.handle(a, portnum, p, now).state.db) <= Distances(a.db))
    && (forall a, from, id, payload :: Distances(env.admin(a, from, id, payload).state.db) <= Distances(a.db))
  }

  ghost predicate LeavesDistance(f: NodeEntry -> NodeEntry) {
    forall e: NodeEntry :: f(e).nodeNum == e.nodeNum && f(e).hopsAway == e.hopsAway
  }

  lemma UpdateDistances(db: Db, i: nat, e: NodeEntry)
    requires i < |db.nodes|
    ensures Distances(db.(nodes := db.nodes[i := e]))
            <= Distances(db) + (if e.hopsAway.Some? then {(e.nodeNum, e.hopsAway.value)} else {})
  {
    assert forall x :: x in db.nodes[i := e] ==> x == e || x in db.nodes;
  }

  lemma AmendKeepsDistances(db: Db, num: u32, f: NodeEntry -> NodeEntry)
    requires LeavesDistance(f)
    ensures Distances(Amend(db, num, f)) <= Distances(db)
  {
    var i := IndexOf(db.nodes, num);
    if i < |db.nodes| {
      UpdateDistances(db, i, f(db.nodes[i]));
      assert db.nodes[i] in db.nodes;
    }
  }

  lemma AmendOrCreateKeepsDistances(db: Db, num: u32, f: NodeEntry -> NodeEntry)
    requires LeavesDistance(f)
    ensures Distances(AmendOrCreate(db, num, f)) <= Distances(db)
  {
    var (d, i) := GetOrCreate(db, num);
    assert forall e :: e in d.nodes ==> e in db.nodes || e == Stub(num);
    assert Distances(d) <= Distances(db);
    if i.Some? && i.value < |d.nodes| {
      UpdateDistances(d, i.value, f(d.nodes[i.value]));
      assert d.nodes[i.value] in d.nodes;
    }
  }

  lemma TouchKeepsDistances(db: Db, num: u32, time: u32, snr: Option<i8>, nowMs: u64)
    ensures Distances(Touch(db, num, time, snr, nowMs)) <= Distances(db)
  {
    var pruned := PruneStale(db, time, STALE_AGE_SECS);
    assert Distances(pruned) <= Distances(db);
    AmendOrCreateKeepsDistances(db, num, Heard(time, snr, nowMs));
    AmendOrCreateKeepsDistances(pruned, num, Heard(time, snr, nowMs));
  }

  lemma LearnRouteKeepsDistances(db: Db, from: u32, relayNode: u8)
    ensures Distances(LearnRoute(db, from, relayNode).0) <= Distances(db)
  {
    var (d, i) := GetOrCreate(db, from);
    assert forall e :: e in d.nodes ==> e in db.nodes || e == Stub(from);
    assert Distances(d) <= Distances(db);
    if i.Some? && i.value < |d.nodes| {
      UpdateDistances(d, i.value, d.nodes[i.value].(nextHop := if relayNode != 0 then relayNode else from % 0x100));
      assert d.nodes[i.value] in d.nodes;
    }
  }

  lemma {:induction false} TickKeepsDistances(p: seq<PendingPacket>, i: nat, now: nat, db: Db)
    requires i <= |p|
    ensures Distances(TickFrom(p, i, now, db).db) <= Distances(db)
    decreases |p| - i
  {
    hide Amend, Distances;
    if i < |p| {
      if now < p[i].deadline {
        TickKeepsDistances(p, i + 1, now, db);
      } else if p[i].retriesLeft > 0 {
        var e := Retried(p[i], now);
        AmendKeepsDistances(db, e.dest, NodeDb.WithNextHop(NO_NEXT_HOP));
        var d := if e.retriesLeft == 0 then Amend(db, e.dest, NodeDb.WithNextHop(NO_NEXT_HOP)) else db;
        TickKeepsDistances(p[i := e], i + 1, now, d);
      } else {
        TickKeepsDistances(SwapRemove(p, i), i, now, db);
      }
    }
  }

  /** The one distance a new packet may add. */
  ghost function Learned(h: PacketHeader): set<(u32, u8)> {
    if HopsAway(h).Some? then {(h.sender, HopsAway(h).value)} else {}
  }

  /** The distances on record for everybody else. */
  ghost function Without(ds: set<(u32, u8)>, num: u32): set<(u32, u8)> { set d | d in ds && d.0 != num }

  /** Noting the sender replaces whatever distance was on record for it. */
  lemma NotingReplacesTheSender(n: Node, ev: RxEvent, h: PacketHeader)
    requires ValidNodes(n.db.nodes)
    ensures Distances(NoteSender(n, ev, h).0.db) <= Without(Distances(n.db), h.sender) + Learned(h)
  {
    hide HopsAway, Touch, PruneStale, AmendOrCreate;
    var touched := Touch(n.db, h.sender, 0, Some(ev.snr), ev.now);
    TouchKeepsValid(n.db, h.sender, 0, Some(ev.snr), ev.now);
    TouchKeepsDistances(n.db, h.sender, 0, Some(ev.snr), ev.now);
    OnlyTheAmendedCanBeNamed(touched, h.sender, HopsAway(h));
  }

  lemma OnlyTheAmendedCanBeNamed(db: Db, num: u32, hops: Option<u8>)
    requires ValidNodes(db.nodes)
    ensures Distances(Amend(db, num, WithHops(hops)))
            <= Without(Distances(db), num) + if hops.Some? then {(num, hops.value)} else {}
  {
    var i, after := IndexOf(db.nodes, num), Amend(db, num, WithHops(hops)).nodes;
    forall e | e in after && e.hopsAway.Some?
      ensures (e in db.nodes && e.nodeNum != num) || (e.nodeNum == num && e.hopsAway == hops)
    {
      var k :| 0 <= k < |after| && after[k] == e;
      if k != i {
        assert db.nodes[k] == e;
      }
    }
  }

  lemma HandlersAddNothing(env: Env, n: Node, ev: RxEvent, p: Inbound, portnum: i32)
    requires HandlersKeepDistances(env)
    ensures Distances(RunHandler(env, n, ev, p, portnum).0.db) <= Distances(n.db)
  {
    hide Distances, SendAll, LearnRoute, SendBleResult;
    LearnRouteKeepsDistances(n.db, p.sender, p.relayNode);
  }

  lemma ProcessingReplacesTheSender(env: Env, n: Node, ev: RxEvent, h: PacketHeader, d: DecodedPayload)
    requires HandlersKeepDistances(env) && ValidNodes(n.db.nodes)
    ensures Distances(ProcessLocally(env, n, ev, h, d).0.db) <= Without(Distances(n.db), h.sender) + Learned(h)
  {
    hide Distances, Learned, Without, Send, SendNodeInfo, Touch, Amend, Get, RunHandler, HandlersKeepDistances;
    var (n1, o1) := NoteSender(n, ev, h);
    NotingReplacesTheSender(n, ev, h);
    var (n2, o2) := MaybeRequestNodeinfo(env, n1, ev, h);
    var n3 := StoreText(n2, ev, d);
    assert n3.db == n1.db;
    HandlersAddNothing(env, n3, ev, InboundOf(n2, ev, h, d), d.portnum);
  }

  /** A reception replaces the sender's distance if it is taken up as new, and adds none otherwise. */
  lemma DispatchReplacesTheSender(env: Env, n: Node, ev: RxEvent)
    requires HandlersKeepDistances(env) && ValidNodes(n.db.nodes) && ev.frame.Framed?
    ensures var (after, out) := Dispatch(env, n, ev);
            Distances(after.db) <=
            if TakesUp(out.log) then Without(Distances(n.db), ev.frame.hdr.sender) + Learned(ev.frame.hdr)
            else Distances(n.db)
  {
    hide Distances, Learned, Without, OutcomeOf, ProcessLocally, Filter, Send, SendNodeInfo, RelayOpaque, UpgradeRelay,
      HandlersKeepDistances, RelayDecision;
    var h := ev.frame.hdr;
    if h.sender != n.dev.myNodeNum && OutcomeOf(env, n, ev.frame).Decoded? {
      var key := Key(h.sender, h.packetId);
      var (verdict, recent) := Filter(n.recent, n.dev.LastByte(), n.dev.role, key, h.HopLimit(), h.relayNode,
                                      PendingHopLimit(n.relays, key));
      if verdict.New? {
        var d := OutcomeOf(env, n, ev.frame).d;
        ProcessingReplacesTheSender(env, n.(recent := recent), ev, h, d);
        RelayingKeepsTheTable(ProcessLocally(env, n.(recent := recent), ev, h, d).0, ev, h);
        assert Dispatch(env, n, ev).1.log[0] == NewPacket(key);
      }
    }
  }

  lemma RelayingKeepsTheTable(n: Node, ev: RxEvent, h: PacketHeader)
    ensures RelayDecision(n, ev, h).0.db == n.db
  {}

  lemma ActAddsNothing(env: Env, n: Node, e: Event)
    requires HandlersKeepDistances(env) && Originates(e)
    ensures Distances(Step(env, n, e).0.db) <= Distances(n.db)
  {
    hide Distances, TickFrom, SendAll, ReportGiveUps, ChooseKey, Tx.Build, PhoneRequest, SendBleResult;
    match e
    case RetxTimer(now) => TickKeepsDistances(n.pending, 0, now, n.db);
    case Flush(_) => CleaningKeepsDistances(n.db);
    case _ =>
  }

  lemma CleaningKeepsDistances(db: Db)
    ensures Distances(db.(dirty := false)) == Distances(db)
  {}

  // ---- The network ----

  /** The last copy from `num` that node `i` took up as new. */
  function Latest(adopted: seq<Copy>, i: nat, num: u32): (c: Option<Copy>)
    ensures c.Some? ==> c.value in adopted && c.value.frame.Framed?
  {
    if adopted == [] then None
    else
      var c := adopted[|adopted| - 1];
      if c.to == i && c.frame.Framed? && c.frame.hdr.sender == num then Some(c)
      else Latest(adopted[..|adopted| - 1], i, num)
  }

  /** Node `i` took up a copy from `num`, and the last one had made `hops` relays. */
  ghost predicate LastCameThrough(adopted: seq<Copy>, i: nat, num: u32, hops: int) {
    Latest(adopted, i, num).Some? && Latest(adopted, i, num).value.taken == hops
  }

  ghost predicate DistancesAreCurrent(net: Net) {
    forall i, d :: 0 <= i < |net.nodes| && d in Distances(net.nodes[i].db) ==> LastCameThrough(net.adopted, i, d.0, d.1)
  }

  ghost predicate TablesAreWellFormed(net: Net) { forall n :: n in net.nodes ==> ValidNodes(n.db.nodes) }

  lemma AnotherAdoption(adopted: seq<Copy>, c: Copy, i: nat, num: u32)
    requires c.frame.Framed?
    ensures Latest(adopted + [c], i, num)
         == if c.to == i && c.frame.hdr.sender == num then Some(c) else Latest(adopted, i, num)
  {
    assert (adopted + [c])[..|adopted|] == adopted;
  }

  lemma LearnedIsTheRelayCount(c: Copy, sent: seq<Transmission>)
    requires Genuine(c.frame, c.taken, sent)
    ensures forall d :: d in Learned(c.frame.hdr) ==> d == (c.frame.hdr.sender, c.taken)
  {}

  lemma DeliverKeepsCurrent(env: Env, net: Net, i: nat, ev: RxEvent, hears: (nat, nat) -> bool)
    requires HandlersKeepDistances(env) && AllGenuine(net) && TablesAreWellFormed(net) && DistancesAreCurrent(net)
    requires i < |net.air| && net.air[i].to < |net.nodes|
    ensures DistancesAreCurrent(NetStep(env, net, Deliver(i, ev, hears)))
  {
    hide Distances, Learned, Latest, Dispatch, Emit, TakesUp, Genuine, NodeGenuine, HandlersKeepDistances, ValidNodes;
    var c := net.air[i];
    assert c in net.air;
    FramesOnly(c.frame, c.taken, net.sent);
    var x := net.nodes[c.to];
    var rx := ev.(frame := c.frame, taken := c.taken);
    var extended := x.(pending := ExtendDeadlines(x.pending, RETX_AIRTIME_EXTENSION_MS));
    DispatchReplacesTheSender(env, extended, rx);
    LearnedIsTheRelayCount(c, net.sent);
    var (n, out) := Dispatch(env, extended, rx);
    var after := NetStep(env, net, Deliver(i, ev, hears));
    assert after.nodes == net.nodes[c.to := n];
    assert after.adopted == if TakesUp(out.log) then net.adopted + [c] else net.adopted;
    forall k, d | 0 <= k < |after.nodes| && d in Distances(after.nodes[k].db)
      ensures LastCameThrough(after.adopted, k, d.0, d.1)
    {
      AnotherAdoption(net.adopted, c, k, d.0);
    }
  }

  lemma StepKeepsCurrent(env: Env, net: Net, m: Move)
    requires HandlersKeepDistances(env) && AllGenuine(net) && TablesAreWellFormed(net) && DistancesAreCurrent(net)
    ensures DistancesAreCurrent(NetStep(env, net, m))
  {
    hide Distances, Latest, Step, Emit, CopiesTo, TakesUp, AllGenuine, HandlersKeepDistances, ValidNodes;
    match m
    case Deliver(i, ev, hears) =>
      if i < |net.air| && net.air[i].to < |net.nodes| {
        DeliverKeepsCurrent(env, net, i, ev, hears);
      }
    case Fire(_, _) =>
    case Act(who, e, _) =>
      if who < |net.nodes| && Originates(e) {
        ActAddsNothing(env, net.nodes[who], e);
      }
    case Lose(_) =>
  }

  lemma StepKeepsTables(env: Env, net: Net, m: Move)
    requires WellBehaved(env) && TablesAreWellFormed(net)
    ensures TablesAreWellFormed(NetStep(env, net, m))
  {
    hide Step, Emit, CopiesTo, TakesUp, WellBehaved, ValidNodes;
    var after := NetStep(env, net, m);
    match m
    case Deliver(i, ev, _) =>
      if i < |net.air| && net.air[i].to < |net.nodes| {
        var c := net.air[i];
        Tables.StepKeepsWellFormed(env, net.nodes[c.to], Rx(ev.(frame := c.frame, taken := c.taken)));
      }
    case Fire(who, _) =>
      if who < |net.nodes| && net.nodes[who].relays != [] {
        FiringKeepsTheTable(net.nodes[who]);
      }
    case Act(who, e, _) =>
      if who < |net.nodes| && Originates(e) {
        Tables.StepKeepsWellFormed(env, net.nodes[who], e);
      }
    case Lose(_) =>
  }

  lemma FiringKeepsTheTable(n: Node)
    ensures FireRelay(n).0.db == n.db
  {}

  /** In every reachable state of a network, each hops_away on record equals the number of relays
      actually made by the last copy from that node that this node took up as new. */
  lemma {:induction false} HopsAwayIsARelayCount(env: Env, net: Net, ms: seq<Move>)
    requires WellBehaved(env) && HandlersKeepDistances(env) && Network.Quiet(net)
    ensures DistancesAreCurrent(NetRun(env, net, ms)) && TablesAreWellFormed(NetRun(env, net, ms))
    decreases |ms|
  {
    hide NetStep, Latest, AllGenuine, HandlersKeepDistances, WellBehaved;
    if ms == [] {
      assert forall n :: n in net.nodes ==> Distances(n.db) == {};
    } else {
      var before := NetRun(env, net, ms[..|ms| - 1]);
      HopsAwayIsARelayCount(env, net, ms[..|ms| - 1]);
      EveryCopyIsGenuine(env, net, ms[..|ms| - 1]);
      StepKeepsCurrent(env, before, ms[|ms| - 1]);
      StepKeepsTables(env, before, ms[|ms| - 1]);
    }
  }
}
