/** What a node's table keeps through every event: anything that the single table operations and
    the handlers keep. */
module Tables {
  import opened Bytes
  import opened Vecs
  import opened Packet
  import opened Device
  import opened NodeDb
  import opened Receive
  import opened Router
  import opened Retransmit
  import opened Mesh
  import Tx

  /** `inv` survives each thing a node itself does to its table; it always hears with time zero. */
  ghost predicate OperationsKeep(inv: Db -> bool) {
    && (forall d, num, snr, nowMs :: inv(d) ==> inv(Touch(d, num, 0, snr, nowMs)))
    && (forall d, num, hops :: inv(d) ==> inv(Amend(d, num, WithHops(hops))))
    && (forall d, num :: inv(d) ==> inv(Amend(d, num, NodeDb.WithNextHop(NO_NEXT_HOP))))
    && (forall d, num, relay :: inv(d) ==> inv(LearnRoute(d, num, relay).0))
    && (forall d: Db :: inv(d) ==> inv(d.(dirty := false)))
  }

  ghost predicate HandlersKeep(env: Env, inv: Db -> bool) {
    && (forall a: AppState, portnum, p, now :: inv(a.db) ==> inv(env.handle(a, portnum, p, now).state.db))
    && (forall a: AppState, from, id, payload :: inv(a.db) ==> inv(env.admin(a, from, id, payload).state.db))
  }

  lemma {:induction false} TickKeeps(p: seq<PendingPacket>, i: nat, now: nat, db: Db, inv: Db -> bool)
    requires i <= |p| && OperationsKeep(inv) && inv(db)
    ensures inv(TickFrom(p, i, now, db).db)
    decreases |p| - i
  {
    hide Amend;
    if i < |p| {
      if now < p[i].deadline {
        TickKeeps(p, i + 1, now, db, inv);
      } else if p[i].retriesLeft > 0 {
        var e := Retried(p[i], now);
        var d := if e.retriesLeft == 0 then Amend(db, e.dest, NodeDb.WithNextHop(NO_NEXT_HOP)) else db;
        TickKeeps(p[i := e], i + 1, now, d, inv);
      } else {
        TickKeeps(SwapRemove(p, i), i, now, db, inv);
      }
    }
  }

  lemma HandlingKeeps(env: Env, n: Node, ev: RxEvent, p: Inbound, portnum: i32, inv: Db -> bool)
    requires OperationsKeep(inv) && HandlersKeep(env, inv) && inv(n.db)
    ensures inv(RunHandler(env, n, ev, p, portnum).0.db)
  {
    hide SendAll, LearnRoute, SendBleResult;
    var a := AppOf(n);
    assert inv(env.handle(a, portnum, p, ev.now).state.db);
  }

  lemma ProcessingKeeps(env: Env, n: Node, ev: RxEvent, h: PacketHeader, d: DecodedPayload, inv: Db -> bool)
    requires OperationsKeep(inv) && HandlersKeep(env, inv) && inv(n.db)
    ensures inv(ProcessLocally(env, n, ev, h, d).0.db)
  {
    hide Send, SendNodeInfo, Touch, Amend, Get, RunHandler, HandlersKeep;
    var (n1, o1) := NoteSender(n, ev, h);
    var (n2, o2) := MaybeRequestNodeinfo(env, n1, ev, h);
    var n3 := StoreText(n2, ev, d);
    assert inv(n3.db) by {
      assert n3.db == Amend(Touch(n.db, h.sender, 0, Some(ev.snr), ev.now), h.sender, WithHops(HopsAway(h)));
    }
    HandlingKeeps(env, n3, ev, InboundOf(n2, ev, h, d), d.portnum, inv);
  }

  lemma DispatchKeeps(env: Env, n: Node, ev: RxEvent, inv: Db -> bool)
    requires OperationsKeep(inv) && HandlersKeep(env, inv) && inv(n.db)
    ensures inv(Dispatch(env, n, ev).0.db)
  {
    hide OutcomeOf, ProcessLocally, Filter, PendingHopLimit, Send, SendNodeInfo, ScheduleRelay, RelayOpaque,
      CancelledLines, UpgradeRelay, HandlersKeep, OperationsKeep;
    if ev.frame.Framed? && OutcomeOf(env, n, ev.frame).Decoded? {
      var h := ev.frame.hdr;
      var key := Key(h.sender, h.packetId);
      var recent :=
        Filter(n.recent, n.dev.LastByte(), n.dev.role, key, h.HopLimit(), h.relayNode,
               PendingHopLimit(n.relays, key)).1;
      ProcessingKeeps(env, n.(recent := recent), ev, h, OutcomeOf(env, n, ev.frame).d, inv);
    }
  }

  lemma PhoneKeeps(env: Env, n: Node, e: Event, inv: Db -> bool)
    requires e.Phone? && HandlersKeep(env, inv) && inv(n.db)
    ensures inv(Step(env, n, e).0.db)
  {
    hide Tx.Build, ChooseKey, SendAll, PhoneRequest, SendBleResult;
    var a := AppOf(n);
    assert inv(env.admin(a, e.pkt.from, e.pkt.id, e.pkt.payload).state.db);
  }

  lemma StepKeeps(env: Env, n: Node, e: Event, inv: Db -> bool)
    requires OperationsKeep(inv) && HandlersKeep(env, inv) && inv(n.db)
    ensures inv(Step(env, n, e).0.db)
  {
    hide Dispatch, TransmitFromPhone, TickFrom, SendAll, ReportGiveUps, HandlersKeep;
    match e
    case Rx(ev) => DispatchKeeps(env, n.(pending := ExtendDeadlines(n.pending, RETX_AIRTIME_EXTENSION_MS)), ev, inv);
    case RetxTimer(now) => TickKeeps(n.pending, 0, now, n.db, inv);
    case Phone(_, _, _) => PhoneKeeps(env, n, e, inv);
    case _ =>
  }

  lemma {:induction false} RunKeeps(env: Env, n: Node, es: seq<Event>, inv: Db -> bool)
    requires OperationsKeep(inv) && HandlersKeep(env, inv) && inv(n.db)
    ensures inv(Run(env, n, es).0.db)
    decreases |es|
  {
    hide Step, OperationsKeep, HandlersKeep;
    if es != [] {
      RunKeeps(env, n, es[..|es| - 1], inv);
      StepKeeps(env, Run(env, n, es[..|es| - 1]).0, es[|es| - 1], inv);
    }
  }

  // ---- A well-formed table ----

  ghost function WellFormed(our: u32): Db -> bool { (d: Db) => ValidNodes(d.nodes) && d.our == our }

  lemma OperationsKeepWellFormed(our: u32)
    ensures OperationsKeep(WellFormed(our))
  {
    hide Touch, Amend, LearnRoute, ValidNodes;
    forall d, num, snr, nowMs | WellFormed(our)(d)
      ensures WellFormed(our)(Touch(d, num, 0, snr, nowMs))
    {
      TouchKeepsValid(d, num, 0, snr, nowMs);
      TouchKeepsOwner(d, num, 0, snr, nowMs);
    }
    forall d, num, hops | WellFormed(our)(d)
      ensures WellFormed(our)(Amend(d, num, WithHops(hops)))
    {
      AmendKeepsValid(d, num, WithHops(hops));
      AmendKeepsOwner(d, num, WithHops(hops));
    }
    forall d, num | WellFormed(our)(d)
      ensures WellFormed(our)(Amend(d, num, NodeDb.WithNextHop(NO_NEXT_HOP)))
    {
      AmendKeepsValid(d, num, NodeDb.WithNextHop(NO_NEXT_HOP));
      AmendKeepsOwner(d, num, NodeDb.WithNextHop(NO_NEXT_HOP));
    }
    forall d, num, relay | WellFormed(our)(d)
      ensures WellFormed(our)(LearnRoute(d, num, relay).0)
    {
      LearnRouteKeepsValid(d, num, relay);
      LearningKeepsOwner(d, num, relay);
    }
  }

  lemma TouchKeepsOwner(d: Db, num: u32, time: u32, snr: Option<i8>, nowMs: u64)
    ensures Touch(d, num, time, snr, nowMs).our == d.our
  {}

  lemma AmendKeepsOwner(d: Db, num: u32, f: NodeEntry -> NodeEntry)
    ensures Amend(d, num, f).our == d.our
  {}

  lemma LearningKeepsOwner(d: Db, num: u32, relay: u8)
    ensures LearnRoute(d, num, relay).0.our == d.our
  {}

  lemma HandlersKeepWellFormed(env: Env, our: u32)
    requires WellBehaved(env)
    ensures HandlersKeep(env, WellFormed(our))
  {
    hide ValidNodes;
    forall a: AppState, portnum, p, now | WellFormed(our)(a.db)
      ensures WellFormed(our)(env.handle(a, portnum, p, now).state.db)
    {
      assert KeepsIdentityOf(a, env.handle(a, portnum, p, now));
    }
    forall a: AppState, from, id, payload | WellFormed(our)(a.db)
      ensures WellFormed(our)(env.admin(a, from, id, payload).state.db)
    {
      assert KeepsIdentityOf(a, env.admin(a, from, id, payload));
    }
  }

  /** Over every run the table stays well formed: at most 96 nodes, distinct and none reserved. */
  lemma TheTableStaysWellFormed(env: Env, n: Node, es: seq<Event>)
    requires WellBehaved(env) && ValidNodes(n.db.nodes)
    ensures ValidNodes(Run(env, n, es).0.db.nodes)
  {
    hide Run, OperationsKeep, HandlersKeep;
    OperationsKeepWellFormed(n.db.our);
    HandlersKeepWellFormed(env, n.db.our);
    RunKeeps(env, n, es, WellFormed(n.db.our));
  }

  lemma StepKeepsWellFormed(env: Env, n: Node, e: Event)
    requires WellBehaved(env) && ValidNodes(n.db.nodes)
    ensures ValidNodes(Step(env, n, e).0.db.nodes)
  {
    hide Step, OperationsKeep, HandlersKeep;
    OperationsKeepWellFormed(n.db.our);
    HandlersKeepWellFormed(env, n.db.our);
    StepKeeps(env, n, e, WellFormed(n.db.our));
  }
}
