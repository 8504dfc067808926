/** Flooding dies out: relaying uses up a budget that only originating can add to. */
module Quiescence {
  import opened Bytes
  import opened Vecs
  import opened Arith
  import opened Packet
  import opened Device
  import opened NodeDb
  import opened Receive
  import opened Router
  import opened Retransmit
  import opened Mesh
  import opened RelayLedger
  import opened Network
  import Tx

  function HopOf(f: RadioFrame): u8 {
    if f.Framed? then f.hdr.HopLimit() else 0
  }

  /** The most receptions and relays a copy with `h` hops left can cause among `n` nodes. */
  function CopyWeight(n: nat, h: nat): (w: nat)
    ensures w >= 1
    decreases h, 0
  {
    if h == 0 then 1 else RelayWeight(n, h - 1) + 1
  }

  function RelayWeight(n: nat, h: nat): nat
    decreases h, 1
  {
    Times(n, CopyWeight(n, h)) + 1
  }

  function Times(n: nat, w: nat): nat { n * w }

  function WeighCopy(n: nat): Copy -> nat { (c: Copy) => CopyWeight(n, HopOf(c.frame)) }

  function WeighRelay(n: nat): Relay -> nat { (r: Relay) => RelayWeight(n, HopOf(r.frame)) }

  function QueueWeight(n: nat, relays: seq<Relay>): nat { Sum(relays, WeighRelay(n)) }

  function WeighNode(n: nat): Node -> nat { (x: Node) => QueueWeight(n, x.relays) }

  /** The work all copies in flight and all queued relays can still cause. */
  function Measure(net: Net): nat {
    Sum(net.air, WeighCopy(|net.nodes|)) + Sum(net.nodes, WeighNode(|net.nodes|))
  }

  lemma {:induction false} WeightsGrow(n: nat, a: nat, b: nat)
    requires a <= b
    ensures CopyWeight(n, a) <= CopyWeight(n, b) && RelayWeight(n, a) <= RelayWeight(n, b)
    decreases b
  {
    if a < b {
      WeightsGrow(n, a, b - 1);
      if a > 0 {
        WeightsGrow(n, a - 1, b - 1);
      }
      OneStepGrows(n, b - 1);
    }
  }

  lemma {:induction false} OneStepGrows(n: nat, h: nat)
    ensures CopyWeight(n, h) <= CopyWeight(n, h + 1) && RelayWeight(n, h) <= RelayWeight(n, h + 1)
  {
    if h > 0 {
      OneStepGrows(n, h - 1);
    }
    Monotone(n, CopyWeight(n, h), CopyWeight(n, h + 1));
  }

  lemma HopAtMostSeven(f: RadioFrame)
    ensures HopOf(f) <= 7
  {
    if f.Framed? {
      HopFieldsFitThreeBits(f.hdr.flags);
    }
  }

  // ---- One node ----

  lemma ScheduleWeighs(n: nat, relays: seq<Relay>, r: Relay)
    ensures QueueWeight(n, ScheduleRelay(relays, r).0) <= QueueWeight(n, relays) + WeighRelay(n)(r)
  {
    var f := WeighRelay(n);
    if |relays| < MAX_RELAYS {
      SumAppend(relays, r, f);
    } else {
      var i := MinBy(relays, DeadlineOf());
      SumSwapRemove(relays, i, f);
      SumAppend(SwapRemove(relays, i), r, f);
    }
  }

  lemma RescheduleWeighs(k: nat, n: Node, ev: RxEvent)
    requires ev.frame.Framed? && ev.frame.hdr.HopLimit() > 0
    ensures QueueWeight(k, Reschedule(n, ev, ev.frame.hdr.HopLimit() - 1).0.relays) + 1
         <= QueueWeight(k, n.relays) + CopyWeight(k, HopOf(ev.frame))
  {
    var newHop := ev.frame.hdr.HopLimit() - 1;
    HopFieldsFitThreeBits(ev.frame.hdr.flags);
    SetHopLimitRewritesOnlyHopLimit(ev.frame.hdr.flags, newHop);
    ScheduleWeighs(k, n.relays, Relay(ev.frame.Rewritten(newHop, n.dev.LastByte()), ev.now + ev.delay, ev.taken + 1));
  }

  lemma UpgradeWeighs(k: nat, relays: seq<Relay>, key: Key, ev: RxEvent, relay: u8)
    requires ev.frame.Framed? && ev.frame.hdr.HopLimit() > 0
    ensures QueueWeight(k, UpgradeRelay(relays, key, ev.frame.Rewritten(ev.frame.hdr.HopLimit() - 1, relay),
                                        ev.taken + 1))
            + 1
         <= QueueWeight(k, relays) + CopyWeight(k, HopOf(ev.frame))
  {
    var newHop := ev.frame.hdr.HopLimit() - 1;
    HopFieldsFitThreeBits(ev.frame.hdr.flags);
    SetHopLimitRewritesOnlyHopLimit(ev.frame.hdr.flags, newHop);
    var i := Position(relays, RelayIsFor(key));
    if i < |relays| {
      SumUpdate(relays, i, relays[i].(frame := ev.frame.Rewritten(newHop, relay), taken := ev.taken + 1),
                WeighRelay(k));
    }
  }

  /** Receiving a copy costs more than whatever relay it puts in the queue. */
  lemma FloodLightens(k: nat, env: Env, n: Node, ev: RxEvent, d: DecodedPayload)
    requires ev.frame.Framed?
    ensures QueueWeight(k, Flood(env, n, ev, ev.frame.hdr, d).0.relays) + 1
            <= QueueWeight(k, n.relays) + CopyWeight(k, HopOf(ev.frame))
  {
    hide ProcessLocally, Reschedule, Filter, UpgradeRelay, CancelledLines, CopyWeight, HopLimitOf, ScheduledIn, GoneIn,
      LicencesIn, PendingHopLimit;
    var h := ev.frame.hdr;
    var key := Key(h.sender, h.packetId);
    var pendingHop := PendingHopLimit(n.relays, key);
    var (verdict, recent) := Filter(n.recent, n.dev.LastByte(), n.dev.role, key, h.HopLimit(), h.relayNode, pendingHop);
    UpgradesNeedHops(n.recent, n.dev.LastByte(), n.dev.role, key, h.HopLimit(), h.relayNode, pendingHop);
    match verdict
    case New =>
      LocalProcessingLeavesRelays(env, n.(recent := recent), ev, h, d, key);
      if h.HopLimit() > 0 {
        RescheduleWeighs(k, ProcessLocally(env, n.(recent := recent), ev, h, d).0, ev);
      }
    case DuplicateUpgrade(newHop) => UpgradeWeighs(k, n.relays, key, ev, n.dev.LastByte());
    case DuplicateCancelRelay => SumRetain(n.relays, RelayIsNotFor(key), WeighRelay(k));
    case DuplicateDrop =>
  }

  lemma DispatchLightens(k: nat, env: Env, n: Node, ev: RxEvent)
    ensures QueueWeight(k, Dispatch(env, n, ev).0.relays) + 1
            <= QueueWeight(k, n.relays) + CopyWeight(k, HopOf(ev.frame))
  {
    hide OutcomeOf, Flood, Reschedule, RelayOpaque, SendNodeInfo, Send, CopyWeight, HopStartOf, HopLimitOf;
    if ev.frame.Framed? && ev.frame.hdr.sender != n.dev.myNodeNum {
      match OutcomeOf(env, n, ev.frame)
      case PkiUnknownPubkey =>
      case Drop =>
        var h := ev.frame.hdr;
        if h.HopLimit() > 0 {
          var seen := RelayOpaque(n.opaqueSeen, Key(h.sender, h.packetId), h.HopStart(), h.HopLimit()).1;
          RescheduleWeighs(k, n.(opaqueSeen := seen), ev);
        }
      case Decoded(d) => FloodLightens(k, env, n, ev, d);
    }
  }

  lemma OriginatingLeavesRelays(env: Env, n: Node, e: Event)
    requires Originates(e)
    ensures Step(env, n, e).0.relays == n.relays
  {
    hide Tx.Build, SendAll, TickFrom, ReportGiveUps, ChooseKey, PhoneRequest;
  }

  // ---- The network ----

  lemma {:induction false} CopiesWeigh(f: RadioFrame, taken: nat, hears: (nat, nat) -> bool, j: nat, n: nat, k: nat)
    ensures Sum(CopiesTo(f, taken, hears, j, n), WeighCopy(k)) <= n * CopyWeight(k, HopOf(f))
  {
    hide CopyWeight, CopiesTo, HopOf;
    SumBounded(CopiesTo(f, taken, hears, j, n), WeighCopy(k), CopyWeight(k, HopOf(f)));
    Monotone(CopyWeight(k, HopOf(f)), |CopiesTo(f, taken, hears, j, n)|, n);
  }

  /** The budget one originated transmission brings in. */
  function Budget(n: nat): nat { n * CopyWeight(n, 7) }

  lemma OneMore(k: nat, b: nat)
    ensures (k + 1) * b == k * b + b
  {}

  lemma {:induction false} EmittedWeigh(frames: seq<RadioFrame>, hears: (nat, nat) -> bool, n: nat)
    ensures Sum(Emit(frames, hears, n), WeighCopy(n)) <= |frames| * Budget(n)
  {
    hide HopOf, CopyWeight, WeighCopy;
    if frames != [] {
      var last := |frames| - 1;
      var f := frames[last];
      EmittedWeigh(frames[..last], hears, n);
      SumConcat(Emit(frames[..last], hears, n), CopiesTo(f, 0, hears, last, n), WeighCopy(n));
      CopiesWeigh(f, 0, hears, last, n, n);
      HopAtMostSeven(f);
      WeightsGrow(n, HopOf(f), 7);
      Monotone(n, CopyWeight(n, HopOf(f)), CopyWeight(n, 7));
      OneMore(last, Budget(n));
    }
  }

  lemma WithoutWeighs(air: seq<Copy>, i: nat, k: nat)
    requires i < |air|
    ensures Sum(Without(air, i), WeighCopy(k)) + WeighCopy(k)(air[i]) == Sum(air, WeighCopy(k))
  {
    SumSplit(air, i, WeighCopy(k));
    SumConcat(air[..i], air[i + 1..], WeighCopy(k));
  }

  /** Receptions and relay transmissions are the work of flooding. */
  function Work(net: Net, m: Move): nat {
    match m
    case Deliver(i, _, _) => if i < |net.air| && net.air[i].to < |net.nodes| then 1 else 0
    case Fire(who, _) => if who < |net.nodes| && net.nodes[who].relays != [] then 1 else 0
    case Act(_, _, _) => 0
    case Lose(_) => 0
  }

  lemma DeliverLightens(env: Env, net: Net, i: nat, ev: RxEvent, hears: (nat, nat) -> bool)
    requires i < |net.air| && net.air[i].to < |net.nodes|
    ensures var after := NetStep(env, net, Deliver(i, ev, hears));
            && |after.nodes| == |net.nodes|
            && Measure(after) + 1 <= Measure(net) + (|after.sent| - |net.sent|) * Budget(|net.nodes|)
  {
    hide Step, CopyWeight, RelayWeight;
    var k, c := |net.nodes|, net.air[i];
    var rx := ev.(frame := c.frame, taken := c.taken);
    var (n, out) := Step(env, net.nodes[c.to], Rx(rx));
    ReceivingLightens(k, env, net.nodes[c.to], rx);
    SumUpdate(net.nodes, c.to, n, WeighNode(k));
    WithoutWeighs(net.air, i, k);
    SumConcat(Without(net.air, i), Emit(out.lora, hears, k), WeighCopy(k));
    EmittedWeigh(out.lora, hears, k);
  }

  lemma ReceivingLightens(k: nat, env: Env, n: Node, rx: RxEvent)
    ensures QueueWeight(k, Step(env, n, Rx(rx)).0.relays) + 1
            <= QueueWeight(k, n.relays) + CopyWeight(k, HopOf(rx.frame))
  {
    hide Dispatch, CopyWeight;
    DispatchLightens(k, env, n.(pending := ExtendDeadlines(n.pending, RETX_AIRTIME_EXTENSION_MS)), rx);
  }

  lemma RelayPaysForItsCopies(n: nat, h: nat)
    ensures RelayWeight(n, h) == Times(n, CopyWeight(n, h)) + 1
  {}

  lemma FireLightens(env: Env, net: Net, who: nat, hears: (nat, nat) -> bool)
    requires who < |net.nodes| && net.nodes[who].relays != []
    ensures var after := NetStep(env, net, Fire(who, hears));
            |after.nodes| == |net.nodes| && after.sent == net.sent && Measure(after) + 1 <= Measure(net)
  {
    hide MinBy, CopyWeight, RelayWeight, CopiesTo, HopOf;
    var k, x := |net.nodes|, net.nodes[who];
    var i := MinBy(x.relays, DeadlineOf());
    var r := x.relays[i];
    SumSwapRemove(x.relays, i, WeighRelay(k));
    SumUpdate(net.nodes, who, FireRelay(x).0, WeighNode(k));
    SumConcat(net.air, CopiesTo(r.frame, r.taken, hears, 0, k), WeighCopy(k));
    CopiesWeigh(r.frame, r.taken, hears, 0, k, k);
    RelayPaysForItsCopies(k, HopOf(r.frame));
  }

  lemma ActAddsBudget(env: Env, net: Net, who: nat, e: Event, hears: (nat, nat) -> bool)
    requires who < |net.nodes| && Originates(e)
    ensures var after := NetStep(env, net, Act(who, e, hears));
            && |after.nodes| == |net.nodes|
            && Measure(after) <= Measure(net) + (|after.sent| - |net.sent|) * Budget(|net.nodes|)
  {
    hide Sum, Emit;
    hide Step, CopyWeight, RelayWeight;
    var k := |net.nodes|;
    var (n, out) := Step(env, net.nodes[who], e);
    OriginatingLeavesRelays(env, net.nodes[who], e);
    SumUpdate(net.nodes, who, n, WeighNode(k));
    SumConcat(net.air, Emit(out.lora, hears, k), WeighCopy(k));
    EmittedWeigh(out.lora, hears, k);
  }

  /** Every move pays for its work out of the measure, and only originated transmissions add
      to it, each by no more than the budget. */
  lemma StepPaysForItsWork(env: Env, net: Net, m: Move)
    ensures var after := NetStep(env, net, m);
            && |after.nodes| == |net.nodes| && |net.sent| <= |after.sent|
            && Work(net, m) + Measure(after) <= Measure(net) + (|after.sent| - |net.sent|) * Budget(|net.nodes|)
  {
    hide Step, Measure, Budget;
    match m
    case Deliver(i, ev, hears) =>
      if i < |net.air| && net.air[i].to < |net.nodes| {
        DeliverLightens(env, net, i, ev, hears);
      }
    case Fire(who, hears) =>
      if who < |net.nodes| && net.nodes[who].relays != [] {
        FireLightens(env, net, who, hears);
      }
    case Act(who, e, hears) =>
      if who < |net.nodes| && Originates(e) {
        ActAddsBudget(env, net, who, e, hears);
      }
    case Lose(i) => LosingLightens(env, net, i);
  }

  lemma LosingLightens(env: Env, net: Net, i: nat)
    ensures Measure(NetStep(env, net, Lose(i))) <= Measure(net)
  {
    hide Without, Sum;
    hide WeighCopy, WeighNode;
    if i < |net.air| {
      WithoutWeighs(net.air, i, |net.nodes|);
    }
  }

  function WorkOf(env: Env, net: Net, ms: seq<Move>): nat {
    if ms == [] then 0
    else WorkOf(env, net, ms[..|ms| - 1]) + Work(NetRun(env, net, ms[..|ms| - 1]), ms[|ms| - 1])
  }

  /** Flooding quiesces: however receptions, losses and relay timers interleave, through every
      upgrade, cancellation, eviction and opaque relay, the receptions and relays of a run
      number at most the initial measure plus one budget per transmission originated in it. */
  lemma {:induction false} RelayWorkIsBounded(env: Env, net: Net, ms: seq<Move>)
    ensures var after := NetRun(env, net, ms);
            && |after.nodes| == |net.nodes| && |net.sent| <= |after.sent|
            && WorkOf(env, net, ms) + Measure(after) <= Measure(net) + (|after.sent| - |net.sent|) * Budget(|net.nodes|)
    decreases |ms|
  {
    hide NetStep, Measure, Budget, Work;
    if ms != [] {
      var init, last := ms[..|ms| - 1], ms[|ms| - 1];
      RelayWorkIsBounded(env, net, init);
      var mid := NetRun(env, net, init);
      StepPaysForItsWork(env, mid, last);
      var after, b := NetStep(env, mid, last), Budget(|net.nodes|);
      SplitDifference(|net.sent|, |mid.sent|, |after.sent|, b);
    }
  }

  lemma SplitDifference(a: int, b: int, c: int, w: int)
    ensures (b - a) * w + (c - b) * w == (c - a) * w
  {}

  /** From a network at rest, one transmission and no further origination cause at most a fixed
      number of receptions and relays; a run that has used them up has none left to do. */
  lemma OneTransmissionDiesOut(env: Env, net: Net, ms: seq<Move>, next: Move)
    requires Network.Quiet(net) && |NetRun(env, net, ms).sent| <= 1
    ensures WorkOf(env, net, ms) <= Budget(|net.nodes|)
    ensures WorkOf(env, net, ms) == Budget(|net.nodes|) && |NetStep(env, NetRun(env, net, ms), next).sent| <= 1 ==>
              Work(NetRun(env, net, ms), next) == 0
  {
    hide NetStep, NetRun, Measure, Budget, Work, WorkOf;
    RestingWeighsNothing(net);
    RelayWorkIsBounded(env, net, ms);
    var after := NetRun(env, net, ms);
    Monotone(Budget(|net.nodes|), |after.sent|, 1);
    StepPaysForItsWork(env, after, next);
    var b, s, t := Budget(|net.nodes|), |after.sent|, |NetStep(env, after, next).sent|;
    SplitDifference(0, s, t, b);
    if t <= 1 {
      Monotone(b, t, 1);
    }
  }

  lemma RestingWeighsNothing(net: Net)
    requires Network.Quiet(net)
    ensures Measure(net) == 0
  {
    SumZero(net.nodes, WeighNode(|net.nodes|));
  }
}
