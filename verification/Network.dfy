/** Many nodes and the copies of frames in flight between them. */
module Network {
  import opened Bytes
  import opened Vecs
  import opened Packet
  import opened Mesh

  /** One reception still to come: `taken` is the number of relays this copy has made. */
  datatype Copy = Copy(to: nat, frame: RadioFrame, taken: nat)

  /** A frame and the node that originated it. */
  datatype Transmission = Transmission(origin: nat, frame: RadioFrame)

  /** `sent` and `delivered` record every originated transmission and every reception, `adopted` the
      receptions a node took up as new packets. */
  datatype Net = Net(
    nodes: seq<Node>,
    air: seq<Copy>,
    sent: seq<Transmission>,
    delivered: seq<Copy>,
    adopted: seq<Copy>)

  /** `hears(j, r)` says whether node `r` is in range for the `j`-th frame sent in the move. */
  datatype Move =
    | Deliver(i: nat, ev: RxEvent, hears: (nat, nat) -> bool)
    | Fire(who: nat, hears: (nat, nat) -> bool)
    | Act(who: nat, e: Event, hears: (nat, nat) -> bool)
    | Lose(i: nat)

  function CopiesTo(f: RadioFrame, taken: nat, hears: (nat, nat) -> bool, j: nat, n: nat): (r: seq<Copy>)
    ensures |r| <= n
    ensures forall c :: c in r ==> c.frame == f && c.taken == taken && c.to < n
  {
    if n == 0 then []
    else CopiesTo(f, taken, hears, j, n - 1) + if hears(j, n - 1) then [Copy(n - 1, f, taken)] else []
  }

  function Emit(frames: seq<RadioFrame>, hears: (nat, nat) -> bool, n: nat): (r: seq<Copy>)
    ensures forall c :: c in r ==> c.frame in frames && c.taken == 0 && c.to < n
  {
    if frames == [] then []
    else
      var last := |frames| - 1;
      Emit(frames[..last], hears, n) + CopiesTo(frames[last], 0, hears, last, n)
  }

  function SentBy(origin: nat, frames: seq<RadioFrame>): (r: seq<Transmission>)
    ensures |r| == |frames| && forall i :: 0 <= i < |r| ==> r[i] == Transmission(origin, frames[i])
  {
    seq(|frames|, i requires 0 <= i < |frames| => Transmission(origin, frames[i]))
  }

  function Without(air: seq<Copy>, i: nat): seq<Copy>
    requires i < |air|
  {
    air[..i] + air[i + 1..]
  }

  /** Events a node takes part in other than receiving and relaying. */
  predicate Originates(e: Event) { !e.Rx? && !e.RelayTimer? }

  /** The log of a reception that was taken up as a new packet. */
  predicate TakesUp(log: seq<Line>) { exists i :: 0 <= i < |log| && log[i].NewPacket? }

  function NetStep(env: Env, net: Net, m: Move): Net {
    match m
    case Deliver(i, ev, hears) =>
      if i < |net.air| && net.air[i].to < |net.nodes| then
        var c := net.air[i];
        var (n, out) := Step(env, net.nodes[c.to], Rx(ev.(frame := c.frame, taken := c.taken)));
        Net(net.nodes[c.to := n], Without(net.air, i) + Emit(out.lora, hears, |net.nodes|),
            net.sent + SentBy(c.to, out.lora),
            net.delivered + [c], net.adopted + if TakesUp(out.log) then [c] else [])
      else net
    case Fire(who, hears) =>
      if who < |net.nodes| && net.nodes[who].relays != [] then
        var r := NextRelay(net.nodes[who]);
        net.(nodes := net.nodes[who := FireRelay(net.nodes[who]).0],
             air := net.air + CopiesTo(r.frame, r.taken, hears, 0, |net.nodes|))
      else net
    case Act(who, e, hears) =>
      if who < |net.nodes| && Originates(e) then
        var (n, out) := Step(env, net.nodes[who], e);
        net.(nodes := net.nodes[who := n], air := net.air + Emit(out.lora, hears, |net.nodes|),
             sent := net.sent + SentBy(who, out.lora))
      else net
    case Lose(i) =>
      if i < |net.air| then net.(air := Without(net.air, i)) else net
  }

  /** The relay whose timer is due first. */
  function NextRelay(n: Node): (r: Relay)
    requires n.relays != []
    ensures r in n.relays && FireRelay(n).1.lora == [r.frame]
  {
    n.relays[MinBy(n.relays, DeadlineOf())]
  }

  function NetRun(env: Env, net: Net, ms: seq<Move>): Net {
    if ms == [] then net else NetStep(env, NetRun(env, net, ms[..|ms| - 1]), ms[|ms| - 1])
  }

  /** A network before anything has happened. */
  predicate Quiet(net: Net) {
    net.air == [] && net.sent == [] && net.delivered == [] && net.adopted == []
    && forall n :: n in net.nodes ==> n.relays == [] && n.pending == [] && n.db.nodes == []
  }
}
