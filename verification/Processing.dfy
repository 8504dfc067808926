/** What processing a new packet, or what the phone sends, can touch: queues and log only through the
    handler, or by having a packet tracked. */
module Processing {
  import opened Bytes
  import opened Packet
  import opened Device
  import opened NodeDb
  import opened Receive
  import opened Mesh
  import Tx

  /** The state and the message the handler of a new packet is given. */
  function HandlerInput(env: Env, n: Node, ev: RxEvent, h: PacketHeader, d: DecodedPayload): (Node, Inbound) {
    var n2 := MaybeRequestNodeinfo(env, NoteSender(n, ev, h).0, ev, h).0;
    (StoreText(n2, ev, d), InboundOf(n2, ev, h, d))
  }

  /** Only the handler writes to the log or touches a queue. */
  lemma OnlyTheHandlerLogs(env: Env, n: Node, ev: RxEvent, h: PacketHeader, d: DecodedPayload)
    ensures var (x, p) := HandlerInput(env, n, ev, h, d);
            var (y, handled) := RunHandler(env, x, ev, p, d.portnum);
            var (m, out) := ProcessLocally(env, n, ev, h, d);
            && x == n.(dev := x.dev, db := x.db, stored := x.stored, lastNodeinfoTx := x.lastNodeinfoTx)
            && x.dev.myNodeNum == n.dev.myNodeNum
            && p.payload == d.payload && p.requestId == d.requestId
            && m == y.(dev := m.dev) && m.dev.myNodeNum == y.dev.myNodeNum
            && out.log == handled.log
  {
    hide Tx.Build, Touch, Amend, Get, RunHandler, WithHops, HopsAway;
    var (n1, o1) := NoteSender(n, ev, h);
    var (n2, o2) := MaybeRequestNodeinfo(env, n1, ev, h);
    var (x, p) := HandlerInput(env, n, ev, h, d);
    var (y, o4) := RunHandler(env, x, ev, p, d.portnum);
    assert ProcessLocally(env, n, ev, h, d).1.log == o4.log;
  }

  /** Anything the phone sends can at most have a packet tracked. */
  lemma PhoneTouchesNoQueue(env: Env, n: Node, e: Event)
    requires e.Phone?
    ensures var (m, out) := Step(env, n, e);
            && m.recent == n.recent && m.opaqueSeen == n.opaqueSeen && m.relays == n.relays
            && forall l :: l in out.log ==> l.Tracking?
  {
    hide Tx.Build, ChooseKey, SendAll, PhoneRequest, SendBleResult;
  }
}
