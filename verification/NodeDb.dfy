/** The table of known nodes. */
module NodeDb {
  import opened Bytes
  import opened Vecs
  import opened Packet

  const MAX_NODES: nat := 96
  const STALE_AGE_SECS: u32 := 2 * 60 * 60

  /** A peer's `User` message; `rest` stands for the fields the code only passes on. */
  datatype User = User(longName: seq<u8>, shortName: seq<u8>, hwModel: i32, role: i32, rest: seq<u8>)

  datatype NodeEntry = NodeEntry(
    nodeNum: u32,
    user: Option<User>,
    position: Option<seq<u8>>,
    lastHeard: u32,
    snr: Option<i8>,
    hopsAway: Option<u8>,
    deviceMetrics: Option<seq<u8>>,
    nextHop: u8,
    lastSeenMs: u64,
    pubKey: Option<seq<u8>>,
    isFavorite: bool,
    isIgnored: bool,
    isMuted: bool)

  function Stub(num: u32): NodeEntry {
    NodeEntry(num, None, None, 0, None, None, None, 0, 0, None, false, false, false)
  }

  /** The database as a value. */
  datatype Db = Db(nodes: seq<NodeEntry>, our: u32, dirty: bool)

  predicate Reserved(num: u32) { num == 0 || num == BROADCAST_ADDR }

  ghost predicate Distinct(nodes: seq<NodeEntry>) {
    forall i, j :: 0 <= i < j < |nodes| ==> nodes[i].nodeNum != nodes[j].nodeNum
  }

  ghost predicate ValidNodes(nodes: seq<NodeEntry>) {
    && |nodes| <= MAX_NODES
    && Distinct(nodes)
    && (forall e :: e in nodes ==> !Reserved(e.nodeNum))
    && (forall e :: e in nodes && e.pubKey.Some? ==> |e.pubKey.value| == 32)
  }

  function IndexOf(nodes: seq<NodeEntry>, num: u32): (i: nat)
    ensures i <= |nodes|
    ensures i < |nodes| ==> nodes[i].nodeNum == num
    ensures forall k :: 0 <= k < i ==> nodes[k].nodeNum != num
  {
    Position(nodes, (e: NodeEntry) => e.nodeNum == num)
  }

  function Get(db: Db, num: u32): (r: Option<NodeEntry>)
    ensures r.Some? ==> r.value in db.nodes && r.value.nodeNum == num
    ensures r.None? ==> forall e :: e in db.nodes ==> e.nodeNum != num
  {
    var i := IndexOf(db.nodes, num);
    if i < |db.nodes| then Some(db.nodes[i]) else None
  }

  /** The database with a slot for `num`, and where it is; none when the number is reserved
      or there is no room. */
  function GetOrCreate(db: Db, num: u32): (Db, Option<nat>) {
    var i := IndexOf(db.nodes, num);
    if Reserved(num) then (db, None)
    else if i < |db.nodes| then (db, Some(i))
    else if |db.nodes| < MAX_NODES then (db.(nodes := db.nodes + [Stub(num)], dirty := true), Some(|db.nodes|))
    else (db, None)
  }

  /** Change the entry of `num` in place, when there is one. */
  function Amend(db: Db, num: u32, f: NodeEntry -> NodeEntry): Db {
    var i := IndexOf(db.nodes, num);
    if i < |db.nodes| then db.(nodes := db.nodes[i := f(db.nodes[i])]) else db
  }

  /** Change the entry of `num`, making one first if need be. */
  function AmendOrCreate(db: Db, num: u32, f: NodeEntry -> NodeEntry): Db {
    var (d, i) := GetOrCreate(db, num);
    if i.Some? && i.value < |d.nodes| then d.(nodes := d.nodes[i.value := f(d.nodes[i.value])]) else d
  }

  function Fresh(our: u32, now: u32, maxAge: u32): NodeEntry -> bool {
    (e: NodeEntry) => e.nodeNum == our || e.lastHeard == 0 || SatSub(now, e.lastHeard) <= maxAge
  }

  function PruneStale(db: Db, now: u32, maxAge: u32): Db {
    db.(nodes := Retain(db.nodes, Fresh(db.our, now, maxAge)))
  }

  function Heard(time: u32, snr: Option<i8>, nowMs: u64): NodeEntry -> NodeEntry {
    (e: NodeEntry) => e.(lastHeard := time, snr := if snr.Some? then snr else e.snr, lastSeenMs := nowMs)
  }

  /** Note that a node was heard; a full table first sheds entries not heard for two hours, and
      refuses the newcomer when there are none. */
  function Touch(db: Db, num: u32, time: u32, snr: Option<i8>, nowMs: u64): Db {
    if |db.nodes| >= MAX_NODES && IndexOf(db.nodes, num) == |db.nodes| then
      var pruned := PruneStale(db, time, STALE_AGE_SECS);
      if |pruned.nodes| < |db.nodes| then AmendOrCreate(pruned, num, Heard(time, snr, nowMs)) else db
    else
      AmendOrCreate(db, num, Heard(time, snr, nowMs))
  }

  function Remove(db: Db, num: u32): (Db, bool) {
    var i := IndexOf(db.nodes, num);
    if i < |db.nodes| then (db.(nodes := SwapRemove(db.nodes, i), dirty := true), true) else (db, false)
  }

  function WithHops(hops: Option<u8>): NodeEntry -> NodeEntry { (e: NodeEntry) => e.(hopsAway := hops) }

  function WithNextHop(nextHop: u8): NodeEntry -> NodeEntry { (e: NodeEntry) => e.(nextHop := nextHop) }

  /** Byte to send through to reach `dest`, avoiding the relay the packet came from. */
  function GetNextHop(db: Db, dest: u32, relayNode: u8): u8 {
    match Get(db, dest)
    case None => NO_NEXT_HOP
    case Some(e) => if e.nextHop != NO_NEXT_HOP && e.nextHop != relayNode then e.nextHop else NO_NEXT_HOP
  }

  /** An ACK from `from` through `relayNode` shows the way to `from`. */
  function LearnRoute(db: Db, from: u32, relayNode: u8): (Db, bool) {
    var nextHop := if relayNode != 0 then relayNode else from % 0x100;
    if nextHop == NO_NEXT_HOP then (db, false)
    else
      var (d, i) := GetOrCreate(db, from);
      if i.Some? && i.value < |d.nodes| && d.nodes[i.value].nextHop != nextHop then
        (d.(nodes := d.nodes[i.value := d.nodes[i.value].(nextHop := nextHop)]), true)
      else (d, false)
  }

  // ---- What every operation keeps ----

  lemma IndexOfIsUnique(nodes: seq<NodeEntry>, i: nat)
    requires Distinct(nodes) && i < |nodes|
    ensures IndexOf(nodes, nodes[i].nodeNum) == i
  {}

  lemma GetOrCreateKeepsValid(db: Db, num: u32)
    requires ValidNodes(db.nodes)
    ensures var (d, i) := GetOrCreate(db, num);
            && ValidNodes(d.nodes) && d.our == db.our
            && (i.Some? ==> i.value < |d.nodes| && d.nodes[i.value].nodeNum == num)
  {}

  lemma UpdateKeepsValid(nodes: seq<NodeEntry>, i: nat, e: NodeEntry)
    requires ValidNodes(nodes) && i < |nodes| && e.nodeNum == nodes[i].nodeNum
    requires e.pubKey.Some? ==> |e.pubKey.value| == 32
    ensures ValidNodes(nodes[i := e])
  {
    assert forall x :: x in nodes[i := e] ==> x == e || x in nodes;
  }

  lemma {:induction false} RetainKeepsValid(nodes: seq<NodeEntry>, keep: NodeEntry -> bool)
    requires ValidNodes(nodes)
    ensures ValidNodes(Retain(nodes, keep))
  {
    if nodes != [] {
      var rest := Retain(nodes[1..], keep);
      TailIsValid(nodes);
      RetainKeepsValid(nodes[1..], keep);
      if keep(nodes[0]) {
        ConsIsValid(nodes[0], rest);
      }
    }
  }

  lemma TailIsValid(nodes: seq<NodeEntry>)
    requires ValidNodes(nodes) && nodes != []
    ensures ValidNodes(nodes[1..])
    ensures forall e :: e in nodes[1..] ==> e.nodeNum != nodes[0].nodeNum
  {
    assert forall k :: 0 <= k < |nodes| - 1 ==> nodes[1..][k] == nodes[k + 1];
  }

  lemma ConsIsValid(e: NodeEntry, rest: seq<NodeEntry>)
    requires ValidNodes(rest) && |rest| < MAX_NODES && !Reserved(e.nodeNum)
    requires e.pubKey.Some? ==> |e.pubKey.value| == 32
    requires forall x :: x in rest ==> x.nodeNum != e.nodeNum
    ensures ValidNodes([e] + rest)
  {
    var all := [e] + rest;
    assert forall k :: 1 <= k < |all| ==> all[k] == rest[k - 1] && all[k] in rest;
  }

  /** `f` changes neither whose entry it is nor the width of its key. */
  ghost predicate KeepsIdentity(f: NodeEntry -> NodeEntry) {
    forall e: NodeEntry ::
      f(e).nodeNum == e.nodeNum && (f(e).pubKey.Some? ==> f(e).pubKey == e.pubKey || |f(e).pubKey.value| == 32)
  }

  lemma AmendKeepsValid(db: Db, num: u32, f: NodeEntry -> NodeEntry)
    requires ValidNodes(db.nodes) && KeepsIdentity(f)
    ensures ValidNodes(Amend(db, num, f).nodes) && ValidNodes(AmendOrCreate(db, num, f).nodes)
  {
    var i := IndexOf(db.nodes, num);
    if i < |db.nodes| {
      UpdateKeepsValid(db.nodes, i, f(db.nodes[i]));
    }
    GetOrCreateKeepsValid(db, num);
    var (d, j) := GetOrCreate(db, num);
    if j.Some? {
      UpdateKeepsValid(d.nodes, j.value, f(d.nodes[j.value]));
    }
  }

  /** Hearing a node keeps the table well formed, and our own entry stays put. */
  lemma TouchKeepsValid(db: Db, num: u32, time: u32, snr: Option<i8>, nowMs: u64)
    requires ValidNodes(db.nodes)
    ensures ValidNodes(Touch(db, num, time, snr, nowMs).nodes)
    ensures Get(db, db.our).Some? ==> Get(Touch(db, num, time, snr, nowMs), db.our).Some?
  {
    var f := Heard(time, snr, nowMs);
    var pruned := PruneStale(db, time, STALE_AGE_SECS);
    RetainKeepsValid(db.nodes, Fresh(db.our, time, STALE_AGE_SECS));
    AmendKeepsValid(db, num, f);
    AmendKeepsValid(pruned, num, f);
    if Get(db, db.our).Some? {
      assert Get(db, db.our).value in pruned.nodes;
      AmendKeepsMembers(db, num, f, db.our);
      AmendKeepsMembers(pruned, num, f, db.our);
    }
  }

  lemma AmendKeepsMembers(db: Db, num: u32, f: NodeEntry -> NodeEntry, m: u32)
    requires KeepsIdentity(f) && exists e :: e in db.nodes && e.nodeNum == m
    ensures Get(AmendOrCreate(db, num, f), m).Some?
  {
    var k := IndexOf(db.nodes, m);
    assert db.nodes[k].nodeNum == m;
    var r := AmendOrCreate(db, num, f);
    assert k < |r.nodes| && r.nodes[k].nodeNum == m;
  }

  /** A node heard at `time` stays or becomes known unless the table is full of entries fresh at that
      time; the reading then stored is exactly the one given. `Recency` says what this comes to for the
      one time the firmware passes. */
  lemma TouchRecords(db: Db, num: u32, time: u32, snr: Option<i8>, nowMs: u64)
    requires ValidNodes(db.nodes) && !Reserved(num)
    ensures var d := Touch(db, num, time, snr, nowMs);
            match Get(d, num)
            case Some(e) => e.lastHeard == time && e.lastSeenMs == nowMs && (snr.Some? ==> e.snr == snr)
            case None =>
              && d == db && |db.nodes| == MAX_NODES
              && (forall e :: e in db.nodes ==> Fresh(db.our, time, STALE_AGE_SECS)(e))
  {
    var f := Heard(time, snr, nowMs);
    var keep := Fresh(db.our, time, STALE_AGE_SECS);
    if |db.nodes| >= MAX_NODES && IndexOf(db.nodes, num) == |db.nodes| {
      var pruned := PruneStale(db, time, STALE_AGE_SECS);
      RetainKeepsValid(db.nodes, keep);
      if |pruned.nodes| < |db.nodes| {
        AmendRecords(pruned, num, f);
      } else {
        RetainsAllIff(db.nodes, keep);
      }
    } else {
      AmendRecords(db, num, f);
    }
  }

  lemma AmendRecords(db: Db, num: u32, f: NodeEntry -> NodeEntry)
    requires ValidNodes(db.nodes) && KeepsIdentity(f) && !Reserved(num)
    requires |db.nodes| < MAX_NODES || IndexOf(db.nodes, num) < |db.nodes|
    ensures Get(AmendOrCreate(db, num, f), num).Some?
    ensures Get(AmendOrCreate(db, num, f), num).value == f(if Get(db, num).Some? then Get(db, num).value else Stub(num))
  {
    var (d, j) := GetOrCreate(db, num);
    var r := AmendOrCreate(db, num, f);
    GetOrCreateKeepsValid(db, num);
    UpdateKeepsValid(d.nodes, j.value, f(d.nodes[j.value]));
    IndexOfIsUnique(r.nodes, j.value);
    if Get(db, num).Some? {
      IndexOfIsUnique(db.nodes, IndexOf(db.nodes, num));
    }
  }

  lemma RemoveKeepsValid(db: Db, num: u32)
    requires ValidNodes(db.nodes)
    ensures ValidNodes(Remove(db, num).0.nodes)
    ensures Get(Remove(db, num).0, num).None? && Remove(db, num).1 == Get(db, num).Some?
    ensures forall e :: e in db.nodes && e.nodeNum != num ==> e in Remove(db, num).0.nodes
  {
    var i := IndexOf(db.nodes, num);
    if i < |db.nodes| {
      RemovalKeepsOthers(db.nodes, i);
      RemovalKeepsValid(db.nodes, i);
    }
  }

  lemma RemovalKeepsValid(nodes: seq<NodeEntry>, i: nat)
    requires ValidNodes(nodes) && i < |nodes|
    ensures ValidNodes(SwapRemove(nodes, i))
    ensures forall e :: e in SwapRemove(nodes, i) ==> e.nodeNum != nodes[i].nodeNum
  {
    var r, n := SwapRemove(nodes, i), |nodes| - 1;
    SwapRemoveMembers(nodes, i);
    assert forall k :: 0 <= k < n ==> r[k] == if k == i then nodes[n] else nodes[k];
  }

  lemma RemovalKeepsOthers(nodes: seq<NodeEntry>, i: nat)
    requires i < |nodes|
    ensures forall e :: e in nodes && e.nodeNum != nodes[i].nodeNum ==> e in SwapRemove(nodes, i)
  {
    var r := SwapRemove(nodes, i);
    forall e | e in nodes && e.nodeNum != nodes[i].nodeNum
      ensures e in r
    {
      var k :| 0 <= k < |nodes| && nodes[k] == e;
      assert r[if k == |nodes| - 1 then i else k] == e;
    }
  }

  lemma LearnRouteKeepsValid(db: Db, from: u32, relayNode: u8)
    requires ValidNodes(db.nodes)
    ensures ValidNodes(LearnRoute(db, from, relayNode).0.nodes)
  {
    GetOrCreateKeepsValid(db, from);
    var (d, i) := GetOrCreate(db, from);
    if i.Some? {
      UpdateKeepsValid(d.nodes, i.value,
                       d.nodes[i.value].(nextHop := if relayNode != 0 then relayNode else from % 0x100));
    }
  }

  /** A learned route is the one used next, except back towards the relay it came from. */
  lemma LearnedRouteIsUsed(db: Db, from: u32, relayNode: u8, avoid: u8)
    requires ValidNodes(db.nodes) && LearnRoute(db, from, relayNode).1
    ensures var nextHop := if relayNode != 0 then relayNode else from % 0x100;
            GetNextHop(LearnRoute(db, from, relayNode).0, from, avoid)
            == if nextHop == avoid then NO_NEXT_HOP else nextHop
  {
    GetOrCreateKeepsValid(db, from);
    LearnRouteKeepsValid(db, from, relayNode);
    var (d, i) := GetOrCreate(db, from);
    IndexOfIsUnique(LearnRoute(db, from, relayNode).0.nodes, i.value);
  }

  // ---- The class ----

  class NodeDB {
    var nodes: seq<NodeEntry>
    const our: u32
    var dirty: bool

    ghost predicate Valid()
      reads this
    {
      ValidNodes(nodes)
    }

    function View(): Db
      reads this
    {
      Db(nodes, our, dirty)
    }

    constructor (our: u32)
      ensures Valid() && View() == Db([], our, false)
    {
      this.our := our;
      nodes := [];
      dirty := false;
    }

    /** Take over a table a handler worked out. */
    method Adopt(db: Db)
      requires db.our == our && ValidNodes(db.nodes)
      modifies this
      ensures Valid() && View() == db
    {
      nodes, dirty := db.nodes, db.dirty;
    }

    method PruneStaleNodes(now: u32, maxAge: u32) returns (removed: nat)
      requires Valid()
      modifies this
      ensures Valid() && View() == PruneStale(old(View()), now, maxAge)
      ensures removed == |old(nodes)| - |nodes|
    {
      RetainKeepsValid(nodes, Fresh(our, now, maxAge));
      var before := |nodes|;
      nodes := Retain(nodes, Fresh(our, now, maxAge));
      removed := before - |nodes|;
    }

    method Slot(num: u32) returns (i: Option<nat>)
      requires Valid()
      modifies this
      ensures Valid() && (View(), i) == GetOrCreate(old(View()), num)
    {
      GetOrCreateKeepsValid(View(), num);
      if Reserved(num) {
        return None;
      }
      var found := IndexOf(nodes, num);
      if found < |nodes| {
        return Some(found);
      }
      if |nodes| < MAX_NODES {
        nodes := nodes + [Stub(num)];
        dirty := true;
        return Some(|nodes| - 1);
      }
      return None;
    }

    method TouchNode(num: u32, time: u32, snr: Option<i8>, nowMs: u64)
      requires Valid()
      modifies this
      ensures Valid() && View() == Touch(old(View()), num, time, snr, nowMs)
    {
      TouchKeepsValid(View(), num, time, snr, nowMs);
      if |nodes| >= MAX_NODES && IndexOf(nodes, num) == |nodes| {
        var pruned := PruneStaleNodes(time, STALE_AGE_SECS);
        if pruned == 0 {
          RetainsAllIff(old(nodes), Fresh(our, time, STALE_AGE_SECS));
          return;
        }
      }
      Record(num, time, snr, nowMs);
    }

    method Record(num: u32, time: u32, snr: Option<i8>, nowMs: u64)
      requires Valid()
      modifies this
      ensures Valid() && View() == AmendOrCreate(old(View()), num, Heard(time, snr, nowMs))
    {
      AmendKeepsValid(View(), num, Heard(time, snr, nowMs));
      var i := Slot(num);
      if i.Some? {
        var e := nodes[i.value];
        e := e.(lastHeard := time);
        if snr.Some? {
          e := e.(snr := snr);
        }
        nodes := nodes[i.value := e.(lastSeenMs := nowMs)];
      }
    }

    method SetHops(num: u32, hops: Option<u8>)
      requires Valid()
      modifies this
      ensures Valid() && View() == Amend(old(View()), num, WithHops(hops))
    {
      AmendKeepsValid(View(), num, WithHops(hops));
      var i := IndexOf(nodes, num);
      if i < |nodes| {
        nodes := nodes[i := nodes[i].(hopsAway := hops)];
      }
    }

    method SetNextHop(num: u32, nextHop: u8)
      requires Valid()
      modifies this
      ensures Valid() && View() == Amend(old(View()), num, WithNextHop(nextHop))
    {
      AmendKeepsValid(View(), num, WithNextHop(nextHop));
      var i := IndexOf(nodes, num);
      if i < |nodes| {
        nodes := nodes[i := nodes[i].(nextHop := nextHop)];
      }
    }

    /** Ignoring a node also forgets its position and key. */
    method SetIgnored(num: u32, ignored: bool)
      requires Valid()
      modifies this
      ensures Valid() && |nodes| == |old(nodes)|
      ensures forall k :: 0 <= k < |nodes| ==>
                nodes[k] == if old(nodes)[k].nodeNum != num then old(nodes)[k]
                            else if ignored then old(nodes)[k].(isIgnored := true, position := None, pubKey := None)
                            else old(nodes)[k].(isIgnored := false)
      ensures dirty == (old(dirty) || Get(old(View()), num).Some?)
    {
      var i := IndexOf(nodes, num);
      if i < |nodes| {
        var e := nodes[i].(isIgnored := ignored);
        if ignored {
          e := e.(position := None, pubKey := None);
        }
        UpdateKeepsValid(nodes, i, e);
        nodes := nodes[i := e];
        dirty := true;
      }
    }

    method UpdatePubKey(num: u32, key: seq<u8>)
      requires Valid() && |key| == 32
      modifies this
      ensures Valid()
      ensures Get(View(), num).Some? ==> Get(View(), num).value.pubKey == Some(key) && dirty
      ensures Get(View(), num).None? ==> View() == old(View())
    {
      var i := Slot(num);
      if i.Some? {
        UpdateKeepsValid(nodes, i.value, nodes[i.value].(pubKey := Some(key)));
        nodes := nodes[i.value := nodes[i.value].(pubKey := Some(key))];
        IndexOfIsUnique(nodes, i.value);
        dirty := true;
      }
    }

    method RemoveNode(num: u32) returns (found: bool)
      requires Valid()
      modifies this
      ensures Valid() && (View(), found) == Remove(old(View()), num)
    {
      RemoveKeepsValid(View(), num);
      var i := IndexOf(nodes, num);
      found := i < |nodes|;
      if found {
        nodes := SwapRemove(nodes, i);
        dirty := true;
      }
    }

    method Learn(from: u32, relayNode: u8) returns (learned: bool)
      requires Valid()
      modifies this
      ensures Valid() && (View(), learned) == LearnRoute(old(View()), from, relayNode)
    {
      LearnRouteKeepsValid(View(), from, relayNode);
      var nextHop := if relayNode != 0 then relayNode else from % 0x100;
      if nextHop == NO_NEXT_HOP {
        return false;
      }
      var i := Slot(from);
      if i.Some? && nodes[i.value].nextHop != nextHop {
        nodes := nodes[i.value := nodes[i.value].(nextHop := nextHop)];
        return true;
      }
      return false;
    }
  }
}
