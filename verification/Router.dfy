/** Duplicate detection: which received packets are new, and what a duplicate does. */
module Router {
  import opened Bytes
  import opened Vecs
  import opened Rings
  import opened Device

  const DUPLICATE_RING_SIZE: nat := 200
  const OPAQUE_SEEN_RING_SIZE: nat := 32
  const MAX_RELAYERS_TRACKED: nat := 6

  datatype Key = Key(sender: u32, packetId: u32)

  datatype PacketRecord = PacketRecord(
    sender: u32,
    packetId: u32,
    bestHopLimit: u8,
    relayedBy: seq<u8>,
    relayerCount: nat,
    valid: bool)
  {
    function Id(): Key { Key(sender, packetId) }

    /** The relayers tracked so far are distinct, none is the reserved zero, and at most six. */
    ghost predicate Ok() {
      && |relayedBy| == MAX_RELAYERS_TRACKED && relayerCount <= MAX_RELAYERS_TRACKED && valid
      && (forall i :: 0 <= i < relayerCount ==> relayedBy[i] != 0)
      && (forall i, j :: 0 <= i < j < relayerCount ==> relayedBy[i] != relayedBy[j])
    }
  }

  function NewRecord(key: Key, hopLimit: u8): (r: PacketRecord)
    ensures r.Ok() && r.Id() == key
  {
    PacketRecord(key.sender, key.packetId, hopLimit, [0, 0, 0, 0, 0, 0], 0, true)
  }

  /** Remember a relayer, unless it is the reserved zero, already known, or there is no room. */
  function AddRelayer(r: PacketRecord, relay: u8): PacketRecord {
    if relay == 0 || relay in r.relayedBy[..Min(r.relayerCount, |r.relayedBy|)] then r
    else if r.relayerCount < |r.relayedBy| then
      r.(relayedBy := r.relayedBy[r.relayerCount := relay], relayerCount := r.relayerCount + 1)
    else r
  }

  lemma AddRelayerKeepsOk(r: PacketRecord, relay: u8)
    requires r.Ok()
    ensures AddRelayer(r, relay).Ok() && AddRelayer(r, relay).Id() == r.Id()
    ensures relay != 0 && r.relayerCount < MAX_RELAYERS_TRACKED ==>
              relay in AddRelayer(r, relay).relayedBy[..AddRelayer(r, relay).relayerCount]
  {
    var t := r.relayedBy[..r.relayerCount];
    if relay != 0 && relay !in t && r.relayerCount < MAX_RELAYERS_TRACKED {
      var q := AddRelayer(r, relay);
      assert q.relayedBy[..q.relayerCount] == t + [relay];
      forall i, j | 0 <= i < j < q.relayerCount
        ensures q.relayedBy[i] != q.relayedBy[j]
      {
        assert t[i] in t;
      }
    }
  }

  datatype FilterResult = New | DuplicateDrop | DuplicateUpgrade(newHop: u8) | DuplicateCancelRelay

  predicate RoleAllowsCancel(role: DeviceRole) { role != DeviceRole.Router && role != RouterLate }

  function IsKey(key: Key): PacketRecord -> bool { (r: PacketRecord) => r.Id() == key }

  ghost predicate Ok(recent: seq<PacketRecord>) {
    && |recent| <= DUPLICATE_RING_SIZE
    && (forall r :: r in recent ==> r.Ok())
    && (forall i, j :: 0 <= i < j < |recent| ==> recent[i].Id() != recent[j].Id())
  }

  /** What a duplicate of a packet already on record calls for. */
  function DuplicateVerdict(ourByte: u8, role: DeviceRole, hopLimit: u8, relayNode: u8,
          pendingHop: Option<u8>): FilterResult {
    if pendingHop.Some? && hopLimit > pendingHop.value then DuplicateUpgrade(hopLimit - 1)
    else if RoleAllowsCancel(role) && relayNode != 0 && relayNode != ourByte then DuplicateCancelRelay
    else DuplicateDrop
  }

  /** The flooding filter on the records in age order. */
  function Filter(recent: seq<PacketRecord>, ourByte: u8, role: DeviceRole, key: Key, hopLimit: u8, relayNode: u8,
          pendingHop: Option<u8>)
    : (FilterResult, seq<PacketRecord>)
  {
    var i := Position(recent, IsKey(key));
    if i < |recent| then
      var verdict := DuplicateVerdict(ourByte, role, hopLimit, relayNode, pendingHop);
      var heard := AddRelayer(recent[i], relayNode);
      (verdict, recent[i := if verdict.DuplicateUpgrade? then heard.(bestHopLimit := hopLimit) else heard])
    else
      (New, PushBounded(recent, AddRelayer(NewRecord(key, hopLimit), relayNode), DUPLICATE_RING_SIZE))
  }

  /** An upgrade is always worth at least one hop. */
  lemma UpgradesNeedHops(recent: seq<PacketRecord>, ourByte: u8, role: DeviceRole, key: Key, hopLimit: u8,
          relayNode: u8, pendingHop: Option<u8>)
    ensures var verdict := Filter(recent, ourByte, role, key, hopLimit, relayNode, pendingHop).0;
            verdict.DuplicateUpgrade? ==> hopLimit > 0 && verdict.newHop == hopLimit - 1
  {}

  function Keys(recent: seq<PacketRecord>): (k: seq<Key>)
    ensures |k| == |recent|
    ensures forall i :: 0 <= i < |k| ==> k[i] == recent[i].Id()
  {
    seq(|recent|, i requires 0 <= i < |recent| => recent[i].Id())
  }

  /** The records are those of the last 200 packets the filter called new. */
  ghost predicate Tracks(recent: seq<PacketRecord>, log: seq<Key>) {
    Ok(recent) && Keys(recent) == LastN(log, DUPLICATE_RING_SIZE)
  }

  /** The ring refines the log: a packet is new exactly when it is not among the last 200 new
      ones, and only then does it enter the log. */
  lemma FilterRefinesLog(recent: seq<PacketRecord>, log: seq<Key>, ourByte: u8, role: DeviceRole, key: Key,
          hopLimit: u8, relayNode: u8, pendingHop: Option<u8>)
    requires Tracks(recent, log)
    ensures var (verdict, after) := Filter(recent, ourByte, role, key, hopLimit, relayNode, pendingHop);
            && (verdict.New? <==> key !in LastN(log, DUPLICATE_RING_SIZE))
            && Tracks(after, if verdict.New? then log + [key] else log)
  {
    hide AddRelayer;
    var i := Position(recent, IsKey(key));
    var (verdict, after) := Filter(recent, ourByte, role, key, hopLimit, relayNode, pendingHop);
    var keys := LastN(log, DUPLICATE_RING_SIZE);
    if i < |recent| {
      assert keys[i] == key;
      AddRelayerKeepsOk(recent[i], relayNode);
      assert Keys(after) == Keys(recent);
      assert forall r :: r in after ==> r == after[i] || r in recent;
      forall j, k | 0 <= j < k < |after|
        ensures after[j].Id() != after[k].Id()
      {
        assert after[j].Id() == recent[j].Id() && after[k].Id() == recent[k].Id();
      }
    } else {
      assert forall j :: 0 <= j < |keys| ==> keys[j] == recent[j].Id();
      var r := AddRelayer(NewRecord(key, hopLimit), relayNode);
      AddRelayerKeepsOk(NewRecord(key, hopLimit), relayNode);
      PushKeepsOk(recent, r);
      PushIsLastN(log, key, DUPLICATE_RING_SIZE);
      assert Keys(after) == PushBounded(Keys(recent), key, DUPLICATE_RING_SIZE);
    }
  }

  lemma PushKeepsOk(recent: seq<PacketRecord>, r: PacketRecord)
    requires Ok(recent) && r.Ok() && forall k :: 0 <= k < |recent| ==> recent[k].Id() != r.Id()
    ensures Ok(PushBounded(recent, r, DUPLICATE_RING_SIZE))
  {
    var after := PushBounded(recent, r, DUPLICATE_RING_SIZE);
    assert forall x :: x in after ==> x == r || x in recent;
    var shift := if |recent| < DUPLICATE_RING_SIZE then 0 else 1;
    assert forall k :: 0 <= k < |after| - 1 ==> after[k] == recent[k + shift];
  }

  /** No key occurs twice within any 201 consecutive ones. */
  ghost predicate WindowsDistinct(log: seq<Key>) {
    forall i, j :: 0 <= i < j < |log| && j - i <= DUPLICATE_RING_SIZE ==> log[i] != log[j]
  }

  lemma NewKeysStayDistinct(log: seq<Key>, key: Key)
    requires WindowsDistinct(log) && key !in LastN(log, DUPLICATE_RING_SIZE)
    ensures WindowsDistinct(log + [key])
  {
    var recent := LastN(log, DUPLICATE_RING_SIZE);
    forall i | 0 <= i < |log| && |log| - i <= DUPLICATE_RING_SIZE
      ensures log[i] != key
    {
      assert log[i] == recent[i - (|log| - |recent|)];
    }
  }

  // ---- Packets that could not be authenticated ----

  /** Relay an opaque packet the first time it is seen, and again whenever its originator is
      retransmitting. */
  function RelayOpaque(seen: seq<Key>, key: Key, hopStart: u8, hopLimit: u8): (bool, seq<Key>) {
    var retransmit := hopStart > 0 && hopStart == hopLimit;
    (key !in seen || retransmit, if key in seen then seen else PushBounded(seen, key, OPAQUE_SEEN_RING_SIZE))
  }

  lemma OpaqueRingRefinesLog(log: seq<Key>, key: Key, hopStart: u8, hopLimit: u8)
    ensures var seen := LastN(log, OPAQUE_SEEN_RING_SIZE);
            var (relay, after) := RelayOpaque(seen, key, hopStart, hopLimit);
            && after == LastN(if key in seen then log else log + [key], OPAQUE_SEEN_RING_SIZE)
            && (relay <==> key !in seen || 0 < hopStart == hopLimit)
  {
    PushIsLastN(log, key, OPAQUE_SEEN_RING_SIZE);
  }

  // ---- The class ----

  class MeshRouter {
    const ourNodeNum: u32
    const history: array<PacketRecord>
    var historyHead: nat
    var historyCount: nat
    const opaqueSeen: array<Key>
    var opaqueHead: nat
    var opaqueCount: nat

    ghost predicate Valid()
      reads this, history, opaqueSeen
    {
      && history.Length == DUPLICATE_RING_SIZE && opaqueSeen.Length == OPAQUE_SEEN_RING_SIZE
      && RingOk(history[..], historyHead, historyCount)
      && RingOk(opaqueSeen[..], opaqueHead, opaqueCount)
      && Ok(Recent())
    }

    function Recent(): seq<PacketRecord>
      reads this, history
      requires historyCount <= history.Length && historyHead < history.Length
    {
      Unroll(history[..], historyHead, historyCount)
    }

    function Seen(): seq<Key>
      reads this, opaqueSeen
      requires opaqueCount <= opaqueSeen.Length && opaqueHead < opaqueSeen.Length
    {
      Unroll(opaqueSeen[..], opaqueHead, opaqueCount)
    }

    constructor (ourNodeNum: u32)
      ensures Valid() && Recent() == [] && Seen() == [] && this.ourNodeNum == ourNodeNum
      ensures fresh(history) && fresh(opaqueSeen)
    {
      this.ourNodeNum := ourNodeNum;
      history := new PacketRecord[DUPLICATE_RING_SIZE](_ => PacketRecord(0, 0, 0, [0, 0, 0, 0, 0, 0], 0, false));
      historyHead, historyCount := 0, 0;
      opaqueSeen := new Key[OPAQUE_SEEN_RING_SIZE](_ => Key(0, 0));
      opaqueHead, opaqueCount := 0, 0;
    }

    /** Scan the live slots; keys are distinct, so there is at most one match. */
    method FindRecord(key: Key) returns (idx: Option<nat>)
      requires Valid()
      ensures idx.None? ==> Position(Recent(), IsKey(key)) == |Recent()|
      ensures idx.Some? ==> idx.value < historyCount
      ensures idx.Some? ==> Position(Recent(), IsKey(key)) == Age(history[..], historyHead, historyCount, idx.value)
    {
      ghost var recent := Recent();
      for i := 0 to historyCount
        invariant forall k :: 0 <= k < i ==> !(history[k].valid && history[k].Id() == key)
      {
        if history[i].valid && history[i].sender == key.sender && history[i].packetId == key.packetId {
          ghost var a := Age(history[..], historyHead, historyCount, i);
          assert recent[a].Id() == key;
          return Some(i);
        }
      }
      UnrollMembers(history[..], historyHead, historyCount);
      forall k | 0 <= k < |recent|
        ensures recent[k].Id() != key
      {
        assert recent[k] in history[..historyCount];
      }
      return None;
    }

    method Record(r: PacketRecord)
      requires Valid() && r.Ok() && forall k :: 0 <= k < |Recent()| ==> Recent()[k].Id() != r.Id()
      modifies this`historyHead, this`historyCount, history
      ensures Valid() && Recent() == PushBounded(old(Recent()), r, DUPLICATE_RING_SIZE)
      ensures Seen() == old(Seen())
    {
      UnrollPush(history[..], historyHead, historyCount, r);
      PushKeepsOk(Recent(), r);
      ghost var was := history[..];
      history[historyHead] := r;
      assert history[..] == was[historyHead := r];
      historyHead := (historyHead + 1) % DUPLICATE_RING_SIZE;
      if historyCount < DUPLICATE_RING_SIZE {
        historyCount := historyCount + 1;
      }
    }

    method ShouldFilterReceived(role: DeviceRole, key: Key, hopLimit: u8, relayNode: u8,
            pendingHop: Option<u8>) returns (verdict: FilterResult)
      requires Valid()
      modifies this`historyHead, this`historyCount, history
      ensures Valid() && (verdict, Recent())
              == Filter(old(Recent()), ourNodeNum % 0x100, role, key, hopLimit, relayNode, pendingHop)
      ensures Seen() == old(Seen())
    {
      hide AddRelayer, DuplicateVerdict, PushBounded, Position;
      ghost var before := Recent();
      FilterRefinesLog(before, Keys(before), ourNodeNum % 0x100, role, key, hopLimit, relayNode, pendingHop);
      var found := FindRecord(key);
      if found.None? {
        var r := AddRelayer(NewRecord(key, hopLimit), relayNode);
        AddRelayerKeepsOk(NewRecord(key, hopLimit), relayNode);
        Record(r);
        return New;
      }
      var idx := found.value;
      assert before[Age(history[..], historyHead, historyCount, idx)] == history[idx];
      assert history[idx] in before;
      ghost var was := history[..];
      verdict := DuplicateVerdict(ourNodeNum % 0x100, role, hopLimit, relayNode, pendingHop);
      var heard := AddRelayer(history[idx], relayNode);
      if verdict.DuplicateUpgrade? {
        heard := heard.(bestHopLimit := hopLimit);
      }
      history[idx] := heard;
      assert history[..] == was[idx := heard];
      UnrollUpdate(was, historyHead, historyCount, idx, heard);
    }

    method ShouldRelayOpaque(key: Key, hopStart: u8, hopLimit: u8) returns (relay: bool)
      requires Valid()
      modifies this`opaqueHead, this`opaqueCount, opaqueSeen
      ensures Valid() && (relay, Seen()) == RelayOpaque(old(Seen()), key, hopStart, hopLimit)
      ensures Recent() == old(Recent())
    {
      var retransmit := hopStart > 0 && hopStart == hopLimit;
      UnrollMembers(opaqueSeen[..], opaqueHead, opaqueCount);
      UnrollPush(opaqueSeen[..], opaqueHead, opaqueCount, key);
      var already := false;
      for i := 0 to opaqueCount
        invariant already <==> key in opaqueSeen[..i]
      {
        already := already || opaqueSeen[i] == key;
      }
      if already && !retransmit {
        return false;
      }
      if !already {
        ghost var was := opaqueSeen[..];
        opaqueSeen[opaqueHead] := key;
        assert opaqueSeen[..] == was[opaqueHead := key];
        opaqueHead := (opaqueHead + 1) % OPAQUE_SEEN_RING_SIZE;
        if opaqueCount < OPAQUE_SEEN_RING_SIZE {
          opaqueCount := opaqueCount + 1;
        }
      }
      return true;
    }
  }
}
