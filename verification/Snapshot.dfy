/** The node table on flash: 42 records of 96 bytes behind a 16-byte header. */
module Snapshot {
  import opened Bytes
  import opened Utf8
  import opened Vecs
  import opened NodeDb

  const MAX_PERSISTED_NODES: nat := 42
  const RECORD_SIZE: nat := 96
  const SNAPSHOT_HEADER_SIZE: nat := 16
  const SNAPSHOT_BYTES: nat := 4048
  const SNAPSHOT_MAGIC: u32 := 0x4E44_4232
  const SNAPSHOT_VERSION: u8 := 2
  const SHORT_NAME_ROOM: nat := 5
  const LONG_NAME_ROOM: nat := 28

  // ---- One record ----

  function Pack3(a: bool, b: bool, c: bool): u8 {
    (if a then 1 else 0) + (if b then 2 else 0) + (if c then 4 else 0)
  }

  predicate Bit(x: u8, mask: nat)
    requires mask in {1, 2, 4}
  {
    (x / mask) % 2 == 1
  }

  function SignedByte(x: i8): u8 { if x < 0 then x + 0x100 else x }

  function FromSignedByte(b: u8): i8 { if b >= 0x80 then b - 0x100 else b }

  /** As much of a name as fits. */
  function Cut(name: seq<u8>, room: nat): (r: seq<u8>)
    ensures |r| <= room && |r| <= |name|
  {
    name[..Min(|name|, room)]
  }

  /** A name field: its length, then its bytes padded with zeros. */
  function NameField(name: seq<u8>, room: nat): (b: seq<u8>)
    requires room < 0x100
    ensures |b| == room + 1
  {
    [|Cut(name, room)|] + Cut(name, room) + Zeros(room - |Cut(name, room)|)
  }

  function ShortNameOf(n: NodeEntry): seq<u8> { if n.user.Some? then n.user.value.shortName else [] }

  function LongNameOf(n: NodeEntry): seq<u8> { if n.user.Some? then n.user.value.longName else [] }

  function LowByte(x: i32): u8 { x % 0x100 }

  function RoleOf(n: NodeEntry): u8 { if n.user.Some? then LowByte(n.user.value.role) else 0 }

  function HwModelOf(n: NodeEntry): u8 { if n.user.Some? then LowByte(n.user.value.hwModel) else 0 }

  function KeyField(n: NodeEntry): (b: seq<u8>)
    requires n.pubKey.Some? ==> |n.pubKey.value| == 32
    ensures |b| == 32
  {
    if n.pubKey.Some? then n.pubKey.value else Zeros(32)
  }

  /** The first 20 bytes: numbers and flags. */
  function NumbersField(n: NodeEntry): (b: seq<u8>)
    ensures |b| == 20
  {
    LE32(n.nodeNum) + LE32(n.lastHeard) + LE64(n.lastSeenMs)
    + [SignedByte(if n.snr.Some? then n.snr.value else 0), if n.hopsAway.Some? then n.hopsAway.value else 0, n.nextHop,
       Pack3(n.isFavorite, n.isIgnored, n.isMuted)]
  }

  function KindField(n: NodeEntry): (b: seq<u8>)
    ensures |b| == 9
  {
    [RoleOf(n), HwModelOf(n), Pack3(n.snr.Some?, n.hopsAway.Some?, n.user.Some?)] + Zeros(6)
  }

  function EncodeRecord(n: NodeEntry): (b: seq<u8>)
    requires n.pubKey.Some? ==> |n.pubKey.value| == 32
    ensures |b| == RECORD_SIZE
  {
    NumbersField(n) + NameField(ShortNameOf(n), SHORT_NAME_ROOM) + NameField(LongNameOf(n), LONG_NAME_ROOM)
    + KindField(n) + KeyField(n)
  }

  /** A name field read back; bytes that are not UTF-8 give the empty name. */
  function ReadName(field: seq<u8>): seq<u8>
    requires field != []
  {
    var name := field[1..1 + Min(field[0], |field| - 1)];
    if ValidUtf8(name) then name else []
  }

  function ReadUser(b: seq<u8>): Option<User>
    requires |b| == RECORD_SIZE
  {
    if b[20] == 0 && b[26] == 0 && !Bit(b[57], 4) then None
    else Some(User(ReadName(b[26..55]), ReadName(b[20..26]), b[56], b[55], []))
  }

  function DecodeRecord(b: seq<u8>): Option<NodeEntry>
    requires |b| == RECORD_SIZE
  {
    var num := FromLE32(b[0..4]);
    if Reserved(num) then None
    else
      Some(NodeEntry(num, ReadUser(b), None, FromLE32(b[4..8]),
                     if Bit(b[57], 1) then Some(FromSignedByte(b[16])) else None,
                     if Bit(b[57], 2) then Some(b[17]) else None,
                     None, b[18], FromLE64(b[8..16]),
                     if AllZero(b[64..96]) then None else Some(b[64..96]),
                     Bit(b[19], 1), Bit(b[19], 2), Bit(b[19], 4)))
  }

  /** What is kept of a name: the bytes that fit, unless cutting them broke a character. */
  function Kept(name: seq<u8>, room: nat): seq<u8> { if ValidUtf8(Cut(name, room)) then Cut(name, room) else [] }

  /** What a record keeps of an entry. */
  function Truncated(n: NodeEntry): NodeEntry {
    n.(user := if n.user.None? then None
               else Some(User(Kept(n.user.value.longName, LONG_NAME_ROOM),
                              Kept(n.user.value.shortName, SHORT_NAME_ROOM),
                              LowByte(n.user.value.hwModel), LowByte(n.user.value.role), [])),
       position := None, deviceMetrics := None,
       pubKey := if n.pubKey.Some? && AllZero(n.pubKey.value) then None else n.pubKey)
  }

  lemma FieldsOfRecord(n: NodeEntry)
    requires n.pubKey.Some? ==> |n.pubKey.value| == 32
    ensures var b := EncodeRecord(n);
            && b[0..20] == NumbersField(n) && b[20..26] == NameField(ShortNameOf(n), SHORT_NAME_ROOM)
            && b[26..55] == NameField(LongNameOf(n), LONG_NAME_ROOM) && b[55..64] == KindField(n)
            && b[64..96] == KeyField(n)
  {}

  lemma NumbersRoundTrip(n: NodeEntry)
    ensures var b := NumbersField(n);
            && FromLE32(b[0..4]) == n.nodeNum && FromLE32(b[4..8]) == n.lastHeard && FromLE64(b[8..16]) == n.lastSeenMs
            && (n.snr.Some? ==> FromSignedByte(b[16]) == n.snr.value)
            && (n.hopsAway.Some? ==> b[17] == n.hopsAway.value)
            && b[18] == n.nextHop
            && Bit(b[19], 1) == n.isFavorite && Bit(b[19], 2) == n.isIgnored && Bit(b[19], 4) == n.isMuted
  {
    var b := NumbersField(n);
    assert b[0..4] == LE32(n.nodeNum) && b[4..8] == LE32(n.lastHeard) && b[8..16] == LE64(n.lastSeenMs);
    LE32RoundTrip(n.nodeNum);
    LE32RoundTrip(n.lastHeard);
    LE64RoundTrip(n.lastSeenMs);
  }

  lemma NameRoundTrip(name: seq<u8>, room: nat)
    requires room < 0x100
    ensures ReadName(NameField(name, room)) == Kept(name, room)
    ensures NameField(name, room)[0] == 0 <==> Cut(name, room) == []
  {
    var f := NameField(name, room);
    assert f[1..1 + |Cut(name, room)|] == Cut(name, room);
  }

  lemma KindRoundTrip(n: NodeEntry)
    ensures var b := KindField(n);
            && b[0] == RoleOf(n) && b[1] == HwModelOf(n)
            && Bit(b[2], 1) == n.snr.Some? && Bit(b[2], 2) == n.hopsAway.Some? && Bit(b[2], 4) == n.user.Some?
  {}

  /** A record read back is the entry truncated: an unknown signal or distance stays unknown
      rather than zero, and a node without a user stays without one even beside a user whose
      names are empty. */
  lemma RecordRoundTrip(n: NodeEntry)
    requires n.pubKey.Some? ==> |n.pubKey.value| == 32
    ensures DecodeRecord(EncodeRecord(n)) == if Reserved(n.nodeNum) then None else Some(Truncated(n))
  {
    hide EncodeRecord, NumbersField, NameField, KindField, ReadName, Bit, FromLE32, FromLE64, Kept, FromSignedByte,
      ValidUtf8;
    var b := EncodeRecord(n);
    FieldsOfRecord(n);
    NumbersRoundTrip(n);
    NameRoundTrip(ShortNameOf(n), SHORT_NAME_ROOM);
    NameRoundTrip(LongNameOf(n), LONG_NAME_ROOM);
    KindRoundTrip(n);
    assert b[0..4] == b[0..20][0..4] && b[4..8] == b[0..20][4..8] && b[8..16] == b[0..20][8..16];
    assert b[16] == b[0..20][16] && b[17] == b[0..20][17] && b[18] == b[0..20][18] && b[19] == b[0..20][19];
    assert b[20] == b[20..26][0] && b[26] == b[26..55][0];
    assert b[55] == b[55..64][0] && b[56] == b[55..64][1] && b[57] == b[55..64][2];
    assert n.user.None? ==> ShortNameOf(n) == [] && LongNameOf(n) == [];
  }

  /** A name survives exactly when it fits and is UTF-8; a cut that splits a character loses
      all of it. */
  lemma NameSurvivesIff(name: seq<u8>, room: nat)
    ensures Kept(name, room) == name <==> (|name| <= room && ValidUtf8(name)) || name == []
  {
    hide ValidUtf8;
    if |name| <= room {
      assert Cut(name, room) == name;
    }
  }

  /** Six bytes of two-byte characters, cut at five. */
  lemma CutLosesTheName()
    ensures var name: seq<u8> := [0xC3, 0xA9, 0xC3, 0xA9, 0xC3, 0xA9];
            ValidUtf8(name) && Kept(name, SHORT_NAME_ROOM) == []
  {
    var name: seq<u8> := [0xC3, 0xA9, 0xC3, 0xA9, 0xC3, 0xA9];
    var cut := Cut(name, SHORT_NAME_ROOM);
    assert cut == [0xC3, 0xA9, 0xC3, 0xA9, 0xC3];
    assert name[2..] == [0xC3, 0xA9, 0xC3, 0xA9] && name[2..][2..] == [0xC3, 0xA9] && name[2..][2..][2..] == [];
    assert cut[2..] == [0xC3, 0xA9, 0xC3] && cut[2..][2..] == [0xC3];
    assert CharLength(name) == CharLength(name[2..]) == CharLength(name[2..][2..]) == 2;
    assert CharLength(cut) == CharLength(cut[2..]) == 2 && CharLength(cut[2..][2..]) == 0;
  }

  /** Reading is idempotent: whatever a record is read as is stored and read back unchanged. */
  lemma DecodedRecordsAreFixed(b: seq<u8>)
    requires |b| == RECORD_SIZE && DecodeRecord(b).Some?
    ensures var n := DecodeRecord(b).value;
            && !Reserved(n.nodeNum) && (n.pubKey.Some? ==> |n.pubKey.value| == 32)
            && DecodeRecord(EncodeRecord(n)) == Some(n)
  {
    hide ValidUtf8, Bit, ReadName, Kept, EncodeRecord, FromLE32, FromLE64, FromSignedByte;
    var n := DecodeRecord(b).value;
    RecordRoundTrip(n);
    ReadNamesAreKept(b[20..26], SHORT_NAME_ROOM);
    ReadNamesAreKept(b[26..55], LONG_NAME_ROOM);
  }

  lemma ReadNamesAreKept(field: seq<u8>, room: nat)
    requires |field| == room + 1
    ensures Kept(ReadName(field), room) == ReadName(field)
  {
    hide ValidUtf8;
    AsciiIsUtf8([]);
    var name := ReadName(field);
    assert |name| <= room;
    assert Cut(name, room) == name;
  }

  // ---- The selection ----

  /** Every index below `n`, once. */
  ghost predicate Permutes(order: seq<nat>, n: nat) {
    && |order| == n && InRange(order, n)
    && (forall i, j :: 0 <= i < j < |order| ==> order[i] != order[j])
    && (forall k: nat :: k < n ==> k in order)
  }

  predicate InRange(sel: seq<nat>, n: nat) { forall i :: 0 <= i < |sel| ==> sel[i] < n }

  ghost predicate NewestFirst(nodes: seq<NodeEntry>, order: seq<nat>) {
    && InRange(order, |nodes|)
    && forall i, j :: 0 <= i < j < |order| ==> nodes[order[j]].lastHeard <= nodes[order[i]].lastHeard
  }

  /** The indices by recency; where the firmware calls a library sort, insertion does. */
  method SortNewestFirst(nodes: seq<NodeEntry>) returns (order: seq<nat>)
    ensures Permutes(order, |nodes|) && NewestFirst(nodes, order)
  {
    order := [];
    for i := 0 to |nodes|
      invariant Permutes(order, i) && NewestFirst(nodes, order)
    {
      var p := |order|;
      while p > 0 && nodes[order[p - 1]].lastHeard < nodes[i].lastHeard
        invariant 0 <= p <= |order|
        invariant forall k :: p <= k < |order| ==> nodes[order[k]].lastHeard < nodes[i].lastHeard
      {
        p := p - 1;
      }
      InsertKeepsOrder(nodes, order, i, p);
      order := order[..p] + [i] + order[p..];
    }
  }

  lemma InsertKeepsOrder(nodes: seq<NodeEntry>, order: seq<nat>, i: nat, p: nat)
    requires i < |nodes| && Permutes(order, i) && NewestFirst(nodes, order) && p <= |order|
    requires p > 0 ==> nodes[i].lastHeard <= nodes[order[p - 1]].lastHeard
    requires forall k :: p <= k < |order| ==> nodes[order[k]].lastHeard < nodes[i].lastHeard
    ensures Permutes(order[..p] + [i] + order[p..], i + 1) && NewestFirst(nodes, order[..p] + [i] + order[p..])
  {
    InsertPermutes(order, i, p);
    hide Permutes;
    var r := order[..p] + [i] + order[p..];
    forall a, b | 0 <= a < b < |r|
      ensures nodes[r[b]].lastHeard <= nodes[r[a]].lastHeard
    {
      if a == p {
        assert r[a] == i && r[b] == order[b - 1];
      } else if b == p {
        assert r[b] == i && r[a] == order[a];
        assert nodes[order[p - 1]].lastHeard <= nodes[order[a]].lastHeard;
      } else {
        assert r[a] == order[if a < p then a else a - 1] && r[b] == order[if b < p then b else b - 1];
      }
    }
  }

  lemma InsertPermutes(order: seq<nat>, i: nat, p: nat)
    requires Permutes(order, i) && p <= |order|
    ensures Permutes(order[..p] + [i] + order[p..], i + 1)
  {
    var r := order[..p] + [i] + order[p..];
    assert forall k :: 0 <= k < |r| ==> r[k] == if k < p then order[k] else if k == p then i else order[k - 1];
    forall k: nat | k < i + 1
      ensures k in r
    {
      if k < i {
        assert k in order;
        var j :| 0 <= j < |order| && order[j] == k;
        assert r[if j < p then j else j + 1] == k;
      } else {
        assert r[p] == i;
      }
    }
  }

  /** The indices a snapshot stores. */
  function Selected(order: seq<nat>): (sel: seq<nat>)
    ensures |sel| == Min(|order|, MAX_PERSISTED_NODES)
  {
    order[..Min(|order|, MAX_PERSISTED_NODES)]
  }

  /** By last_heard, the selection leaves out nothing later than what it keeps, and leaves out nothing
      at all while there is room. The running firmware never sets that field; `Recency` says what is
      kept then. */
  lemma SelectionIsByLastHeard(nodes: seq<NodeEntry>, order: seq<nat>, i: nat, j: nat)
    requires Permutes(order, |nodes|) && NewestFirst(nodes, order)
    requires i in Selected(order) && j < |nodes| && j !in Selected(order)
    ensures i < |nodes| && nodes[j].lastHeard <= nodes[i].lastHeard && |Selected(order)| == MAX_PERSISTED_NODES
  {
    var a :| 0 <= a < |Selected(order)| && Selected(order)[a] == i;
    assert j in order;
    var b :| 0 <= b < |order| && order[b] == j;
    var sel := Selected(order);
    assert forall k :: 0 <= k < |sel| ==> sel[k] in sel && sel[k] == order[k];
    assert order[a] == i;
  }

  // ---- The whole snapshot ----

  function SnapshotHeader(count: u8): (b: seq<u8>)
    ensures |b| == SNAPSHOT_HEADER_SIZE
  {
    LE32(SNAPSHOT_MAGIC) + [SNAPSHOT_VERSION, count] + Zeros(10)
  }

  /** Entries whose keys fit a record. */
  predicate Storable(nodes: seq<NodeEntry>) {
    forall e :: e in nodes && e.pubKey.Some? ==> |e.pubKey.value| == 32
  }

  function Records(nodes: seq<NodeEntry>, sel: seq<nat>): (b: seq<u8>)
    requires Storable(nodes) && InRange(sel, |nodes|)
    ensures |b| == |sel| * RECORD_SIZE
  {
    if sel == [] then []
    else Records(nodes, sel[..|sel| - 1]) + EncodeRecord(nodes[sel[|sel| - 1]])
  }

  function SnapshotOf(nodes: seq<NodeEntry>, order: seq<nat>): (b: seq<u8>)
    requires Storable(nodes) && InRange(order, |nodes|)
    ensures |b| == SNAPSHOT_BYTES
  {
    var sel := Selected(order);
    SnapshotHeader(|sel|) + Records(nodes, sel) + Zeros((MAX_PERSISTED_NODES - |sel|) * RECORD_SIZE)
  }

  function RecordAt(buf: seq<u8>, slot: nat): (b: seq<u8>)
    requires |buf| >= SNAPSHOT_BYTES && slot < MAX_PERSISTED_NODES
    ensures |b| == RECORD_SIZE
  {
    buf[SNAPSHOT_HEADER_SIZE + slot * RECORD_SIZE..SNAPSHOT_HEADER_SIZE + slot * RECORD_SIZE + RECORD_SIZE]
  }

  lemma {:induction false} RecordOfSlot(nodes: seq<NodeEntry>, sel: seq<nat>, slot: nat)
    requires Storable(nodes) && InRange(sel, |nodes|) && slot < |sel|
    ensures Records(nodes, sel)[slot * RECORD_SIZE..slot * RECORD_SIZE + RECORD_SIZE] == EncodeRecord(nodes[sel[slot]])
  {
    hide EncodeRecord;
    var init := sel[..|sel| - 1];
    if slot < |init| {
      RecordOfSlot(nodes, init, slot);
      assert Records(nodes, sel)[slot * RECORD_SIZE..slot * RECORD_SIZE + RECORD_SIZE]
             == Records(nodes, init)[slot * RECORD_SIZE..slot * RECORD_SIZE + RECORD_SIZE];
    }
  }

  lemma SnapshotSlots(nodes: seq<NodeEntry>, order: seq<nat>, slot: nat)
    requires Storable(nodes) && InRange(order, |nodes|) && slot < |Selected(order)|
    ensures RecordAt(SnapshotOf(nodes, order), slot) == EncodeRecord(nodes[order[slot]])
  {
    hide EncodeRecord, Records;
    var sel := Selected(order);
    RecordOfSlot(nodes, sel, slot);
    assert RecordAt(SnapshotOf(nodes, order), slot)
           == Records(nodes, sel)[slot * RECORD_SIZE..slot * RECORD_SIZE + RECORD_SIZE];
  }

  // ---- Restoring ----

  predicate Acceptable(buf: seq<u8>) {
    && |buf| >= SNAPSHOT_BYTES && FromLE32(buf[0..4]) == SNAPSHOT_MAGIC && buf[4] == SNAPSHOT_VERSION
    && buf[5] <= MAX_PERSISTED_NODES
  }

  function AddRestored(nodes: seq<NodeEntry>, our: u32, e: Option<NodeEntry>): seq<NodeEntry> {
    if e.Some? && e.value.nodeNum != our && IndexOf(nodes, e.value.nodeNum) == |nodes| && |nodes| < MAX_NODES
    then nodes + [e.value] else nodes
  }

  /** The table after restoring the first `count` slots. */
  function RestoreSlots(kept: seq<NodeEntry>, our: u32, buf: seq<u8>, count: nat): seq<NodeEntry>
    requires |buf| >= SNAPSHOT_BYTES && count <= MAX_PERSISTED_NODES
  {
    if count == 0 then kept
    else AddRestored(RestoreSlots(kept, our, buf, count - 1), our, DecodeRecord(RecordAt(buf, count - 1)))
  }

  function IsOurs(our: u32): NodeEntry -> bool { (e: NodeEntry) => e.nodeNum == our }

  function RestoreSnapshot(db: Db, buf: seq<u8>): (Db, bool) {
    if !Acceptable(buf) then (db, false)
    else (db.(nodes := RestoreSlots(Retain(db.nodes, IsOurs(db.our)), db.our, buf, buf[5]), dirty := false), true)
  }

  /** The selected entries other than our own, as a record keeps them. */
  function RestoredOf(nodes: seq<NodeEntry>, sel: seq<nat>, our: u32): (r: seq<NodeEntry>)
    requires InRange(sel, |nodes|)
    ensures |r| <= |sel|
    ensures forall e :: e in r ==> e.nodeNum != our && exists i :: i in sel && e.nodeNum == nodes[i].nodeNum
  {
    if sel == [] then []
    else
      var last := nodes[sel[|sel| - 1]];
      RestoredOf(nodes, sel[..|sel| - 1], our) + (if last.nodeNum == our then [] else [Truncated(last)])
  }

  lemma {:induction false} SlotsRestoreTheSelection(nodes: seq<NodeEntry>, order: seq<nat>, kept: seq<NodeEntry>,
          our: u32, count: nat)
    requires ValidNodes(nodes) && Permutes(order, |nodes|) && count <= |Selected(order)|
    requires |kept| <= 1 && forall e :: e in kept ==> e.nodeNum == our
    ensures RestoreSlots(kept, our, SnapshotOf(nodes, order), count) == kept + RestoredOf(nodes, order[..count], our)
  {
    hide EncodeRecord, DecodeRecord, SnapshotOf, Truncated, RecordAt, ValidNodes, Permutes, AddRestored;
    if count > 0 {
      var slot := count - 1;
      StorableInRange(nodes, order);
      SlotsRestoreTheSelection(nodes, order, kept, our, slot);
      SnapshotSlots(nodes, order, slot);
      SelectedIsAdded(nodes, order, kept, our, slot);
      assert order[..count][..slot] == order[..slot];
    }
  }

  lemma StorableInRange(nodes: seq<NodeEntry>, order: seq<nat>)
    requires ValidNodes(nodes) && Permutes(order, |nodes|)
    ensures Storable(nodes) && InRange(order, |nodes|)
  {}

  /** The record in `slot` names a node not restored so far. */
  lemma SelectedIsAdded(nodes: seq<NodeEntry>, order: seq<nat>, kept: seq<NodeEntry>, our: u32, slot: nat)
    requires ValidNodes(nodes) && Permutes(order, |nodes|) && slot < |Selected(order)|
    requires |kept| <= 1 && forall e :: e in kept ==> e.nodeNum == our
    ensures var e, before := nodes[order[slot]], kept + RestoredOf(nodes, order[..slot], our);
            && (e.pubKey.Some? ==> |e.pubKey.value| == 32)
            && AddRestored(before, our, DecodeRecord(EncodeRecord(e)))
               == before + if e.nodeNum == our then [] else [Truncated(e)]
  {
    hide EncodeRecord, DecodeRecord, Truncated, RestoredOf;
    var e, before := nodes[order[slot]], kept + RestoredOf(nodes, order[..slot], our);
    assert e in nodes;
    RecordRoundTrip(e);
    TruncatedKeepsNumber(e);
    if e.nodeNum != our {
      forall k | 0 <= k < |before|
        ensures before[k].nodeNum != e.nodeNum
      {
        assert before[k] in kept || before[k] in RestoredOf(nodes, order[..slot], our);
      }
    }
  }

  lemma TruncatedKeepsNumber(n: NodeEntry)
    ensures Truncated(n).nodeNum == n.nodeNum
  {}

  lemma SnapshotIsAcceptable(nodes: seq<NodeEntry>, order: seq<nat>)
    requires Storable(nodes) && InRange(order, |nodes|)
    ensures var buf := SnapshotOf(nodes, order);
            Acceptable(buf) && buf[5] == |Selected(order)|
  {
    hide Records;
    var buf := SnapshotOf(nodes, order);
    assert buf[0..4] == LE32(SNAPSHOT_MAGIC);
    LE32RoundTrip(SNAPSHOT_MAGIC);
  }

  /** Restoring a snapshot into any table keeps that table's own entry and brings back exactly
      the other selected entries, newest first, each as a record keeps it. */
  lemma RestoreBringsBackTheSelection(nodes: seq<NodeEntry>, order: seq<nat>, db: Db)
    requires ValidNodes(nodes) && Permutes(order, |nodes|) && ValidNodes(db.nodes)
    ensures RestoreSnapshot(db, SnapshotOf(nodes, order))
            == (Db(Retain(db.nodes, IsOurs(db.our)) + RestoredOf(nodes, Selected(order), db.our), db.our, false), true)
  {
    hide SnapshotOf, RestoreSlots, RestoredOf, Acceptable;
    SnapshotIsAcceptable(nodes, order);
    OwnEntryAtMostOnce(db.nodes, db.our);
    SlotsRestoreTheSelection(nodes, order, Retain(db.nodes, IsOurs(db.our)), db.our, |Selected(order)|);
    assert order[..|Selected(order)|] == Selected(order);
  }

  lemma {:induction false} OwnEntryAtMostOnce(nodes: seq<NodeEntry>, our: u32)
    requires ValidNodes(nodes)
    ensures var kept := Retain(nodes, IsOurs(our));
            |kept| <= 1 && ValidNodes(kept)
  {
    var kept := Retain(nodes, IsOurs(our));
    RetainKeepsValid(nodes, IsOurs(our));
    assert forall k :: 0 <= k < |kept| ==> kept[k] in kept;
    OneOfEach(kept, our);
  }

  lemma OneOfEach(nodes: seq<NodeEntry>, num: u32)
    requires Distinct(nodes) && forall k :: 0 <= k < |nodes| ==> nodes[k].nodeNum == num
    ensures |nodes| <= 1
  {
    var i := if |nodes| > 1 then 1 else 0;
    assert |nodes| == 0 || nodes[i].nodeNum == nodes[0].nodeNum;
  }

  /** `r` is a well-formed table that extends `kept` with entries that are not ours. */
  ghost predicate Extends(r: seq<NodeEntry>, kept: seq<NodeEntry>, our: u32, room: nat) {
    && ValidNodes(r) && |kept| <= |r| <= |kept| + room && r[..|kept|] == kept
    && forall k :: |kept| <= k < |r| ==> r[k].nodeNum != our
  }

  lemma ExtendsItself(kept: seq<NodeEntry>, our: u32)
    requires ValidNodes(kept)
    ensures Extends(kept, kept, our, 0)
  {}

  lemma {:induction false} SlotsKeepValid(kept: seq<NodeEntry>, our: u32, buf: seq<u8>, count: nat)
    requires ValidNodes(kept) && |buf| >= SNAPSHOT_BYTES && count <= MAX_PERSISTED_NODES
    ensures Extends(RestoreSlots(kept, our, buf, count), kept, our, count)
  {
    hide DecodeRecord, RecordAt, AddRestored, ValidNodes, Extends;
    if count == 0 {
      ExtendsItself(kept, our);
    } else {
      SlotsKeepValid(kept, our, buf, count - 1);
      SlotKeepsValid(RestoreSlots(kept, our, buf, count - 1), kept, our, RecordAt(buf, count - 1), count - 1);
    }
  }

  lemma SlotKeepsValid(r: seq<NodeEntry>, kept: seq<NodeEntry>, our: u32, record: seq<u8>, room: nat)
    requires |record| == RECORD_SIZE && Extends(r, kept, our, room)
    ensures Extends(AddRestored(r, our, DecodeRecord(record)), kept, our, room + 1)
  {
    hide DecodeRecord, AddRestored, ValidNodes, EncodeRecord;
    var e := DecodeRecord(record);
    if e.Some? {
      DecodedRecordsAreFixed(record);
    }
    AddRestoredKeepsValid(r, our, e);
  }

  lemma AddRestoredKeepsValid(r: seq<NodeEntry>, our: u32, e: Option<NodeEntry>)
    requires ValidNodes(r)
    requires e.Some? ==> !Reserved(e.value.nodeNum) && (e.value.pubKey.Some? ==> |e.value.pubKey.value| == 32)
    ensures var r' := AddRestored(r, our, e);
            ValidNodes(r') && |r| <= |r'| <= |r| + 1 && r'[..|r|] == r
            && forall k :: |r| <= k < |r'| ==> r'[k].nodeNum != our
  {
    if e.Some? {
      assert forall x :: x in r + [e.value] ==> x in r || x == e.value;
    }
  }

  /** Whatever bytes are restored, either nothing changes, or the table is well formed, clean,
      and has just the entry of our own that it had. */
  lemma AnyBytesRestoreSafely(db: Db, buf: seq<u8>)
    requires ValidNodes(db.nodes)
    ensures var (d, ok) := RestoreSnapshot(db, buf);
            if ok then
              && ValidNodes(d.nodes) && !d.dirty && Get(d, db.our) == Get(db, db.our)
              && |d.nodes| <= 1 + MAX_PERSISTED_NODES
            else d == db
  {
    hide RestoreSlots, ValidNodes, Acceptable;
    if Acceptable(buf) {
      AcceptedBytesRestoreSafely(db, buf);
    }
  }

  lemma AcceptedBytesRestoreSafely(db: Db, buf: seq<u8>)
    requires ValidNodes(db.nodes) && Acceptable(buf)
    ensures var d := RestoreSnapshot(db, buf).0;
            ValidNodes(d.nodes) && Get(d, db.our) == Get(db, db.our) && |d.nodes| <= 1 + MAX_PERSISTED_NODES
  {
    hide RestoreSlots;
    var kept := Retain(db.nodes, IsOurs(db.our));
    OwnEntryAtMostOnce(db.nodes, db.our);
    SlotsKeepValid(kept, db.our, buf, buf[5]);
    var d := RestoreSnapshot(db, buf).0;
    var own := Get(db, db.our);
    if own.Some? {
      assert own.value in kept;
      assert kept == [own.value] && d.nodes[0] == own.value;
    } else {
      assert forall e :: e in kept ==> e in db.nodes;
      assert forall k :: 0 <= k < |kept| ==> kept[k] in kept;
      assert forall e :: e in d.nodes ==> e.nodeNum != db.our;
    }
  }
}
