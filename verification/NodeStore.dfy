/** Writing the node table into a snapshot buffer and reading it back, in place. */
module NodeStore {
  import opened Bytes
  import opened Utf8
  import opened Vecs
  import opened NodeDb
  import opened Snapshot

  /** Copy a name field into a zeroed record. */
  method EncodeName(rec: array<u8>, off: nat, name: seq<u8>, room: nat)
    requires room < 0x100 && off + room + 1 <= rec.Length
    requires forall k :: off <= k < off + room + 1 ==> rec[k] == 0
    modifies rec
    ensures rec[..] == Splice(old(rec[..]), off, NameField(name, room))
  {
    var cut := name[..Min(|name|, room)];
    rec[off] := |cut|;
    CopyInto(rec, off + 1, cut);
  }

  /** Encode one entry into a zeroed record, field by field. */
  method EncodeRecordInto(rec: array<u8>, n: NodeEntry)
    requires rec.Length == RECORD_SIZE && AllZero(rec[..])
    requires n.pubKey.Some? ==> |n.pubKey.value| == 32
    modifies rec
    ensures rec[..] == EncodeRecord(n)
  {
    hide NumbersField, NameField, KindField, Splice;
    EncodeNumbers(rec, n);
    EncodeName(rec, 20, ShortNameOf(n), SHORT_NAME_ROOM);
    EncodeName(rec, 26, LongNameOf(n), LONG_NAME_ROOM);
    EncodeKind(rec, n);
    if n.pubKey.Some? {
      CopyInto(rec, 64, n.pubKey.value);
    }
    assert rec[..] == rec[0..20] + rec[20..26] + rec[26..55] + rec[55..64] + rec[64..96];
  }

  method EncodeNumbers(rec: array<u8>, n: NodeEntry)
    requires rec.Length == RECORD_SIZE
    modifies rec
    ensures rec[..] == Splice(old(rec[..]), 0, NumbersField(n))
  {
    hide LE32, LE64, Splice, Pack3, SignedByte;
    ghost var was := rec[..];
    CopyInto(rec, 0, LE32(n.nodeNum));
    CopyInto(rec, 4, LE32(n.lastHeard));
    CopyInto(rec, 8, LE64(n.lastSeenMs));
    assert rec[0..4] == LE32(n.nodeNum) && rec[4..8] == LE32(n.lastHeard) && rec[8..16] == LE64(n.lastSeenMs);
    assert rec[16..] == was[16..];
    rec[16] := SignedByte(if n.snr.Some? then n.snr.value else 0);
    rec[17] := if n.hopsAway.Some? then n.hopsAway.value else 0;
    rec[18] := n.nextHop;
    rec[19] := Pack3(n.isFavorite, n.isIgnored, n.isMuted);
    assert rec[0..20] == rec[0..4] + rec[4..8] + rec[8..16] + [rec[16], rec[17], rec[18], rec[19]];
    assert rec[0..20] == NumbersField(n) && rec[20..] == was[20..];
    assert rec[..] == rec[0..20] + rec[20..];
    SpliceIs(was, 0, NumbersField(n));
  }

  method EncodeKind(rec: array<u8>, n: NodeEntry)
    requires rec.Length == RECORD_SIZE && forall k :: 55 <= k < 64 ==> rec[k] == 0
    modifies rec
    ensures rec[..] == Splice(old(rec[..]), 55, KindField(n))
  {
    rec[55] := RoleOf(n);
    rec[56] := HwModelOf(n);
    rec[57] := Pack3(n.snr.Some?, n.hopsAway.Some?, n.user.Some?);
  }

  /** The buffer once the first `slot` records are written. */
  ghost function Written(nodes: seq<NodeEntry>, sel: seq<nat>, slot: nat): (b: seq<u8>)
    requires Storable(nodes) && InRange(sel, |nodes|) && slot <= |sel| <= MAX_PERSISTED_NODES
    ensures |b| == SNAPSHOT_BYTES
  {
    SnapshotHeader(|sel|) + Records(nodes, sel[..slot]) + Zeros((MAX_PERSISTED_NODES - slot) * RECORD_SIZE)
  }

  /** The snapshot of the table in the recency order returned. */
  method ToSnapshot(db: NodeDB) returns (bytes: seq<u8>, order: seq<nat>)
    requires db.Valid()
    ensures Permutes(order, |db.nodes|) && NewestFirst(db.nodes, order)
    ensures Storable(db.nodes) && InRange(order, |db.nodes|) && bytes == SnapshotOf(db.nodes, order)
  {
    hide Permutes, NewestFirst, EncodeRecord, SnapshotHeader, Records, Written, Distinct, Splice, LE32;
    order := SortNewestFirst(db.nodes);
    StorableInRange(db.nodes, order);
    var buf := new u8[SNAPSHOT_BYTES](_ => 0);
    ghost var sel := Selected(order);
    var count := Min(|order|, MAX_PERSISTED_NODES);
    CopyInto(buf, 0, LE32(SNAPSHOT_MAGIC));
    buf[4] := SNAPSHOT_VERSION;
    buf[5] := count;
    HeaderWritten(db.nodes, sel, buf[..]);
    for slot := 0 to count
      invariant buf[..] == Written(db.nodes, sel, slot)
    {
      var rec := new u8[RECORD_SIZE](_ => 0);
      var n := db.nodes[order[slot]];
      assert n in db.nodes && n == db.nodes[sel[slot]];
      EncodeRecordInto(rec, n);
      NextRecord(db.nodes, sel, slot);
      CopyInto(buf, SNAPSHOT_HEADER_SIZE + slot * RECORD_SIZE, rec[..]);
    }
    bytes := buf[..];
    AllWritten(db.nodes, order);
  }

  lemma HeaderWritten(nodes: seq<NodeEntry>, sel: seq<nat>, buf: seq<u8>)
    requires Storable(nodes) && InRange(sel, |nodes|) && |sel| <= MAX_PERSISTED_NODES
    requires buf == Splice(Zeros(SNAPSHOT_BYTES), 0, LE32(SNAPSHOT_MAGIC))[4 := SNAPSHOT_VERSION][5 := |sel|]
    ensures buf == Written(nodes, sel, 0)
  {
    assert Written(nodes, sel, 0) == SnapshotHeader(|sel|) + Zeros(MAX_PERSISTED_NODES * RECORD_SIZE);
  }

  lemma NextRecord(nodes: seq<NodeEntry>, sel: seq<nat>, slot: nat)
    requires Storable(nodes) && InRange(sel, |nodes|) && slot < |sel| <= MAX_PERSISTED_NODES
    requires nodes[sel[slot]].pubKey.Some? ==> |nodes[sel[slot]].pubKey.value| == 32
    ensures Splice(Written(nodes, sel, slot), SNAPSHOT_HEADER_SIZE + slot * RECORD_SIZE, EncodeRecord(nodes[sel[slot]]))
            == Written(nodes, sel, slot + 1)
  {
    hide EncodeRecord, SnapshotHeader, Splice;
    assert sel[..slot + 1][..slot] == sel[..slot];
    var front := SnapshotHeader(|sel|) + Records(nodes, sel[..slot]);
    SpliceAfter(front, Zeros((MAX_PERSISTED_NODES - slot) * RECORD_SIZE), EncodeRecord(nodes[sel[slot]]));
    assert SnapshotHeader(|sel|) + (Records(nodes, sel[..slot]) + EncodeRecord(nodes[sel[slot]]))
           == front + EncodeRecord(nodes[sel[slot]]);
  }

  lemma AllWritten(nodes: seq<NodeEntry>, order: seq<nat>)
    requires Storable(nodes) && InRange(order, |nodes|)
    ensures Written(nodes, Selected(order), |Selected(order)|) == SnapshotOf(nodes, order)
  {
    assert Selected(order)[..|Selected(order)|] == Selected(order);
  }

  /** Read a snapshot into the table, slot by slot. */
  method RestoreInto(db: NodeDB, buf: seq<u8>) returns (ok: bool)
    requires db.Valid()
    modifies db
    ensures db.Valid() && (db.View(), ok) == RestoreSnapshot(old(db.View()), buf)
  {
    hide DecodeRecord, RecordAt, ValidNodes;
    ghost var before := db.View();
    AnyBytesRestoreSafely(before, buf);
    if |buf| < SNAPSHOT_BYTES {
      return false;
    }
    if FromLE32(buf[0..4]) != SNAPSHOT_MAGIC || buf[4] != SNAPSHOT_VERSION {
      return false;
    }
    if buf[5] > MAX_PERSISTED_NODES {
      return false;
    }
    db.nodes := Retain(db.nodes, IsOurs(db.our));
    for slot := 0 to buf[5]
      invariant db.View() == before.(nodes := RestoreSlots(Retain(before.nodes, IsOurs(db.our)), db.our, buf, slot))
    {
      var entry := DecodeRecord(RecordAt(buf, slot));
      db.nodes := AddRestored(db.nodes, db.our, entry);
    }
    db.dirty := false;
    return true;
  }
}
