/** The ten-slot ring of stored frames and its mirror in one flash sector. */
module MessageRing {
  import opened Bytes
  import opened Rings

  const MAX_BUFFERED_MESSAGES: nat := 10
  const SECTOR_SIZE: nat := 4096
  const RING_HEADER_SIZE: nat := 64
  const SLOT_FLASH_SIZE: nat := 260
  const RING_MAGIC: u32 := 0x4D45_5348

  type StoredFrame = b: seq<u8> | |b| <= 255

  /** Which of the two writes of an add or a pop reach flash. */
  datatype WriteOutcome = WriteOutcome(slot: bool, header: bool)

  /** A cached slot; an invalid one still remembers what it held. */
  datatype Slot = Slot(valid: bool, data: StoredFrame)

  const EMPTY_SLOT: Slot := Slot(false, [])

  datatype Ring = Ring(head: nat, tail: nat, count: nat, slots: seq<Slot>)

  function EmptyRing(): (r: Ring)
    ensures InBounds(r) && forall i :: 0 <= i < MAX_BUFFERED_MESSAGES ==> r.slots[i] == EMPTY_SLOT
  {
    Ring(0, 0, 0, seq(MAX_BUFFERED_MESSAGES, _ => EMPTY_SLOT))
  }

  /** What any loaded ring satisfies: enough for every operation to stay in bounds. */
  predicate InBounds(r: Ring) {
    && |r.slots| == MAX_BUFFERED_MESSAGES
    && r.head < MAX_BUFFERED_MESSAGES && r.tail < MAX_BUFFERED_MESSAGES && r.count <= MAX_BUFFERED_MESSAGES
  }

  /** The slot `k` places after `tail`. */
  function At(tail: nat, k: nat): (i: nat)
    requires tail < MAX_BUFFERED_MESSAGES && k <= MAX_BUFFERED_MESSAGES
    ensures i < MAX_BUFFERED_MESSAGES
    ensures i == if tail + k < MAX_BUFFERED_MESSAGES then tail + k else tail + k - MAX_BUFFERED_MESSAGES
  {
    (tail + k) % MAX_BUFFERED_MESSAGES
  }

  predicate Aligned(r: Ring) { InBounds(r) && r.head == At(r.tail, r.count) }

  /** A sound ring: the indices agree and every queued slot is valid. */
  ghost predicate Ok(r: Ring) {
    Aligned(r) && forall k :: 0 <= k < r.count ==> r.slots[At(r.tail, k)].valid
  }

  /** The queue a ring stands for, oldest first. */
  function Contents(r: Ring): (q: seq<StoredFrame>)
    requires InBounds(r)
    ensures |q| == r.count
  {
    seq(r.count, k requires 0 <= k < r.count => r.slots[At(r.tail, k)].data)
  }

  function Shown(s: Slot): Option<StoredFrame> { if s.valid then Some(s.data) else None }

  /** The queued slots as peeking sees them, oldest first: a frame, or nothing for an invalid one. */
  function Window(r: Ring): (w: seq<Option<StoredFrame>>)
    requires InBounds(r)
    ensures |w| == r.count
  {
    seq(r.count, k requires 0 <= k < r.count => Shown(r.slots[At(r.tail, k)]))
  }

  lemma SoundIsFull(r: Ring)
    requires Aligned(r)
    ensures Ok(r) <==> None !in Window(r)
    ensures forall k :: 0 <= k < r.count && Window(r)[k].Some? ==> Window(r)[k].value == Contents(r)[k]
  {
    hide At;
    if None !in Window(r) {
      forall k | 0 <= k < r.count
        ensures r.slots[At(r.tail, k)].valid
      {
        assert Window(r)[k] in Window(r);
      }
    }
  }

  // ---- The operations ----

  function AddRing(r: Ring, f: StoredFrame): (r': Ring)
    requires InBounds(r)
    ensures InBounds(r')
  {
    var roomy := if r.count >= MAX_BUFFERED_MESSAGES then r.(tail := At(r.tail, 1), count := r.count - 1) else r;
    roomy.(slots := r.slots[r.head := Slot(true, f)], head := At(r.head, 1), count := roomy.count + 1)
  }

  function PopRing(r: Ring): (r': Ring)
    requires InBounds(r) && r.count > 0
    ensures InBounds(r')
  {
    r.(slots := r.slots[r.tail := r.slots[r.tail].(valid := false)], tail := At(r.tail, 1), count := r.count - 1)
  }

  datatype PeekResult = Nothing | Front(frame: StoredFrame) | Broken

  function PeekRing(r: Ring): PeekResult
    requires InBounds(r)
  {
    if r.count == 0 then Nothing
    else if !r.slots[r.tail].valid then Broken
    else Front(r.slots[r.tail].data)
  }

  /** Adding appends, dropping the oldest of ten. */
  lemma AddPushes(r: Ring, f: StoredFrame)
    requires Aligned(r)
    ensures Aligned(AddRing(r, f))
    ensures Window(AddRing(r, f)) == PushBounded(Window(r), Some(f), MAX_BUFFERED_MESSAGES)
  {
    hide At;
    var r' := AddRing(r, f);
    var drop := if r.count == MAX_BUFFERED_MESSAGES then 1 else 0;
    forall k | 0 <= k < r'.count
      ensures r'.slots[At(r'.tail, k)] == if k == r'.count - 1 then Slot(true, f) else r.slots[At(r.tail, k + drop)]
    {
    }
    var w, w' := Window(r), Window(r');
    assert forall k :: 0 <= k < r'.count - 1 ==> w'[k] == w[k + drop];
  }

  /** Popping drops the oldest, whatever its slot holds. */
  lemma PopDropsTheOldest(r: Ring)
    requires Aligned(r) && r.count > 0
    ensures Aligned(PopRing(r)) && Window(PopRing(r)) == Window(r)[1..]
  {
    hide At;
    var r' := PopRing(r);
    forall k | 0 <= k < r'.count
      ensures r'.slots[At(r'.tail, k)] == r.slots[At(r.tail, k + 1)]
    {
    }
    assert forall k :: 0 <= k < r'.count ==> Window(r')[k] == Window(r)[k + 1];
  }

  function PeekOf(w: seq<Option<StoredFrame>>): PeekResult {
    if w == [] then Nothing else match w[0] case None => Broken case Some(f) => Front(f)
  }

  lemma PeekShowsTheOldest(r: Ring)
    requires InBounds(r)
    ensures PeekRing(r) == PeekOf(Window(r))
  {
    assert r.count > 0 ==> Window(r)[0] == Shown(r.slots[At(r.tail, 0)]);
  }

  /** Adding to a sound ring appends, dropping the oldest frame of ten. */
  lemma AddIsPushBounded(r: Ring, f: StoredFrame)
    requires Ok(r)
    ensures Ok(AddRing(r, f))
    ensures Contents(AddRing(r, f)) == PushBounded(Contents(r), f, MAX_BUFFERED_MESSAGES)
  {
    hide AddRing, Window, Contents;
    var r' := AddRing(r, f);
    AddPushes(r, f);
    SoundIsFull(r);
    SoundIsFull(r');
    PushStaysFull(Window(r), f);
    assert forall k :: 0 <= k < r'.count ==> Contents(r')[k] == Window(r')[k].value;
  }

  lemma PushStaysFull(w: seq<Option<StoredFrame>>, f: StoredFrame)
    requires None !in w && |w| <= MAX_BUFFERED_MESSAGES
    ensures None !in PushBounded(w, Some(f), MAX_BUFFERED_MESSAGES)
  {}

  /** Peeking shows the oldest frame and popping drops it. */
  lemma PopDropsWhatPeekShows(r: Ring)
    requires Ok(r)
    ensures r.count == 0 ==> PeekRing(r) == Nothing
    ensures r.count > 0 ==> PeekRing(r) == Front(Contents(r)[0])
    ensures r.count > 0 ==> Ok(PopRing(r)) && Contents(PopRing(r)) == Contents(r)[1..]
  {
    hide PopRing, Window, Contents;
    SoundIsFull(r);
    PeekShowsTheOldest(r);
    if r.count > 0 {
      var r' := PopRing(r);
      PopDropsTheOldest(r);
      SoundIsFull(r');
      assert forall k :: 0 <= k < r'.count ==> Window(r')[k] in Window(r) && Contents(r')[k] == Window(r')[k].value;
    }
  }

  // ---- Flash layout ----

  datatype RingHeader = RingHeader(head: u32, tail: u32, count: u32)

  function EncodeRingHeader(h: RingHeader): (b: seq<u8>)
    ensures |b| == RING_HEADER_SIZE
  {
    LE32(RING_MAGIC) + LE32(h.head) + LE32(h.tail) + LE32(h.count) + seq(48, _ => 0xFF)
  }

  function DecodeRingHeader(b: seq<u8>): (r: Option<RingHeader>)
    requires |b| == RING_HEADER_SIZE
    ensures r.Some? ==> r.value.head < 10 && r.value.tail < 10 && r.value.count <= 10
  {
    var h := RingHeader(FromLE32(b[4..8]), FromLE32(b[8..12]), FromLE32(b[12..16]));
    if FromLE32(b[0..4]) != RING_MAGIC then None
    else if h.head >= MAX_BUFFERED_MESSAGES || h.tail >= MAX_BUFFERED_MESSAGES then None
    else if h.count > MAX_BUFFERED_MESSAGES then None
    else Some(h)
  }

  /** A header is read back exactly when its three numbers are in range; nothing checks that
      they fit together. */
  lemma HeaderSurvivesIffInRange(h: RingHeader)
    ensures DecodeRingHeader(EncodeRingHeader(h))
            == if h.head < MAX_BUFFERED_MESSAGES && h.tail < MAX_BUFFERED_MESSAGES && h.count <= MAX_BUFFERED_MESSAGES
               then Some(h) else None
  {
    var b := EncodeRingHeader(h);
    assert b[0..4] == LE32(RING_MAGIC) && b[4..8] == LE32(h.head);
    assert b[8..12] == LE32(h.tail) && b[12..16] == LE32(h.count);
    LE32RoundTrip(RING_MAGIC);
    LE32RoundTrip(h.head);
    LE32RoundTrip(h.tail);
    LE32RoundTrip(h.count);
  }

  function EncodeSlot(s: Slot): (b: seq<u8>)
    ensures |b| == SLOT_FLASH_SIZE
  {
    [if s.valid then 1 else 0, |s.data|] + (if s.valid then s.data else Zeros(|s.data|)) + Zeros(258 - |s.data|)
  }

  /** What loading makes of a slot: an invalid one keeps the cached bytes. */
  function LoadSlot(b: seq<u8>, was: Slot): Slot
    requires |b| == SLOT_FLASH_SIZE
  {
    if b[0] == 1 then Slot(true, b[2..2 + b[1]]) else was.(valid := false)
  }

  lemma SlotRoundTrip(s: Slot, was: Slot)
    ensures LoadSlot(EncodeSlot(s), was) == if s.valid then s else was.(valid := false)
  {
    if s.valid {
      assert EncodeSlot(s)[2..2 + |s.data|] == s.data;
    }
  }

  type Flash = b: seq<u8> | |b| == SECTOR_SIZE witness Zeros(SECTOR_SIZE)

  function SlotOffset(i: nat): (off: nat)
    requires i < MAX_BUFFERED_MESSAGES
    ensures RING_HEADER_SIZE <= off && off + SLOT_FLASH_SIZE <= SECTOR_SIZE
  {
    RING_HEADER_SIZE + i * SLOT_FLASH_SIZE
  }

  function SlotRegion(flash: Flash, i: nat): (b: seq<u8>)
    requires i < MAX_BUFFERED_MESSAGES
    ensures |b| == SLOT_FLASH_SIZE
  {
    flash[SlotOffset(i)..SlotOffset(i) + SLOT_FLASH_SIZE]
  }

  function WriteSlot(flash: Flash, i: nat, s: Slot): Flash
    requires i < MAX_BUFFERED_MESSAGES
  {
    Splice(flash, SlotOffset(i), EncodeSlot(s))
  }

  function HeaderOf(r: Ring): RingHeader
    requires InBounds(r)
  {
    RingHeader(r.head, r.tail, r.count)
  }

  function WriteHeader(flash: Flash, r: Ring): Flash
    requires InBounds(r)
  {
    Splice(flash, 0, EncodeRingHeader(HeaderOf(r)))
  }

  /** No write touches the header or a slot it is not for. */
  lemma WritesAreDisjoint(flash: Flash, i: nat, s: Slot, r: Ring, j: nat)
    requires i < MAX_BUFFERED_MESSAGES && j < MAX_BUFFERED_MESSAGES && InBounds(r)
    ensures WriteSlot(flash, i, s)[..RING_HEADER_SIZE] == flash[..RING_HEADER_SIZE]
    ensures WriteHeader(flash, r)[..RING_HEADER_SIZE] == EncodeRingHeader(HeaderOf(r))
    ensures SlotRegion(WriteHeader(flash, r), j) == SlotRegion(flash, j)
    ensures SlotRegion(WriteSlot(flash, i, s), j) == if i == j then EncodeSlot(s) else SlotRegion(flash, j)
  {
    var off, at := SlotOffset(i), SlotOffset(j);
    SpliceKeepsDisjoint(flash, off, EncodeSlot(s), 0, RING_HEADER_SIZE);
    SpliceReadsBack(flash, 0, EncodeRingHeader(HeaderOf(r)));
    SpliceKeepsDisjoint(flash, 0, EncodeRingHeader(HeaderOf(r)), at, at + SLOT_FLASH_SIZE);
    if i == j {
      SpliceReadsBack(flash, off, EncodeSlot(s));
    } else {
      SpliceKeepsDisjoint(flash, off, EncodeSlot(s), at, at + SLOT_FLASH_SIZE);
    }
  }

  // ---- Booting ----

  function LoadedRing(flash: Flash, h: RingHeader, was: seq<Slot>): Ring
    requires |was| == MAX_BUFFERED_MESSAGES
  {
    Ring(h.head, h.tail, h.count,
         seq(MAX_BUFFERED_MESSAGES,
             i requires 0 <= i < MAX_BUFFERED_MESSAGES => LoadSlot(SlotRegion(flash, i), was[i])))
  }

  function StoredHeader(flash: Flash): (h: Option<RingHeader>)
    ensures h.Some? ==> h.value.head < 10 && h.value.tail < 10 && h.value.count <= 10
  {
    DecodeRingHeader(flash[..RING_HEADER_SIZE])
  }

  function BootRing(flash: Flash): (r: Ring)
    ensures InBounds(r)
  {
    if StoredHeader(flash).None? then EmptyRing() else LoadedRing(flash, StoredHeader(flash).value, EmptyRing().slots)
  }

  function BootFlash(flash: Flash): Flash {
    if StoredHeader(flash).None? then WriteHeader(flash, EmptyRing()) else flash
  }

  /** The bytes of a slot are those of a valid one, or lack the valid mark. */
  predicate Keeps(region: seq<u8>, s: Slot)
    requires |region| == SLOT_FLASH_SIZE
  {
    if s.valid then region == EncodeSlot(s) else region[0] != 1
  }

  /** Flash agrees with the ring: the header, every valid queued slot byte for byte, and every
      invalid one by lacking the mark. Nothing is said of the slots outside the window. */
  ghost predicate Mirrors(flash: Flash, r: Ring) {
    && InBounds(r) && flash[..RING_HEADER_SIZE] == EncodeRingHeader(HeaderOf(r))
    && forall k :: 0 <= k < r.count ==> Keeps(SlotRegion(flash, At(r.tail, k)), r.slots[At(r.tail, k)])
  }

  lemma KeptSlotIsLoaded(region: seq<u8>, s: Slot)
    requires |region| == SLOT_FLASH_SIZE && Keeps(region, s)
    ensures Shown(LoadSlot(region, EMPTY_SLOT)) == Shown(s) && Keeps(region, LoadSlot(region, EMPTY_SLOT))
  {
    SlotRoundTrip(s, EMPTY_SLOT);
  }

  lemma EncodedSlotIsKept(s: Slot)
    ensures Keeps(EncodeSlot(s), s)
  {}

  /** Whatever stale slots lie outside the window, a reboot rebuilds the same window. */
  lemma RebootRebuildsTheWindow(flash: Flash, r: Ring)
    requires Aligned(r) && Mirrors(flash, r)
    ensures var b := BootRing(flash);
            && Aligned(b) && Mirrors(flash, b) && BootFlash(flash) == flash
            && HeaderOf(b) == HeaderOf(r) && Window(b) == Window(r)
  {
    hide EncodeRingHeader, DecodeRingHeader, EncodeSlot, LoadSlot, SlotRegion, At, Keeps;
    var b := BootRing(flash);
    HeaderSurvivesIffInRange(HeaderOf(r));
    forall k | 0 <= k < r.count
      ensures Shown(b.slots[At(r.tail, k)]) == Shown(r.slots[At(r.tail, k)])
      ensures Keeps(SlotRegion(flash, At(r.tail, k)), b.slots[At(r.tail, k)])
    {
      KeptSlotIsLoaded(SlotRegion(flash, At(r.tail, k)), r.slots[At(r.tail, k)]);
    }
  }

  /** In particular a reboot rebuilds the same queue. */
  lemma RebootRebuildsTheQueue(flash: Flash, r: Ring)
    requires Ok(r) && Mirrors(flash, r)
    ensures var b := BootRing(flash);
            && Ok(b) && Mirrors(flash, b) && BootFlash(flash) == flash
            && HeaderOf(b) == HeaderOf(r) && Contents(b) == Contents(r)
  {
    hide BootRing, BootFlash, Mirrors, Window, Contents;
    RebootRebuildsTheWindow(flash, r);
    SoundIsFull(r);
    SoundIsFull(BootRing(flash));
    assert forall k :: 0 <= k < r.count ==> Window(r)[k] in Window(r);
  }

  lemma FreshFlashBootsEmpty(flash: Flash)
    requires StoredHeader(flash).None?
    ensures Ok(BootRing(flash)) && Contents(BootRing(flash)) == [] && Mirrors(BootFlash(flash), BootRing(flash))
  {
    WritesAreDisjoint(flash, 0, EMPTY_SLOT, EmptyRing(), 0);
  }

  /** The header check alone does not make a booted ring sound: here the indices disagree. */
  lemma InconsistentHeaderIsAccepted()
    ensures var h := RingHeader(0, 0, 5);
            DecodeRingHeader(EncodeRingHeader(h)) == Some(h)
            && forall flash: Flash :: flash[..RING_HEADER_SIZE] == EncodeRingHeader(h) ==> !Ok(BootRing(flash))
  {
    HeaderSurvivesIffInRange(RingHeader(0, 0, 5));
  }

  /** A booted ring is sound exactly when its header was rejected, or its indices agree and
      every slot of its window carries the valid mark. */
  lemma BootIsSoundIff(flash: Flash)
    ensures Ok(BootRing(flash)) <==>
            match StoredHeader(flash)
            case None => true
            case Some(h) =>
              h.head == At(h.tail, h.count) && forall k :: 0 <= k < h.count ==> SlotRegion(flash, At(h.tail, k))[0] == 1
  {}

  // ---- Writing ----

  function FlashInAdd(flash: Flash, r: Ring, f: StoredFrame): Flash
    requires InBounds(r)
  {
    WriteSlot(flash, r.head, Slot(true, f))
  }

  function FlashAfterAdd(flash: Flash, r: Ring, f: StoredFrame): Flash
    requires InBounds(r)
  {
    WriteHeader(FlashInAdd(flash, r, f), AddRing(r, f))
  }

  function FlashInPop(flash: Flash, r: Ring): Flash
    requires InBounds(r) && r.count > 0
  {
    WriteSlot(flash, r.tail, r.slots[r.tail].(valid := false))
  }

  function FlashAfterPop(flash: Flash, r: Ring): Flash
    requires InBounds(r) && r.count > 0
  {
    WriteHeader(FlashInPop(flash, r), PopRing(r))
  }

  lemma AddKeepsMirror(flash: Flash, r: Ring, f: StoredFrame)
    requires Aligned(r) && Mirrors(flash, r)
    ensures Mirrors(FlashAfterAdd(flash, r, f), AddRing(r, f))
  {
    hide WriteSlot, WriteHeader, SlotRegion, EncodeSlot, EncodeRingHeader, DecodeRingHeader, At, Keeps;
    var flash1, r' := FlashInAdd(flash, r, f), AddRing(r, f);
    EncodedSlotIsKept(Slot(true, f));
    var drop := if r.count == MAX_BUFFERED_MESSAGES then 1 else 0;
    WritesAreDisjoint(flash1, 0, EMPTY_SLOT, r', 0);
    forall k | 0 <= k < r'.count
      ensures Keeps(SlotRegion(FlashAfterAdd(flash, r, f), At(r'.tail, k)), r'.slots[At(r'.tail, k)])
    {
      var j := At(r'.tail, k);
      WritesAreDisjoint(flash1, 0, EMPTY_SLOT, r', j);
      WritesAreDisjoint(flash, r.head, Slot(true, f), r, j);
      if k < r'.count - 1 {
        assert j == At(r.tail, k + drop) != r.head;
      }
    }
  }

  lemma PopKeepsMirror(flash: Flash, r: Ring)
    requires Aligned(r) && r.count > 0 && Mirrors(flash, r)
    ensures Mirrors(FlashAfterPop(flash, r), PopRing(r))
  {
    hide WriteSlot, WriteHeader, SlotRegion, EncodeSlot, EncodeRingHeader, DecodeRingHeader, At, Keeps;
    var flash1, r' := FlashInPop(flash, r), PopRing(r);
    WritesAreDisjoint(flash1, 0, EMPTY_SLOT, r', 0);
    forall k | 0 <= k < r'.count
      ensures Keeps(SlotRegion(FlashAfterPop(flash, r), At(r'.tail, k)), r'.slots[At(r'.tail, k)])
    {
      var j := At(r'.tail, k);
      WritesAreDisjoint(flash1, 0, EMPTY_SLOT, r', j);
      WritesAreDisjoint(flash, r.tail, r.slots[r.tail].(valid := false), r, j);
      assert j == At(r.tail, k + 1) != r.tail;
    }
  }

  lemma ClearKeepsMirror(flash: Flash)
    ensures Ok(EmptyRing()) && Mirrors(WriteHeader(flash, EmptyRing()), EmptyRing())
  {
    WritesAreDisjoint(flash, 0, EMPTY_SLOT, EmptyRing(), 0);
  }

  // ---- Power cuts ----

  /** The ring flash holds between the two writes of an add: the new frame sits in its slot,
      but the header still describes the old window. */
  function MidAdd(r: Ring, f: StoredFrame): Ring
    requires InBounds(r)
  {
    r.(slots := r.slots[r.head := Slot(true, f)])
  }

  /** The ring flash holds between the two writes of a pop: the oldest slot has lost its mark, but
      the header still counts it. */
  function MidPop(r: Ring): Ring
    requires InBounds(r)
  {
    r.(slots := r.slots[r.tail := r.slots[r.tail].(valid := false)])
  }

  lemma OneSlotWritten(flash: Flash, r: Ring, i: nat, s: Slot)
    requires Aligned(r) && Mirrors(flash, r) && i < MAX_BUFFERED_MESSAGES
    ensures Mirrors(WriteSlot(flash, i, s), r.(slots := r.slots[i := s]))
  {
    hide WriteSlot, WriteHeader, SlotRegion, EncodeSlot, EncodeRingHeader, DecodeRingHeader, At, Keeps;
    var mid, flash' := r.(slots := r.slots[i := s]), WriteSlot(flash, i, s);
    EncodedSlotIsKept(s);
    WritesAreDisjoint(flash, i, s, r, 0);
    forall k | 0 <= k < r.count
      ensures Keeps(SlotRegion(flash', At(r.tail, k)), mid.slots[At(r.tail, k)])
    {
      WritesAreDisjoint(flash, i, s, r, At(r.tail, k));
    }
  }

  /** The window a power cut between the two writes of an add leaves. */
  function CutInAdd<T>(q: seq<T>, f: T): seq<T> {
    if |q| < MAX_BUFFERED_MESSAGES then q else [f] + q[1..]
  }

  /** The window a power cut between the two writes of a pop leaves. */
  function CutInPop(w: seq<Option<StoredFrame>>): seq<Option<StoredFrame>> { if w == [] then w else [None] + w[1..] }

  lemma MidAddWindow(r: Ring, f: StoredFrame)
    requires Aligned(r)
    ensures Aligned(MidAdd(r, f)) && Window(MidAdd(r, f)) == CutInAdd(Window(r), Some(f))
  {
    hide At;
    var w, mid := Window(r), Window(MidAdd(r, f));
    if |w| == MAX_BUFFERED_MESSAGES {
      assert r.head == r.tail && forall k :: 1 <= k < |w| ==> mid[k] == w[k];
    }
  }

  lemma MidPopWindow(r: Ring)
    requires Aligned(r) && r.count > 0
    ensures Aligned(MidPop(r)) && Window(MidPop(r)) == CutInPop(Window(r))
  {
    hide At;
    assert forall k :: 1 <= k < r.count ==> Window(MidPop(r))[k] == Window(r)[k];
  }

  /** Power lost between the two writes of an add, in any state of the ring. */
  lemma CutAddBoots(flash: Flash, r: Ring, f: StoredFrame)
    requires Aligned(r) && Mirrors(flash, r)
    ensures var cut := BootRing(FlashInAdd(flash, r, f));
            && Aligned(cut) && Mirrors(FlashInAdd(flash, r, f), cut) && Window(cut) == CutInAdd(Window(r), Some(f))
            && BootFlash(FlashInAdd(flash, r, f)) == FlashInAdd(flash, r, f)
  {
    hide BootRing, BootFlash, WriteSlot, Mirrors, Window;
    OneSlotWritten(flash, r, r.head, Slot(true, f));
    MidAddWindow(r, f);
    RebootRebuildsTheWindow(FlashInAdd(flash, r, f), MidAdd(r, f));
  }

  /** Power lost between the two writes of a pop, in any state of the ring. */
  lemma CutPopBoots(flash: Flash, r: Ring)
    requires Aligned(r) && r.count > 0 && Mirrors(flash, r)
    ensures var cut := BootRing(FlashInPop(flash, r));
            && Aligned(cut) && Mirrors(FlashInPop(flash, r), cut) && Window(cut) == CutInPop(Window(r))
            && BootFlash(FlashInPop(flash, r)) == FlashInPop(flash, r)
  {
    hide BootRing, BootFlash, WriteSlot, Mirrors, Window;
    OneSlotWritten(flash, r, r.tail, r.slots[r.tail].(valid := false));
    MidPopWindow(r);
    RebootRebuildsTheWindow(FlashInPop(flash, r), MidPop(r));
  }

  /** A power cut during an add loses at most what the add was doing: before the slot write and,
      unless the ring is full, before the header write the queue is the old one; after both it
      is the new one; between them a full ring comes back as the new frame ahead of the nine
      newest old ones. */
  lemma AddSurvivesPowerCuts(flash: Flash, r: Ring, f: StoredFrame)
    requires Ok(r) && Mirrors(flash, r)
    ensures Contents(BootRing(flash)) == Contents(r)
    ensures var cut := BootRing(FlashInAdd(flash, r, f));
            Ok(cut) && Mirrors(FlashInAdd(flash, r, f), cut) && Contents(cut) == CutInAdd(Contents(r), f)
    ensures Contents(BootRing(FlashAfterAdd(flash, r, f))) == PushBounded(Contents(r), f, MAX_BUFFERED_MESSAGES)
  {
    hide FlashAfterAdd, FlashInAdd, BootRing, BootFlash, AddRing, Contents, Window, Mirrors;
    var cut := BootRing(FlashInAdd(flash, r, f));
    RebootRebuildsTheQueue(flash, r);
    CutAddBoots(flash, r, f);
    SoundIsFull(r);
    SoundIsFull(cut);
    CutStaysFull(Window(r), f);
    assert forall k :: 0 <= k < cut.count ==> Contents(cut)[k] == Window(cut)[k].value;
    AddIsPushBounded(r, f);
    AddKeepsMirror(flash, r, f);
    RebootRebuildsTheQueue(FlashAfterAdd(flash, r, f), AddRing(r, f));
  }

  lemma CutStaysFull(w: seq<Option<StoredFrame>>, f: StoredFrame)
    requires None !in w
    ensures None !in CutInAdd(w, Some(f))
  {}

  /** A ring whose oldest slot alone is invalid. */
  ghost predicate Blocked(r: Ring) {
    && Aligned(r) && r.count > 0 && !r.slots[r.tail].valid
    && forall k :: 1 <= k < r.count ==> r.slots[At(r.tail, k)].valid
  }

  /** The frames queued behind the invalid one. */
  function Behind(r: Ring): (q: seq<StoredFrame>)
    requires InBounds(r) && r.count > 0
    ensures |q| == r.count - 1
  {
    seq(r.count - 1, k requires 0 <= k < r.count - 1 => r.slots[At(r.tail, k + 1)].data)
  }

  function Held(q: seq<StoredFrame>): (w: seq<Option<StoredFrame>>)
    ensures |w| == |q|
    ensures forall k :: 0 <= k < |q| ==> w[k] == Some(q[k])
  {
    seq(|q|, k requires 0 <= k < |q| => Some(q[k]))
  }

  lemma BlockedWindow(r: Ring)
    requires Aligned(r) && r.count > 0
    ensures Blocked(r) <==> Window(r) == [None] + Held(Behind(r))
  {
    hide At;
    var w := Window(r);
    assert w[0] == Shown(r.slots[At(r.tail, 0)]);
    assert forall k :: 1 <= k < r.count ==> w[k] == Shown(r.slots[At(r.tail, k)]);
    if w == [None] + Held(Behind(r)) {
      assert forall k :: 1 <= k < r.count ==> w[k] == Held(Behind(r))[k - 1];
    }
  }

  lemma BlockedBy(r: Ring, q: seq<StoredFrame>)
    requires Aligned(r) && Window(r) == [None] + Held(q)
    ensures Blocked(r) && PeekRing(r) == Broken && Behind(r) == q
  {
    hide At, Blocked, PeekRing, Window;
    PeekShowsTheOldest(r);
    WindowBehind(r);
    forall k | 0 <= k < |q|
      ensures Behind(r)[k] == q[k]
    {
      assert Window(r)[k + 1] == Held(q)[k];
    }
    assert Behind(r) == q;
    BlockedWindow(r);
  }

  lemma WindowBehind(r: Ring)
    requires InBounds(r) && r.count > 0
    ensures forall k :: 0 <= k < r.count - 1 ==> Window(r)[k + 1].None? || Window(r)[k + 1] == Some(Behind(r)[k])
  {
    hide At;
  }

  lemma HeldBy(r: Ring, q: seq<StoredFrame>)
    requires Aligned(r) && Window(r) == Held(q)
    ensures Ok(r) && Contents(r) == q
  {
    hide Window, Contents;
    SoundIsFull(r);
    assert forall k :: 0 <= k < |q| ==> Contents(r)[k] == q[k];
  }

  /** A power cut between the two writes of a pop blocks the queue: the header still counts the
      popped slot, so peeking fails, with the other frames intact behind it. */
  lemma PowerCutInPopBlocksTheQueue(flash: Flash, r: Ring)
    requires Ok(r) && r.count > 0 && Mirrors(flash, r)
    ensures var cut := BootRing(FlashInPop(flash, r));
            Blocked(cut) && PeekRing(cut) == Broken && Behind(cut) == Contents(r)[1..]
  {
    hide BootRing, FlashInPop, Mirrors, Window, Contents;
    CutPopBoots(flash, r);
    SoundIsFull(r);
    assert forall k :: 0 <= k < r.count ==> Window(r)[k] in Window(r);
    forall k | 1 <= k < r.count
      ensures Window(r)[k] == Some(Contents(r)[k])
    {
      assert Window(r)[k] != None;
    }
    assert Window(r)[1..] == Held(Contents(r)[1..]);
    BlockedBy(BootRing(FlashInPop(flash, r)), Contents(r)[1..]);
  }

  function AddAll(r: Ring, fs: seq<StoredFrame>): (r': Ring)
    requires InBounds(r)
    ensures InBounds(r')
    decreases |fs|
  {
    if fs == [] then r else AddAll(AddRing(r, fs[0]), fs[1..])
  }

  /** A blocked queue stays blocked until it has filled up, and the very next add frees it with
      nothing but the popped frame gone. */
  lemma {:induction false} BlockedUntilOverfull(r: Ring, fs: seq<StoredFrame>)
    requires Blocked(r) && |fs| <= MAX_BUFFERED_MESSAGES - r.count + 1
    ensures var r' := AddAll(r, fs);
            if |fs| <= MAX_BUFFERED_MESSAGES - r.count
            then Blocked(r') && PeekRing(r') == Broken && Behind(r') == Behind(r) + fs
            else Ok(r') && Contents(r') == Behind(r) + fs
    decreases |fs|
  {
    hide AddRing, Window, Behind, Contents;
    BlockedWindow(r);
    if fs == [] {
      BlockedBy(r, Behind(r));
      assert Behind(r) + fs == Behind(r);
    } else {
      var b, next := Behind(r), AddRing(r, fs[0]);
      AddPushes(r, fs[0]);
      assert Held(b + [fs[0]]) == Held(b) + [Some(fs[0])];
      assert b + [fs[0]] + fs[1..] == b + fs;
      if r.count == MAX_BUFFERED_MESSAGES {
        HeldBy(next, b + [fs[0]]);
      } else {
        BlockedBy(next, b + [fs[0]]);
        BlockedUntilOverfull(next, fs[1..]);
      }
    }
  }

  // ---- Runs ----

  /** `Reboot` loses RAM only; `CutAdd` and `CutPop` lose power between the two writes of an add or
      of a pop. */
  datatype Op = Add(frame: StoredFrame) | Pop | Clear | Reboot | CutAdd(lost: StoredFrame) | CutPop

  function StepRing(r: Ring, flash: Flash, op: Op): (s: (Ring, Flash))
    requires InBounds(r)
    ensures InBounds(s.0)
  {
    match op
    case Add(f) => (AddRing(r, f), FlashAfterAdd(flash, r, f))
    case Pop => if r.count == 0 then (r, flash) else (PopRing(r), FlashAfterPop(flash, r))
    case Clear => (EmptyRing(), WriteHeader(flash, EmptyRing()))
    case Reboot => (BootRing(flash), BootFlash(flash))
    case CutAdd(f) => (BootRing(FlashInAdd(flash, r, f)), BootFlash(FlashInAdd(flash, r, f)))
    case CutPop =>
      var cut := if r.count == 0 then flash else FlashInPop(flash, r);
      (BootRing(cut), BootFlash(cut))
  }

  function RunRing(r: Ring, flash: Flash, ops: seq<Op>): (end: (Ring, Flash))
    requires InBounds(r)
    ensures InBounds(end.0)
    decreases |ops|
  {
    if ops == [] then (r, flash)
    else
      var s := StepRing(r, flash, ops[0]);
      RunRing(s.0, s.1, ops[1..])
  }

  /** The queue by itself: bounded, dropping the oldest, untouched by reboots. A missing frame is
      one that a pop had already invalidated when the power went. */
  function StepQueue(q: seq<Option<StoredFrame>>, op: Op): seq<Option<StoredFrame>> {
    match op
    case Add(f) => PushBounded(q, Some(f), MAX_BUFFERED_MESSAGES)
    case Pop => if q == [] then [] else q[1..]
    case Clear => []
    case Reboot => q
    case CutAdd(f) => CutInAdd(q, Some(f))
    case CutPop => CutInPop(q)
  }

  function RunQueue(q: seq<Option<StoredFrame>>, ops: seq<Op>): seq<Option<StoredFrame>>
    decreases |ops|
  {
    if ops == [] then q else RunQueue(StepQueue(q, ops[0]), ops[1..])
  }

  lemma StepRefines(r: Ring, flash: Flash, op: Op)
    requires Aligned(r) && Mirrors(flash, r)
    ensures var (r', flash') := StepRing(r, flash, op);
            Aligned(r') && Mirrors(flash', r') && Window(r') == StepQueue(Window(r), op)
  {
    hide FlashAfterAdd, FlashAfterPop, FlashInAdd, FlashInPop, WriteHeader, BootRing, BootFlash, AddRing, PopRing,
      Window, Mirrors;
    match op
    case Add(f) =>
      AddPushes(r, f);
      AddKeepsMirror(flash, r, f);
    case Pop =>
      if r.count > 0 {
        PopDropsTheOldest(r);
        PopKeepsMirror(flash, r);
      }
    case Clear => ClearKeepsMirror(flash);
    case Reboot => RebootRebuildsTheWindow(flash, r);
    case CutAdd(f) => CutAddBoots(flash, r, f);
    case CutPop =>
      if r.count > 0 {
        CutPopBoots(flash, r);
      } else {
        RebootRebuildsTheWindow(flash, r);
      }
  }

  /** From any state in which flash agrees with the ring, the two go on agreeing, and the ring goes
      on being the queue, over every run. */
  lemma {:induction false} RunRefines(r: Ring, flash: Flash, ops: seq<Op>)
    requires Aligned(r) && Mirrors(flash, r)
    ensures var (r', flash') := RunRing(r, flash, ops);
            && Aligned(r') && Mirrors(flash', r') && Window(r') == RunQueue(Window(r), ops)
            && Window(BootRing(flash')) == Window(r')
    decreases |ops|
  {
    hide BootRing, Window, Mirrors, StepRing, StepQueue;
    if ops == [] {
      RebootRebuildsTheWindow(flash, r);
    } else {
      StepRefines(r, flash, ops[0]);
      var (r1, flash1) := StepRing(r, flash, ops[0]);
      RunRefines(r1, flash1, ops[1..]);
    }
  }

  /** Only the oldest frame can be missing. */
  ghost predicate OnlyTheOldestIsMissing(q: seq<Option<StoredFrame>>) { forall k :: 1 <= k < |q| ==> q[k].Some? }

  lemma {:induction false} OnlyTheOldestIsEverMissing(q: seq<Option<StoredFrame>>, ops: seq<Op>)
    requires OnlyTheOldestIsMissing(q)
    ensures OnlyTheOldestIsMissing(RunQueue(q, ops))
    ensures None !in q && CutPop !in ops ==> None !in RunQueue(q, ops)
    decreases |ops|
  {
    if ops != [] {
      OnlyTheOldestIsEverMissing(StepQueue(q, ops[0]), ops[1..]);
    }
  }

  /** From first use on, over every run of adds, pops, clears, reboots and power cuts in adds and in
      pops, the ring is the bounded drop-oldest queue; flash always holds that same queue; peeking
      shows its front; only its front can be missing, and only after a power cut in a pop. */
  lemma TheRingIsABoundedQueue(flash: Flash, ops: seq<Op>)
    requires StoredHeader(flash).None?
    ensures var (r, flash') := RunRing(BootRing(flash), BootFlash(flash), ops);
            && Window(r) == RunQueue([], ops) && Window(BootRing(flash')) == RunQueue([], ops)
            && PeekRing(r) == PeekOf(RunQueue([], ops))
            && (Ok(r) || Blocked(r)) && (CutPop !in ops ==> Ok(r))
  {
    hide BootRing, BootFlash, Window, Mirrors, RunRing, RunQueue, Contents;
    FreshFlashBootsEmpty(flash);
    assert Window(BootRing(flash)) == [];
    RunRefines(BootRing(flash), BootFlash(flash), ops);
    var r := RunRing(BootRing(flash), BootFlash(flash), ops).0;
    OnlyTheOldestIsEverMissing([], ops);
    PeekShowsTheOldest(r);
    SoundIsFull(r);
    if None in Window(r) {
      BlockedWhenTheOldestIsMissing(r);
    }
  }

  lemma BlockedWhenTheOldestIsMissing(r: Ring)
    requires Aligned(r) && OnlyTheOldestIsMissing(Window(r)) && None in Window(r)
    ensures Blocked(r)
  {
    hide At;
    var w := Window(r);
    assert w[0] == Shown(r.slots[At(r.tail, 0)]);
    assert forall k :: 1 <= k < r.count ==> w[k] == Shown(r.slots[At(r.tail, k)]);
  }
}
