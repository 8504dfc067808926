/** The storage adapter: the message ring kept in RAM and written through to flash. */
module NvsStorage {
  import opened Bytes
  import opened Rings
  import opened MessageRing

  /** `flash` is the sector of the message ring. A write replaces the bytes it covers, and a
      failed one is only logged, so each method is told which of its writes succeed. */
  class GenericNvsStorage {
    var head: nat
    var tail: nat
    var count: nat
    const slots: array<Slot>
    const flash: array<u8>
    var dirty: bool

    ghost predicate Valid()
      reads this, slots
    {
      slots.Length == MAX_BUFFERED_MESSAGES && flash.Length == SECTOR_SIZE && InBounds(View())
    }

    function View(): Ring
      reads this, slots
    {
      Ring(head, tail, count, slots[..])
    }

    constructor (flash: array<u8>)
      requires flash.Length == SECTOR_SIZE
      modifies flash
      ensures this.flash == flash && fresh(slots) && Valid()
      ensures View() == BootRing(old(flash[..])) && flash[..] == BootFlash(old(flash[..]))
    {
      this.flash := flash;
      head, tail, count, dirty := 0, 0, 0, false;
      slots := new Slot[MAX_BUFFERED_MESSAGES](_ => EMPTY_SLOT);
      new;
      assert slots[..] == EmptyRing().slots;
      LoadOrInit();
    }

    method LoadOrInit()
      requires Valid() && View() == EmptyRing()
      modifies this, slots, flash
      ensures Valid() && View() == BootRing(old(flash[..])) && flash[..] == BootFlash(old(flash[..]))
    {
      assert flash[..RING_HEADER_SIZE] == flash[..][..RING_HEADER_SIZE];
      var header := DecodeRingHeader(flash[..RING_HEADER_SIZE]);
      if header.None? {
        InitEmpty();
      } else {
        head, tail, count := header.value.head, header.value.tail, header.value.count;
        LoadSlots();
        assert View() == LoadedRing(flash[..], header.value, EmptyRing().slots);
      }
    }

    method InitEmpty()
      requires Valid()
      modifies this, slots, flash
      ensures Valid() && View() == EmptyRing() && flash[..] == WriteHeader(old(flash[..]), EmptyRing())
    {
      ResetSlots();
      dirty := true;
      PersistHeader(true);
    }

    method ResetSlots()
      requires Valid()
      modifies this, slots
      ensures Valid() && View() == EmptyRing()
    {
      head, tail, count := 0, 0, 0;
      forall i | 0 <= i < slots.Length {
        slots[i] := EMPTY_SLOT;
      }
      assert slots[..] == EmptyRing().slots;
    }

    /** Read every slot back; one without the valid mark keeps its cached bytes. */
    method LoadSlots()
      requires Valid()
      modifies slots
      ensures Valid() && |old(slots[..])| == MAX_BUFFERED_MESSAGES
      ensures slots[..] == LoadedRing(flash[..], RingHeader(0, 0, 0), old(slots[..])).slots
    {
      ghost var was := slots[..];
      for i := 0 to MAX_BUFFERED_MESSAGES
        invariant forall k :: 0 <= k < i ==> slots[k] == LoadSlot(SlotRegion(flash[..], k), was[k])
        invariant forall k :: i <= k < MAX_BUFFERED_MESSAGES ==> slots[k] == was[k]
      {
        var buf := flash[SlotOffset(i)..SlotOffset(i) + SLOT_FLASH_SIZE];
        assert buf == SlotRegion(flash[..], i);
        if buf[0] == 1 {
          slots[i] := Slot(true, buf[2..2 + buf[1]]);
        } else {
          slots[i] := slots[i].(valid := false);
        }
      }
    }

    method PersistSlot(i: nat, written: bool)
      requires Valid() && i < MAX_BUFFERED_MESSAGES
      modifies flash
      ensures flash[..] == if written then WriteSlot(old(flash[..]), i, slots[i]) else old(flash[..])
    {
      var buf := new u8[SLOT_FLASH_SIZE](_ => 0);
      var slot := slots[i];
      buf[0] := if slot.valid then 1 else 0;
      buf[1] := |slot.data|;
      if slot.valid && |slot.data| > 0 {
        CopyInto(buf, 2, slot.data);
      }
      assert buf[..] == EncodeSlot(slot);
      if written {
        CopyInto(flash, SlotOffset(i), buf[..]);
      }
    }

    method PersistHeader(written: bool)
      requires Valid()
      modifies flash, `dirty
      ensures flash[..] == if written then WriteHeader(old(flash[..]), View()) else old(flash[..])
      ensures !dirty
    {
      if written {
        CopyInto(flash, 0, EncodeRingHeader(RingHeader(head, tail, count)));
      }
      dirty := false;
    }

    method AddFrame(frame: StoredFrame, slotWritten: bool, headerWritten: bool)
      requires Valid()
      modifies this, slots, flash
      ensures Valid() && View() == AddRing(old(View()), frame)
      ensures var mid := if slotWritten then FlashInAdd(old(flash[..]), old(View()), frame) else old(flash[..]);
              flash[..] == if headerWritten then WriteHeader(mid, View()) else mid
    {
      if count >= MAX_BUFFERED_MESSAGES {
        tail := (tail + 1) % MAX_BUFFERED_MESSAGES;
        count := count - 1;
      }
      var i := head;
      ghost var was := slots[..];
      slots[i] := Slot(true, frame);
      assert slots[..] == was[i := Slot(true, frame)];
      head := (i + 1) % MAX_BUFFERED_MESSAGES;
      count := count + 1;
      dirty := true;
      PersistSlot(i, slotWritten);
      PersistHeader(headerWritten);
    }

    method Peek() returns (r: PeekResult)
      requires Valid()
      ensures r == PeekRing(View())
    {
      if count == 0 {
        return Nothing;
      }
      var slot := slots[tail];
      r := if slot.valid then Front(slot.data) else Broken;
    }

    /** False when there was nothing to pop. */
    method PopFrame(slotWritten: bool, headerWritten: bool) returns (ok: bool)
      requires Valid()
      modifies this, slots, flash
      ensures Valid() && ok == (old(count) > 0)
      ensures !ok ==> View() == old(View()) && flash[..] == old(flash[..])
      ensures ok ==> View() == PopRing(old(View())) && count == old(count) - 1
      ensures ok ==> var mid := if slotWritten then FlashInPop(old(flash[..]), old(View())) else old(flash[..]);
                     flash[..] == if headerWritten then WriteHeader(mid, View()) else mid
    {
      if count == 0 {
        return false;
      }
      var i := tail;
      ghost var was := slots[..];
      slots[i] := slots[i].(valid := false);
      assert slots[..] == was[i := was[i].(valid := false)];
      tail := (i + 1) % MAX_BUFFERED_MESSAGES;
      count := count - 1;
      dirty := true;
      PersistSlot(i, slotWritten);
      PersistHeader(headerWritten);
      return true;
    }

    method ClearAll(headerWritten: bool)
      requires Valid()
      modifies this, slots, flash
      ensures Valid() && View() == EmptyRing()
      ensures flash[..] == if headerWritten then WriteHeader(old(flash[..]), EmptyRing()) else old(flash[..])
    {
      ResetSlots();
      dirty := true;
      PersistHeader(headerWritten);
    }

    /** Hand the stored frames to the phone, oldest first, until peeking shows no more; `outcomes` is
        what becomes of the writes of each pop. A sound queue comes out whole and in order and leaves
        nothing; one blocked by an interrupted pop yields nothing and stays. */
    method ReplayStoredFrames(outcomes: seq<WriteOutcome>) returns (frames: seq<StoredFrame>)
      requires Valid() && Aligned(View())
      modifies this, slots, flash
      ensures Valid() && Aligned(View())
      ensures frames == Leading(old(Window(View()))) && Window(View()) == old(Window(View()))[|frames|..]
      ensures old(Mirrors(flash[..], View())) && AllReachFlash(outcomes) ==> Mirrors(flash[..], View())
      ensures Ok(old(View())) ==> frames == Contents(old(View())) && View().count == 0
      ensures Blocked(old(View())) ==> frames == [] && Blocked(View()) && Behind(View()) == Behind(old(View()))
    {
      hide PopRing, FlashInPop, WriteHeader, WriteSlot, Window, Mirrors, Aligned, Leading;
      frames := [];
      ghost var start, startFlash := View(), flash[..];
      var i := 0;
      var next := Peek();
      assert Window(start)[0..] == Window(start);
      while next.Front?
        invariant Valid() && Aligned(View()) && next == PeekRing(View())
        invariant |frames| <= |Window(start)| && Window(View()) == Window(start)[|frames|..]
        invariant forall k :: 0 <= k < |frames| ==> Window(start)[k] == Some(frames[k])
        invariant Mirrors(startFlash, start) && AllReachFlash(outcomes) ==> Mirrors(flash[..], View())
        decreases count
      {
        ghost var before, beforeFlash := View(), flash[..];
        PeekShowsTheOldest(before);
        var written := if i < |outcomes| then outcomes[i] else WriteOutcome(true, true);
        var ok := PopFrame(written.slot, written.header);
        PopDropsTheOldest(before);
        if Mirrors(beforeFlash, before) {
          PopKeepsMirror(beforeFlash, before);
        }
        frames, i := frames + [next.frame], i + 1;
        next := Peek();
      }
      PeekShowsTheOldest(View());
      LeadingIs(Window(start), frames);
      ReplayOfSound(start, frames);
      ReplayOfBlocked(start, View(), frames);
    }
  }

  /** Every write reaches flash. */
  predicate AllReachFlash(outcomes: seq<WriteOutcome>) { forall o :: o in outcomes ==> o.slot && o.header }

  lemma {:induction false} LeadingIs<T>(w: seq<Option<T>>, r: seq<T>)
    requires |r| <= |w| && forall k :: 0 <= k < |r| ==> w[k] == Some(r[k])
    requires |r| < |w| ==> w[|r|].None?
    ensures Leading(w) == r
  {
    if r != [] {
      assert w[0] == Some(r[0]);
      LeadingIs(w[1..], r[1..]);
    }
  }

  lemma {:induction false} LeadingOfFull<T>(w: seq<Option<T>>)
    requires None !in w
    ensures |Leading(w)| == |w|
  {
    if w != [] {
      LeadingOfFull(w[1..]);
    }
  }

  lemma ReplayOfSound(r: Ring, frames: seq<StoredFrame>)
    requires Aligned(r) && frames == Leading(Window(r))
    ensures Ok(r) ==> frames == Contents(r) && |frames| == r.count
  {
    hide Window, Contents, Leading;
    if Ok(r) {
      SoundIsFull(r);
      LeadingOfFull(Window(r));
      assert forall k :: 0 <= k < |frames| ==> frames[k] == Contents(r)[k];
    }
  }

  lemma ReplayOfBlocked(r: Ring, end: Ring, frames: seq<StoredFrame>)
    requires Aligned(r) && Aligned(end) && frames == Leading(Window(r)) && Window(end) == Window(r)[|frames|..]
    ensures Blocked(r) ==> frames == [] && Blocked(end) && Behind(end) == Behind(r)
  {
    hide Window, Behind, Blocked;
    if Blocked(r) {
      BlockedIsNotEmpty(r);
      BlockedWindow(r);
      assert Window(r)[0] == None;
      BlockedBy(end, Behind(r));
    }
  }

  lemma BlockedIsNotEmpty(r: Ring)
    requires Blocked(r)
    ensures r.count > 0
  {}
}
