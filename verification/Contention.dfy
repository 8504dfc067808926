/** Rebroadcast contention delay, over the reals. */
module Contention {
  import opened Bytes
  import opened Arith
  import opened DutyCycle

  const CW_MIN: real := 3.0
  const CW_MAX: real := 8.0
  const SNR_MIN_DBM: real := -20.0
  const SNR_MAX_DBM: real := 10.0
  const NUM_SYM_CAD: real := 2.0
  const SLOT_TIME_FIXED_MS: real := 0.2 + 0.4 + 7.0

  function MapRange(x: real, inMin: real, inMax: real, outMin: real, outMax: real): real
    requires inMin != inMax
  {
    var mapped := (x - inMin) * (outMax - outMin) / (inMax - inMin) + outMin;
    RMin(RMax(mapped, RMin(outMin, outMax)), RMax(outMin, outMax))
  }

  function SlotTimeMs(sf: u8, bandwidthHz: u32): real
    requires bandwidthHz > 0
  {
    var symbolMs := Pow2(sf) as real / (bandwidthHz as real / 1000.0);
    RMax(2.25, NUM_SYM_CAD + 0.5) * symbolMs + SLOT_TIME_FIXED_MS
  }

  function CwSizeFromSnr(snr: i8): (cw: nat)
    ensures 3 <= cw <= 8
  {
    MapRange(snr as real, SNR_MIN_DBM, SNR_MAX_DBM, CW_MIN, CW_MAX).Floor
  }

  lemma ScalingIsMonotone(x: real, y: real)
    requires x <= y
    ensures MapRange(x, SNR_MIN_DBM, SNR_MAX_DBM, CW_MIN, CW_MAX)
            <= MapRange(y, SNR_MIN_DBM, SNR_MAX_DBM, CW_MIN, CW_MAX)
  {
    assert (x - SNR_MIN_DBM) * 5.0 / 30.0 <= (y - SNR_MIN_DBM) * 5.0 / 30.0;
  }

  /** A weaker signal never draws from a larger window, so the farthest nodes relay first. */
  lemma WeakerSignalsDrawFromSmallerWindows(weak: i8, strong: i8)
    requires weak <= strong
    ensures CwSizeFromSnr(weak) <= CwSizeFromSnr(strong)
  {
    ScalingIsMonotone(weak as real, strong as real);
  }

  function RandomBelow(raw: u32, bound: nat): (r: nat)
    ensures bound > 0 ==> r < bound
  {
    if bound == 0 then 0 else raw % bound
  }

  /** `n` slots. */
  function Slots(n: nat, slot: real): real { Mul(n as real, slot) }

  function Mul(x: real, y: real): real { x * y }

  function RebroadcastDelay(snr: i8, isRouter: bool, sf: u8, bandwidthHz: u32, raw: u32): real
    requires bandwidthHz > 0
  {
    var slot := SlotTimeMs(sf, bandwidthHz);
    var cw := CwSizeFromSnr(snr);
    if isRouter then Slots(RandomBelow(raw, 2 * cw), slot)
    else 2.0 * CW_MAX * slot + Slots(RandomBelow(raw, Pow2(cw)), slot)
  }

  /** Truncated to whole milliseconds; negative never arises. */
  function RebroadcastDelayMs(snr: i8, isRouter: bool, sf: u8, bandwidthHz: u32, raw: u32): int
    requires bandwidthHz > 0
  {
    RebroadcastDelay(snr, isRouter, sf, bandwidthHz, raw).Floor
  }

  lemma SlotIsLongerThanAMillisecond(sf: u8, bandwidthHz: u32)
    requires bandwidthHz > 0
    ensures SlotTimeMs(sf, bandwidthHz) > 1.0
  {
    var khz := bandwidthHz as real / 1000.0;
    assert khz > 0.0;
    assert Pow2(sf) as real / khz > 0.0;
  }

  lemma RouterDrawsUnder16(snr: i8, raw: u32)
    ensures RandomBelow(raw, 2 * CwSizeFromSnr(snr)) <= 15
  {}

  lemma RouterDelayAtMost(snr: i8, sf: u8, bandwidthHz: u32, raw: u32)
    requires bandwidthHz > 0
    ensures 0.0 <= RebroadcastDelay(snr, true, sf, bandwidthHz, raw) <= 15.0 * SlotTimeMs(sf, bandwidthHz)
  {
    hide SlotTimeMs, CwSizeFromSnr, Slots;
    var slot := SlotTimeMs(sf, bandwidthHz);
    SlotIsLongerThanAMillisecond(sf, bandwidthHz);
    RouterDrawsUnder16(snr, raw);
    Scaled(RandomBelow(raw, 2 * CwSizeFromSnr(snr)), slot);
  }

  lemma OtherDelayAtLeast(snr: i8, sf: u8, bandwidthHz: u32, raw: u32)
    requires bandwidthHz > 0
    ensures RebroadcastDelay(snr, false, sf, bandwidthHz, raw) >= 16.0 * SlotTimeMs(sf, bandwidthHz)
  {
    hide SlotTimeMs, CwSizeFromSnr, Slots;
    var slot := SlotTimeMs(sf, bandwidthHz);
    SlotIsLongerThanAMillisecond(sf, bandwidthHz);
    Scaled(RandomBelow(raw, Pow2(CwSizeFromSnr(snr))), slot);
  }

  lemma Product(x: real, slot: real)
    requires 1.0 < slot && 0.0 <= x
    ensures 0.0 <= Mul(x, slot) && (x <= 15.0 ==> Mul(x, slot) <= 15.0 * slot)
  {
    Positive(x, slot);
    if x <= 15.0 {
      TimesMonotone(x, 15.0, slot);
    }
  }

  lemma Scaled(n: nat, slot: real)
    requires 1.0 < slot
    ensures 0.0 <= Slots(n, slot) && (n <= 15 ==> Slots(n, slot) <= 15.0 * slot)
  {
    hide Mul;
    Product(n as real, slot);
  }

  lemma FloorsApart(slot: real, router: real, other: real)
    requires 1.0 < slot && 0.0 <= router <= 15.0 * slot && 16.0 * slot <= other
    ensures 0 <= router.Floor < other.Floor
  {
    assert router + 1.0 < other;
  }

  /** Whatever SNR each measured and whatever number each drew, a ROUTER's delay ends strictly
      before any other role's, by at least a millisecond. */
  lemma RouterAlwaysRelaysFirst(routerSnr: i8, otherSnr: i8, routerRaw: u32, otherRaw: u32, sf: u8, bandwidthHz: u32)
    requires bandwidthHz > 0
    ensures 0 <= RebroadcastDelayMs(routerSnr, true, sf, bandwidthHz, routerRaw)
              < RebroadcastDelayMs(otherSnr, false, sf, bandwidthHz, otherRaw)
  {
    SlotIsLongerThanAMillisecond(sf, bandwidthHz);
    RouterDelayAtMost(routerSnr, sf, bandwidthHz, routerRaw);
    OtherDelayAtLeast(otherSnr, sf, bandwidthHz, otherRaw);
    FloorsApart(SlotTimeMs(sf, bandwidthHz),
                RebroadcastDelay(routerSnr, true, sf, bandwidthHz, routerRaw),
                RebroadcastDelay(otherSnr, false, sf, bandwidthHz, otherRaw));
  }
}
