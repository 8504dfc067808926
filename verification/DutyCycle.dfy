/** The radio's receive duty cycle: when it sleeps, and exactly when preambles slip through. */
module DutyCycle {
  import opened Bytes
  import opened Arith
  import opened RadioConfig

  const RX_DUTY_CYCLE_MIN_SYMBOLS: u32 := 8
  const SX1262_TIMER_TICK_US: u32 := 15625
  const SX1262_TIMER_TICK_US_DIV: u32 := 1000
  const MIN_WORTHWHILE_SLEEP_US: u32 := 1016
  const U32: int := 0x1_0000_0000

  datatype DutyCycleParams = DutyCycleParams(rxTime: u32, sleepTime: u32)

  function Wrap(x: nat): u32 { x % U32 }

  function UsToTicks(us: u32): u32 { Wrap(us * SX1262_TIMER_TICK_US_DIV) / SX1262_TIMER_TICK_US }

  function Pow2(n: nat): (p: nat)
    ensures p >= 1
  {
    if n == 0 then 1 else 2 * Pow2(n - 1)
  }

  function TenKHz(bandwidthHz: u32): (d: u32)
    requires bandwidthHz >= 1000
    ensures d == 10 * (bandwidthHz / 1000) >= 10
  {
    Wrap(10 * (bandwidthHz / 1000))
  }

  function SymbolLengthUs(sf: u8, bandwidthHz: u32): u32
    requires bandwidthHz >= 1000
  {
    Quotient(Wrap(10_000 * Pow2(Min(sf, 31))), TenKHz(bandwidthHz))
  }

  function SleepPeriodUs(symbolUs: u32, preamble: u16): u32
    requires 2 * RX_DUTY_CYCLE_MIN_SYMBOLS <= preamble
  {
    Wrap(symbolUs * (preamble - 2 * RX_DUTY_CYCLE_MIN_SYMBOLS))
  }

  function WakePeriodUs(symbolUs: u32, preamble: u16): u32
    requires 2 * RX_DUTY_CYCLE_MIN_SYMBOLS <= preamble
  {
    var a: u32 := SatSub(Wrap(symbolUs * (preamble + 1)), SatSub(SleepPeriodUs(symbolUs, preamble), 1000)) / 2;
    var b: u32 := Wrap(symbolUs * (RX_DUTY_CYCLE_MIN_SYMBOLS + 1));
    Max(a, b)
  }

  /** The timings for a given symbol length, and none when there is too little to gain. */
  function Timings(preamble: u16, symbolUs: u32): Option<DutyCycleParams> {
    if 2 * RX_DUTY_CYCLE_MIN_SYMBOLS > preamble then
      None
    else
      var sleepUs := SleepPeriodUs(symbolUs, preamble);
      if sleepUs < MIN_WORTHWHILE_SLEEP_US then
        None
      else
        Some(DutyCycleParams(UsToTicks(WakePeriodUs(symbolUs, preamble)), UsToTicks(sleepUs)))
  }

  function RxDutyCycleParams(preamble: u16, sf: u8, bandwidthHz: u32): Option<DutyCycleParams> {
    if 2 * RX_DUTY_CYCLE_MIN_SYMBOLS > preamble || bandwidthHz / 1000 == 0 then
      None
    else
      Timings(preamble, SymbolLengthUs(sf, bandwidthHz))
  }

  /** No intermediate product of the computation reaches 2^32. */
  predicate ProductsFit(preamble: u16, symbolUs: u32) {
    && 2 * RX_DUTY_CYCLE_MIN_SYMBOLS <= preamble
    && symbolUs * (preamble + 1) < U32
    && symbolUs * (preamble - 2 * RX_DUTY_CYCLE_MIN_SYMBOLS) * SX1262_TIMER_TICK_US_DIV < U32
    && WakePeriodUs(symbolUs, preamble) * SX1262_TIMER_TICK_US_DIV < U32
  }

  // ---- Wake windows on the time line, in microseconds ----

  const TICK: real := 15.625

  function CycleLength(p: DutyCycleParams): real { (p.rxTime + p.sleepTime) as real * TICK }

  function WindowStart(p: DutyCycleParams, k: nat): real { k as real * CycleLength(p) }

  function WindowEnd(p: DutyCycleParams, k: nat): real { WindowStart(p, k) + p.rxTime as real * TICK }

  function RMin(a: real, b: real): real { if a < b then a else b }

  function RMax(a: real, b: real): real { if a < b then b else a }

  /** How long wake window `k` hears a preamble on the air from `start` to `stop`. */
  function Heard(p: DutyCycleParams, k: nat, start: real, stop: real): real {
    RMin(stop, WindowEnd(p, k)) - RMax(start, WindowStart(p, k))
  }

  /** Window `k` hears at least the radio's minimum of eight symbols of a preamble of `symbols`
      symbols of `l` microseconds each that begins at `start`. */
  predicate CatchesPreamble(p: DutyCycleParams, k: nat, start: real, l: real, symbols: nat) {
    Heard(p, k, start, start + symbols as real * l) >= 8.0 * l
  }

  ghost predicate Caught(p: DutyCycleParams, start: real, l: real, symbols: nat) {
    exists k: nat :: CatchesPreamble(p, k, start, l, symbols)
  }

  /** No preamble is missed, whenever it starts. */
  ghost predicate NeverMisses(p: DutyCycleParams, l: real, symbols: nat) {
    forall start: real :: start >= 0.0 ==> Caught(p, start, l, symbols)
  }

  /** How long a symbol lasts on the air, in microseconds, at the bandwidth the radio is set to. */
  function OnAirSymbolUs(sf: u8, bandwidthHz: u32): real {
    Pow2(sf) as real * 1_000_000.0 / MapBandwidth(bandwidthHz) as real
  }

  lemma Pow2Range(n: nat)
    requires 5 <= n <= 12
    ensures 32 <= Pow2(n) <= 4096
  {
    assert Pow2(5) == 32 by { assert Pow2(3) == 8; }
    assert Pow2(7) == 128 && Pow2(9) == 512 && Pow2(11) == 2048;
  }

  lemma TickRounding(us: u32)
    requires us * SX1262_TIMER_TICK_US_DIV < U32
    ensures us as real - TICK < UsToTicks(us) as real * TICK <= us as real
    ensures UsToTicks(us) < 0x100_0000
  {
    var n := us * 1000;
    assert n == 15625 * (n / 15625) + n % 15625;
  }

  /** With the products in range the 32-bit arithmetic is exact. */
  lemma ExactPeriods(l: u32, preamble: u16)
    requires 2 * RX_DUTY_CYCLE_MIN_SYMBOLS <= preamble
    requires l * (preamble + 1) < U32
    ensures SleepPeriodUs(l, preamble) == l * (preamble - 16)
    ensures WakePeriodUs(l, preamble) >= l * 9
  {
    var whole := l * (preamble + 1);
    Monotone(l, 0, preamble - 16);
    Monotone(l, preamble - 16, preamble + 1);
    Monotone(l, 9, preamble + 1);
    assert Wrap(l * (preamble - 16)) == l * (preamble - 16);
    assert Wrap(l * 9) == l * 9;
  }

  /** The sleep spans preamble-16 computed symbols and the wake window at least 9, each less the
      rounding of a tick. */
  lemma SleepAndWakeLengths(preamble: u16, l: u32)
    requires ProductsFit(preamble, l) && Timings(preamble, l).Some?
    ensures var p, us := Timings(preamble, l).value, l as real;
            && (preamble as real - 16.0) * us - TICK < p.sleepTime as real * TICK <= (preamble as real - 16.0) * us
            && p.rxTime as real * TICK > 9.0 * us - TICK
            && p.rxTime < 0x100_0000 && p.sleepTime < 0x100_0000
  {
    hide SleepPeriodUs, WakePeriodUs, UsToTicks, Wrap;
    var s, w := SleepPeriodUs(l, preamble), WakePeriodUs(l, preamble);
    ExactPeriods(l, preamble);
    TickRounding(s);
    TickRounding(w);
    ScaledSleep(preamble, l, s);
  }

  lemma ScaledSleep(preamble: nat, l: nat, s: nat)
    requires s == l * (preamble - 16)
    ensures s as real == (preamble as real - 16.0) * l as real
  {
    RealProduct(preamble - 16, l);
    assert (preamble - 16) as real == preamble as real - 16.0;
  }

  lemma NextWindow(p: DutyCycleParams, k: nat)
    ensures WindowStart(p, k + 1) == WindowStart(p, k) + CycleLength(p)
    ensures CycleLength(p) == p.rxTime as real * TICK + p.sleepTime as real * TICK
  {
    assert (k + 1) as real == k as real + 1.0;
  }

  /** The argument in the reals: a window of at least eight symbols every time, and gaps at
      most sixteen symbols shorter than the preamble. */
  lemma SomeWindowHears(p: DutyCycleParams, l: real, preamble: real, start: real, k: nat)
    requires l >= 0.0 && WindowStart(p, k) <= start < WindowStart(p, k) + CycleLength(p)
    requires p.rxTime as real * TICK >= 8.0 * l
    requires p.sleepTime as real * TICK + 16.0 * l <= preamble
    ensures Heard(p, k, start, start + preamble) >= 8.0 * l || Heard(p, k + 1, start, start + preamble) >= 8.0 * l
  {
    NextWindow(p, k);
  }

  lemma PreambleIsHeard(p: DutyCycleParams, l: real, preamble: nat, start: real)
    requires 0.0 < l && 0.0 <= start
    requires p.rxTime as real * TICK >= 8.0 * l
    requires p.sleepTime as real * TICK + 16.0 * l <= preamble as real * l
    ensures Caught(p, start, l, preamble)
  {
    NextWindow(p, 0);
    var k := LocateInterval(start, CycleLength(p));
    SomeWindowHears(p, l, preamble as real * l, start, k);
    assert CatchesPreamble(p, k, start, l, preamble) || CatchesPreamble(p, k + 1, start, l, preamble);
  }

  lemma {:induction false} WindowsComeLater(p: DutyCycleParams, k: nat)
    requires k > 0
    ensures WindowStart(p, k) >= CycleLength(p) >= 0.0
  {
    NextWindow(p, k - 1);
    if k > 1 {
      WindowsComeLater(p, k - 1);
    } else {
      NextWindow(p, 0);
    }
  }

  /** A preamble that begins less than eight symbols before the first window closes, and ends
      less than eight symbols into the second, is missed. */
  lemma PreambleIsMissed(p: DutyCycleParams, l: real, preamble: nat, start: real)
    requires p.rxTime as real * TICK - start < 8.0 * l
    requires start + preamble as real * l - CycleLength(p) < 8.0 * l
    ensures !Caught(p, start, l, preamble)
  {
    forall k: nat
      ensures !CatchesPreamble(p, k, start, l, preamble)
    {
      if k > 0 {
        WindowsComeLater(p, k);
      }
    }
  }

  /** For any window and sleep: no preamble is missed exactly when a window can hold eight symbols
      and the sleep is at least sixteen symbols shorter than the preamble. */
  lemma NeverMissesIff(p: DutyCycleParams, l: real, preamble: nat)
    requires 0.0 < l && 16 <= preamble
    ensures NeverMisses(p, l, preamble) <==>
              p.rxTime as real * TICK >= 8.0 * l && p.sleepTime as real * TICK + 16.0 * l <= preamble as real * l
  {
    var wake, sleep, whole := p.rxTime as real * TICK, p.sleepTime as real * TICK, preamble as real * l;
    NextWindow(p, 0);
    if wake >= 8.0 * l && sleep + 16.0 * l <= whole {
      forall start: real | start >= 0.0
        ensures Caught(p, start, l, preamble)
      {
        PreambleIsHeard(p, l, preamble, start);
      }
    } else {
      var start := if wake < 8.0 * l then wake + sleep + whole else wake - 8.0 * l + (sleep + 16.0 * l - whole) / 2.0;
      if wake < 8.0 * l {
        ShortWindowsHearTooLittle(p, l, preamble, start);
      } else {
        PreambleIsMissed(p, l, preamble, start);
      }
      Nonnegative(preamble as real, l);
      assert start >= 0.0 && !Caught(p, start, l, preamble);
    }
  }

  lemma Nonnegative(a: real, b: real)
    requires a >= 0.0 && b >= 0.0
    ensures a * b >= 0.0
  {}

  /** No preamble is ever heard. */
  ghost predicate HearsNothing(p: DutyCycleParams, l: real, symbols: nat) {
    forall start: real :: start >= 0.0 ==> !Caught(p, start, l, symbols)
  }

  /** Nothing is ever heard exactly when a window is too short for eight symbols. */
  lemma HearsNothingIff(p: DutyCycleParams, l: real, preamble: nat)
    requires 0.0 < l && 16 <= preamble
    ensures HearsNothing(p, l, preamble) <==> p.rxTime as real * TICK < 8.0 * l
  {
    if p.rxTime as real * TICK < 8.0 * l {
      forall start: real | start >= 0.0
        ensures !Caught(p, start, l, preamble)
      {
        ShortWindowsHearTooLittle(p, l, preamble, start);
      }
    } else {
      EightOfThePreamble(l, preamble);
      assert CatchesPreamble(p, 0, 0.0, l, preamble) && Caught(p, 0.0, l, preamble);
    }
  }

  lemma EightOfThePreamble(l: real, preamble: nat)
    requires 0.0 < l && 16 <= preamble
    ensures preamble as real * l >= 8.0 * l
  {
    TimesMonotone(8.0, preamble as real, l);
  }

  lemma ShortWindowsHearTooLittle(p: DutyCycleParams, l: real, preamble: nat, start: real)
    requires p.rxTime as real * TICK < 8.0 * l
    ensures !Caught(p, start, l, preamble)
  {
    forall k: nat
      ensures !CatchesPreamble(p, k, start, l, preamble)
    {
    }
  }

  // ---- The computed symbol ----

  lemma ComputedDivision(sf: u8, bandwidthHz: u32)
    requires 5 <= sf <= 12 && 1000 <= bandwidthHz
    ensures var l, khz := SymbolLengthUs(sf, bandwidthHz), bandwidthHz / 1000;
            l * (10 * khz) <= 10_000 * Pow2(sf) < (l + 1) * (10 * khz)
  {
    hide TenKHz, Pow2;
    Pow2Range(sf);
    assert Wrap(10_000 * Pow2(sf)) == 10_000 * Pow2(sf);
    DivMod(10_000 * Pow2(sf), TenKHz(bandwidthHz));
  }

  /** The computed symbol is a given number of microseconds or more exactly when the bandwidth is low
      enough. */
  lemma ComputedAtLeastIff(sf: u8, bandwidthHz: u32, l: nat)
    requires 5 <= sf <= 12 && 1000 <= bandwidthHz
    ensures SymbolLengthUs(sf, bandwidthHz) >= l <==> l * (bandwidthHz / 1000) <= 1000 * Pow2(sf)
  {
    hide SymbolLengthUs, Pow2;
    var c: nat, khz := SymbolLengthUs(sf, bandwidthHz), bandwidthHz / 1000;
    ComputedDivision(sf, bandwidthHz);
    TenTimes(c, khz);
    TenTimes(c + 1, khz);
    if l <= c {
      Monotone(khz, l, c);
    } else {
      Monotone(khz, c + 1, l);
    }
  }

  lemma TenTimes(l: nat, khz: nat)
    ensures l * (10 * khz) == 10 * (l * khz)
  {}

  lemma SymbolLengthIs(sf: u8, bandwidthHz: u32, pow: nat, khz: nat, l: nat)
    requires 5 <= sf <= 12 && Pow2(sf) == pow && bandwidthHz / 1000 == khz > 0
    requires l * khz <= 1000 * pow < (l + 1) * khz
    ensures bandwidthHz >= 1000 && SymbolLengthUs(sf, bandwidthHz) == l
  {
    hide SymbolLengthUs, Pow2;
    ComputedAtLeastIff(sf, bandwidthHz, l);
    ComputedAtLeastIff(sf, bandwidthHz, l + 1);
  }

  lemma Powers()
    ensures Pow2(5) == 32 && Pow2(6) == 64 && Pow2(7) == 128 && Pow2(8) == 256 && Pow2(9) == 512 && Pow2(10) == 1024
    ensures Pow2(11) == 2048 && Pow2(12) == 4096
  {
    assert Pow2(3) == 8;
  }

  // ---- The timings in ticks ----

  /** Whole ticks of 15.625 microseconds. */
  function Ticks(us: nat): nat { 8 * us / 125 }

  /** How long the radio may sleep through a preamble: sixteen symbols short of it. */
  function SleepOf(symbolUs: nat, preamble: nat): nat
    requires 16 <= preamble
  {
    symbolUs * (preamble - 16)
  }

  lemma TicksInRange(us: u32)
    requires us * SX1262_TIMER_TICK_US_DIV < U32
    ensures UsToTicks(us) == Ticks(us)
  {}

  lemma TimingsInTicks(preamble: u16, l: u32)
    requires 16 <= preamble && ProductsFit(preamble, l) && Timings(preamble, l).Some?
    ensures Timings(preamble, l).value == DutyCycleParams(Ticks(WakePeriodUs(l, preamble)), Ticks(SleepOf(l, preamble)))
    ensures SleepOf(l, preamble) >= MIN_WORTHWHILE_SLEEP_US
  {
    hide WakePeriodUs, Ticks, UsToTicks, SleepPeriodUs;
    ExactPeriods(l, preamble);
    TicksInRange(SleepPeriodUs(l, preamble));
    TicksInRange(WakePeriodUs(l, preamble));
  }

  // ---- The radio's own bandwidths ----

  lemma OnAirProduct(sf: u8, bandwidthHz: u32)
    ensures OnAirSymbolUs(sf, bandwidthHz) * MapBandwidth(bandwidthHz) as real == Pow2(sf) as real * 1_000_000.0
  {}

  lemma TwiceAsMuch(a: real, w: real)
    requires w > 0.0
    ensures 2.0 * a / w == 2.0 * (a / w)
  {}

  /** One more in the spreading factor doubles the symbol on the air, and the computed one at least. */
  lemma Doubling(sf: u8, bandwidthHz: u32)
    requires 5 <= sf <= 11 && 1000 <= bandwidthHz
    ensures OnAirSymbolUs(sf + 1, bandwidthHz) == 2.0 * OnAirSymbolUs(sf, bandwidthHz)
    ensures SymbolLengthUs(sf + 1, bandwidthHz) >= 2 * SymbolLengthUs(sf, bandwidthHz)
  {
    hide SymbolLengthUs, MapBandwidth;
    TwiceAsMuch(Pow2(sf) as real * 1_000_000.0, MapBandwidth(bandwidthHz) as real);
    assert Pow2(sf + 1) as real == 2.0 * Pow2(sf) as real;
    DoubledDivision(sf, bandwidthHz, SymbolLengthUs(sf, bandwidthHz));
  }

  lemma DoubledDivision(sf: u8, bandwidthHz: u32, l: nat)
    requires 5 <= sf <= 11 && 1000 <= bandwidthHz && l <= SymbolLengthUs(sf, bandwidthHz)
    ensures 2 * l <= SymbolLengthUs(sf + 1, bandwidthHz)
  {
    hide SymbolLengthUs;
    ComputedAtLeastIff(sf, bandwidthHz, l);
    ComputedAtLeastIff(sf + 1, bandwidthHz, 2 * l);
    Regroup(2, l, bandwidthHz / 1000);
  }

  lemma Regroup(a: nat, b: nat, c: nat)
    ensures a * b * c == a * (b * c)
  {}

  /** The computed symbol at spreading factor 5, for the bandwidths at a fraction of a kilohertz. */
  function ShortestComputed(bandwidthHz: u32): nat {
    match bandwidthHz
    case 7_800 => 4571
    case 10_400 => 3200
    case 15_600 => 2133
    case 20_800 => 1600
    case 31_250 => 1032
    case 41_700 => 780
    case _ => 516
  }

  predicate Fractional(bandwidthHz: u32) { MapBandwidth(bandwidthHz) == bandwidthHz && bandwidthHz % 1000 != 0 }

  /** How much too long the computed symbol is at least at spreading factor 5, in microseconds. */
  function ShortestExcess(bandwidthHz: u32): real {
    match bandwidthHz
    case 62_500 => 4.0
    case 31_250 => 8.0
    case 41_700 => 12.0
    case _ => 16.0
  }

  lemma ExcessAtFive(bandwidthHz: u32)
    requires Fractional(bandwidthHz)
    ensures 1000 <= bandwidthHz && SymbolLengthUs(5, bandwidthHz) == ShortestComputed(bandwidthHz)
    ensures OnAirSymbolUs(5, bandwidthHz) + ShortestExcess(bandwidthHz) <= ShortestComputed(bandwidthHz) as real
  {
    hide SymbolLengthUs;
    Powers();
    SymbolLengthIs(5, bandwidthHz, 32, bandwidthHz / 1000, ShortestComputed(bandwidthHz));
  }

  /** At every spreading factor the computed symbol is too long by at least what it is at five. */
  lemma {:induction false} ExcessGrows(sf: u8, bandwidthHz: u32)
    requires 5 <= sf <= 12 && Fractional(bandwidthHz)
    ensures 1000 <= bandwidthHz
    ensures var scale, l := if sf == 5 then 1 else if sf == 6 then 2 else 4, SymbolLengthUs(sf, bandwidthHz);
            && l >= scale * ShortestComputed(bandwidthHz)
            && OnAirSymbolUs(sf, bandwidthHz) + scale as real * ShortestExcess(bandwidthHz) <= l as real
  {
    hide SymbolLengthUs, OnAirSymbolUs, ShortestComputed, ShortestExcess;
    ExcessAtFive(bandwidthHz);
    if sf > 5 {
      ExcessGrows(sf - 1, bandwidthHz);
      Doubling(sf - 1, bandwidthHz);
      ExcessIsPositive(bandwidthHz);
    }
  }

  lemma ExcessIsPositive(bandwidthHz: u32)
    ensures ShortestExcess(bandwidthHz) >= 4.0
  {}

  /** At a whole number of kilohertz the computed symbol is exact. */
  lemma WholeIsExact(sf: u8, bandwidthHz: u32)
    requires 5 <= sf <= 12 && MapBandwidth(bandwidthHz) == bandwidthHz && bandwidthHz % 1000 == 0
    ensures OnAirSymbolUs(sf, bandwidthHz) == SymbolLengthUs(sf, bandwidthHz) as real
  {
    hide SymbolLengthUs, Pow2;
    var khz := bandwidthHz / 1000;
    assert khz in {125, 250, 500};
    SymbolLengthIs(sf, bandwidthHz, Pow2(sf), khz, 1000 / khz * Pow2(sf));
  }

  /** At a bandwidth of the radio's own the computed symbol is never too short. */
  lemma OwnSymbols(sf: u8, bandwidthHz: u32)
    requires 5 <= sf <= 12 && MapBandwidth(bandwidthHz) == bandwidthHz
    ensures 64.0 <= OnAirSymbolUs(sf, bandwidthHz) <= SymbolLengthUs(sf, bandwidthHz) as real
  {
    hide SymbolLengthUs, OnAirSymbolUs, MapBandwidth, Pow2;
    Pow2Range(sf);
    OnAirProduct(sf, bandwidthHz);
    MapBandwidthAtMost(bandwidthHz);
    AtLeast64(OnAirSymbolUs(sf, bandwidthHz), bandwidthHz as real, Pow2(sf) as real * 1_000_000.0);
    if bandwidthHz % 1000 == 0 {
      WholeIsExact(sf, bandwidthHz);
    } else {
      ExcessGrows(sf, bandwidthHz);
      ExcessIsPositive(bandwidthHz);
    }
  }

  lemma AtLeast64(onAir: real, bandwidth: real, work: real)
    requires onAir * bandwidth == work && work >= 32_000_000.0
    requires 0.0 < bandwidth <= 500_000.0
    ensures onAir >= 64.0
  {
    if onAir < 64.0 {
      TimesMonotone(onAir, 64.0, bandwidth);
    }
  }

  lemma MapBandwidthAtMost(bandwidthHz: u32)
    ensures 7_800 <= MapBandwidth(bandwidthHz) <= 500_000
  {}

  lemma SleepIsShortEnough(preamble: u16, l: real, sleep: real)
    requires sleep <= (preamble as real - 16.0) * l
    ensures sleep + 16.0 * l <= preamble as real * l
  {
    Distribute(preamble as real, 16.0, l);
  }

  lemma SleepIsTooLong(preamble: u16, l: real, sleep: real)
    requires sleep > (preamble as real - 16.0) * l
    ensures sleep + 16.0 * l > preamble as real * l
  {
    Distribute(preamble as real, 16.0, l);
  }

  /** A computed symbol `excess` too long makes `m` of them longer by more than a tick. */
  lemma MoreThanATick(m: real, l: real, onAir: real, excess: real, sleep: real)
    requires m >= 0.0 && onAir + excess <= l && m * excess >= TICK && sleep > m * l - TICK
    ensures sleep > m * onAir
  {
    TimesMonotone(onAir + excess, l, if m > 0.0 then m else 1.0);
  }

  /** Where the excess is within a tick: one to three symbols of sleep at the smallest spreading
      factors. */
  lemma FewSleepSymbols(preamble: u16, sf: u8, bandwidthHz: u32)
    requires 5 <= sf <= 12 && Fractional(bandwidthHz) && 1000 <= bandwidthHz
    requires ProductsFit(preamble, SymbolLengthUs(sf, bandwidthHz))
    requires Timings(preamble, SymbolLengthUs(sf, bandwidthHz)).Some?
    requires var scale := if sf == 5 then 1 else if sf == 6 then 2 else 4;
             (preamble - 16) as real * (scale as real * ShortestExcess(bandwidthHz)) < TICK
    ensures var p := Timings(preamble, SymbolLengthUs(sf, bandwidthHz)).value;
            p.sleepTime as real * TICK > (preamble as real - 16.0) * OnAirSymbolUs(sf, bandwidthHz)
  {
    hide SymbolLengthUs, WakePeriodUs, ProductsFit, Timings, OnAirSymbolUs;
    var l := SymbolLengthUs(sf, bandwidthHz);
    ExcessAtFive(bandwidthHz);
    Powers();
    OnAirProduct(sf, bandwidthHz);
    LongEnough(preamble, l);
    TimingsInTicks(preamble, l);
    if sf == 6 {
      SymbolLengthIs(6, 62_500, 64, 62, 1032);
    }
    assert preamble in {16, 17, 18, 19};
    assert bandwidthHz in {31_250, 41_700, 62_500} && sf in {5, 6};
  }

  /** At a fraction of a kilohertz the sleep is always too long. */
  lemma FractionalSleepIsTooLong(preamble: u16, sf: u8, bandwidthHz: u32)
    requires 5 <= sf <= 12 && Fractional(bandwidthHz) && 1000 <= bandwidthHz
    requires ProductsFit(preamble, SymbolLengthUs(sf, bandwidthHz))
    requires Timings(preamble, SymbolLengthUs(sf, bandwidthHz)).Some?
    ensures var p := Timings(preamble, SymbolLengthUs(sf, bandwidthHz)).value;
            p.sleepTime as real * TICK > (preamble as real - 16.0) * OnAirSymbolUs(sf, bandwidthHz)
  {
    hide SymbolLengthUs, OnAirSymbolUs, ProductsFit, Timings, ShortestExcess, ShortestComputed;
    var scale := if sf == 5 then 1 else if sf == 6 then 2 else 4;
    var l, onAir, excess := SymbolLengthUs(sf, bandwidthHz), OnAirSymbolUs(sf, bandwidthHz),
                            scale as real * ShortestExcess(bandwidthHz);
    LongEnough(preamble, l);
    if (preamble - 16) as real * excess < TICK {
      FewSleepSymbols(preamble, sf, bandwidthHz);
    } else {
      ExcessGrows(sf, bandwidthHz);
      SleepAndWakeLengths(preamble, l);
      var sleep := Timings(preamble, l).value.sleepTime as real * TICK;
      MoreThanATick((preamble - 16) as real, l as real, onAir, excess, sleep);
    }
  }

  lemma LongEnough(preamble: u16, l: u32)
    requires ProductsFit(preamble, l)
    ensures 16 <= preamble
  {}

  /** At every bandwidth the radio has, and with the 32-bit products in range, no preamble is missed if
      and only if the bandwidth is a whole number of kilohertz. */
  lemma OwnBandwidthNeverMissesIff(preamble: u16, sf: u8, bandwidthHz: u32)
    requires 5 <= sf <= 12 && MapBandwidth(bandwidthHz) == bandwidthHz
    requires ProductsFit(preamble, SymbolLengthUs(sf, bandwidthHz))
    requires RxDutyCycleParams(preamble, sf, bandwidthHz).Some?
    ensures NeverMisses(RxDutyCycleParams(preamble, sf, bandwidthHz).value, OnAirSymbolUs(sf, bandwidthHz), preamble)
            <==> bandwidthHz % 1000 == 0
  {
    hide SymbolLengthUs, OnAirSymbolUs, NeverMisses, ProductsFit, Timings, MapBandwidth;
    var p, onAir := RxDutyCycleParams(preamble, sf, bandwidthHz).value, OnAirSymbolUs(sf, bandwidthHz);
    var sleep := p.sleepTime as real * TICK;
    OwnSymbols(sf, bandwidthHz);
    LongEnough(preamble, SymbolLengthUs(sf, bandwidthHz));
    SleepAndWakeLengths(preamble, SymbolLengthUs(sf, bandwidthHz));
    NeverMissesIff(p, onAir, preamble);
    if bandwidthHz % 1000 == 0 {
      WholeIsExact(sf, bandwidthHz);
      SleepIsShortEnough(preamble, onAir, sleep);
    } else {
      FractionalSleepIsTooLong(preamble, sf, bandwidthHz);
      SleepIsTooLong(preamble, onAir, sleep);
    }
  }

  // ---- Bandwidths the radio replaces ----

  lemma TicksAtMostIff(k: nat, us: nat)
    ensures k as real * TICK <= us as real <==> k <= Ticks(us)
  {}

  lemma TicksAtLeastIff(k: nat, us: nat)
    ensures k as real * TICK >= us as real <==> 125 * k >= 8 * us
  {}

  /** At 250 kHz a symbol lasts four microseconds for every chip. */
  lemma ReplacedSymbol(sf: u8, bandwidthHz: u32)
    requires MapBandwidth(bandwidthHz) == 250_000
    ensures OnAirSymbolUs(sf, bandwidthHz) == (4 * Pow2(sf)) as real
  {
    hide Pow2;
  }

  /** On the air at 250 kHz, whatever bandwidth the timings were computed for: no preamble is missed if
      and only if the computed sleep is in ticks no longer than one computed from the symbol on the
      air, and the wake window holds eight symbols on the air; and if it does not, nothing is heard. */
  lemma ReplacedBandwidthNeverMissesIff(preamble: u16, sf: u8, bandwidthHz: u32)
    requires 5 <= sf <= 12 && 1000 <= bandwidthHz && MapBandwidth(bandwidthHz) == 250_000
    requires 16 <= preamble && ProductsFit(preamble, SymbolLengthUs(sf, bandwidthHz))
    requires RxDutyCycleParams(preamble, sf, bandwidthHz).Some?
    ensures var p, onAir := RxDutyCycleParams(preamble, sf, bandwidthHz).value, OnAirSymbolUs(sf, bandwidthHz);
            var l, chips := SymbolLengthUs(sf, bandwidthHz), Pow2(sf);
            var holdsEight := 125 * Ticks(WakePeriodUs(l, preamble)) >= 256 * chips;
            && (NeverMisses(p, onAir, preamble) <==>
                  Ticks(SleepOf(l, preamble)) <= Ticks(SleepOf(4 * chips, preamble)) && holdsEight)
            && (HearsNothing(p, onAir, preamble) <==> !holdsEight)
  {
    hide SymbolLengthUs, OnAirSymbolUs, NeverMisses, HearsNothing, Timings, MapBandwidth, Ticks, WakePeriodUs, Pow2;
    var p, onAir := RxDutyCycleParams(preamble, sf, bandwidthHz).value, OnAirSymbolUs(sf, bandwidthHz);
    var l, t := SymbolLengthUs(sf, bandwidthHz), 4 * Pow2(sf);
    ReplacedSymbol(sf, bandwidthHz);
    TimingsInTicks(preamble, l);
    NeverMissesIff(p, onAir, preamble);
    HearsNothingIff(p, onAir, preamble);
    TicksAtLeastIff(p.rxTime, 8 * t);
    TicksAtMostIff(p.sleepTime, SleepOf(t, preamble));
    RealProduct(t, preamble - 16);
    Distribute(preamble as real, 16.0, onAir);
  }

  /** The lowest and the highest bandwidth, in whole kilohertz, whose timings suit 250 kHz. */
  function LowestKHz(sf: u8): nat { if sf == 5 then 249 else 250 }

  function HighestKHz(sf: u8): nat {
    match sf
    case 5 => 507
    case 6 => 347
    case 7 => 301
    case 8 => 282
    case _ => 281
  }

  /** The shortest computed symbol whose wake window holds eight symbols at 250 kHz. */
  function ShortestSymbol(sf: u8): nat {
    match sf
    case 5 => 63
    case 6 => 184
    case 7 => 425
    case 8 => 907
    case 9 => 1822
    case 10 => 3643
    case 11 => 7283
    case _ => 14565
  }

  /** The bandwidth bounds of the computed symbol. */
  lemma KHzBounds(sf: u8, bandwidthHz: u32)
    requires 5 <= sf <= 12 && 1000 <= bandwidthHz
    ensures SymbolLengthUs(sf, bandwidthHz) <= 4 * Pow2(sf) <==> LowestKHz(sf) <= bandwidthHz / 1000
    ensures SymbolLengthUs(sf, bandwidthHz) >= ShortestSymbol(sf) <==> bandwidthHz / 1000 <= HighestKHz(sf)
  {
    hide SymbolLengthUs, Pow2;
    Powers();
    ComputedAtLeastIff(sf, bandwidthHz, 4 * Pow2(sf) + 1);
    ComputedAtLeastIff(sf, bandwidthHz, ShortestSymbol(sf));
    assert sf in {5, 6, 7, 8, 9, 10, 11, 12};
  }

  lemma WindowHoldsEightIff(sf: u8, l: u32)
    requires 5 <= sf <= 12 && 22 <= l <= 89_478
    ensures 125 * Ticks(WakePeriodUs(l, 64)) >= 256 * Pow2(sf) <==> l >= ShortestSymbol(sf)
  {
    hide WakePeriodUs, Pow2;
    Powers();
    WakePeriodIs(l);
    assert sf in {5, 6, 7, 8, 9, 10, 11, 12};
  }

  lemma WrapOfSmall(x: nat)
    requires x < U32
    ensures Wrap(x) == x
  {}

  lemma WakePeriodIs(l: u32)
    requires l <= 89_478
    ensures WakePeriodUs(l, 64) == Max((65 * l - SatSub(48 * l, 1000)) / 2, 9 * l)
  {
    hide Wrap;
    WrapOfSmall(l * 65);
    WrapOfSmall(l * 48);
    WrapOfSmall(l * 9);
  }

  /** At the firmware's preamble of 64 symbols the products fit for symbols up to 89478 microseconds,
      and the radio sleeps at all for symbols of at least 22. */
  lemma FirmwarePreamble(l: u32)
    ensures ProductsFit(64, l) <==> l <= 89_478
    ensures l <= 89_478 ==> (Timings(64, l).Some? <==> l >= 22)
  {
    hide WakePeriodUs;
    if l <= 89_478 {
      WakePeriodIs(l);
      ExactPeriods(l, 64);
    }
  }

  /** With a bandwidth the radio replaces by 250 kHz, and the preamble the firmware sends: the radio
      listens all the time when the computed symbol is below 22 microseconds; otherwise no preamble is
      missed if and only if the bandwidth lies between the two bounds, nothing at all is heard above
      them, and below them some preambles are missed and some are heard. */
  lemma ReplacedBandwidthsAtTheFirmwarePreamble(sf: u8, bandwidthHz: u32)
    requires 5 <= sf <= 12 && 1000 <= bandwidthHz && MapBandwidth(bandwidthHz) == 250_000
    requires SymbolLengthUs(sf, bandwidthHz) <= 89_478
    ensures var r, onAir := RxDutyCycleParams(64, sf, bandwidthHz), OnAirSymbolUs(sf, bandwidthHz);
            var khz := bandwidthHz / 1000;
            && (r.None? <==> 22 * khz > 1000 * Pow2(sf))
            && (r.Some? ==>
                  && (NeverMisses(r.value, onAir, 64) <==> LowestKHz(sf) <= khz <= HighestKHz(sf))
                  && (HearsNothing(r.value, onAir, 64) <==> khz > HighestKHz(sf)))
  {
    hide SymbolLengthUs, OnAirSymbolUs, NeverMisses, HearsNothing, Timings, MapBandwidth, WakePeriodUs, Pow2, LowestKHz,
      HighestKHz, ShortestSymbol, Ticks;
    var l := SymbolLengthUs(sf, bandwidthHz);
    FirmwarePreamble(l);
    ComputedAtLeastIff(sf, bandwidthHz, 22);
    if l >= 22 {
      ReplacedBandwidthNeverMissesIff(64, sf, bandwidthHz);
      KHzBounds(sf, bandwidthHz);
      WindowHoldsEightIff(sf, l);
      TicksOfSleep(l, 4 * Pow2(sf));
    }
  }

  lemma TicksOfSleep(l: nat, t: nat)
    ensures Ticks(SleepOf(l, 64)) <= Ticks(SleepOf(t, 64)) <==> l <= t
  {}

  // ---- The built-in presets, and one replaced bandwidth ----

  lemma PresetSymbols(preset: ModemPreset)
    ensures MapBandwidth(preset.BandwidthHz()) == preset.BandwidthHz() && 5 <= preset.SpreadingFactor() <= 12
    ensures 22 <= SymbolLengthUs(preset.SpreadingFactor(), preset.BandwidthHz()) <= 89_478
  {
    hide SymbolLengthUs;
    var sf, bw := preset.SpreadingFactor(), preset.BandwidthHz();
    Powers();
    ComputedAtLeastIff(sf, bw, 22);
    ComputedAtLeastIff(sf, bw, 89_479);
  }

  /** At the firmware's 64-symbol preamble the products of every built-in preset fit, the radio is
      set to the preset's own bandwidth, and the preset never misses a preamble if and only if
      its bandwidth is a whole number of kilohertz. */
  lemma PresetsNeverMissIffWholeKilohertz(preset: ModemPreset)
    ensures MapBandwidth(preset.BandwidthHz()) == preset.BandwidthHz()
    ensures ProductsFit(64, SymbolLengthUs(preset.SpreadingFactor(), preset.BandwidthHz()))
    ensures var sf, bw := preset.SpreadingFactor(), preset.BandwidthHz();
            var r := RxDutyCycleParams(64, sf, bw);
            r.Some? && (NeverMisses(r.value, OnAirSymbolUs(sf, bw), 64) <==> bw % 1000 == 0)
  {
    hide OnAirSymbolUs, SymbolLengthUs, NeverMisses, ProductsFit, Timings, MapBandwidth;
    PresetSymbols(preset);
    FirmwarePreamble(SymbolLengthUs(preset.SpreadingFactor(), preset.BandwidthHz()));
    OwnBandwidthNeverMissesIff(64, preset.SpreadingFactor(), preset.BandwidthHz());
  }

  /** The parameters for a computed symbol of given length. */
  lemma TimingsAre(l: u32)
    requires 22 <= l <= 89_478
    ensures Timings(64, l)
         == Some(DutyCycleParams(Ticks(Max((65 * l - SatSub(48 * l, 1000)) / 2, 9 * l)), Ticks(l * 48)))
  {
    hide WakePeriodUs, ProductsFit, Timings, Ticks;
    FirmwarePreamble(l);
    TimingsInTicks(64, l);
    WakePeriodIs(l);
  }

  /** One that is missed: sent with the TinyFast preset, starting 11797 microseconds into a cycle. */
  lemma TinyFastMissesThisPreamble()
    ensures RxDutyCycleParams(64, TinyFast.SpreadingFactor(), TinyFast.BandwidthHz())
            == Some(DutyCycleParams(4915, 26213))
    ensures !Caught(DutyCycleParams(4915, 26213), 11_797.0, OnAirSymbolUs(7, 15_600), 64)
  {
    hide OnAirSymbolUs, SymbolLengthUs, Timings, Caught;
    Powers();
    SymbolLengthIs(7, 15_600, 128, 15, 8533);
    TimingsAre(8533);
    OnAirProduct(7, 15_600);
    NextWindow(DutyCycleParams(4915, 26213), 0);
    PreambleIsMissed(DutyCycleParams(4915, 26213), OnAirSymbolUs(7, 15_600), 64, 11_797.0);
  }

  /** Wire code 300 asks for 300 kHz. The radio transmits and listens at 250, the duty cycle is
      computed for 300, and at spreading factor 11 no preamble is ever heard. */
  lemma Code300HearsNothing()
    ensures RxDutyCycleParams(64, 11, BwCodeToHz(300)) == Some(DutyCycleParams(3931, 20969))
    ensures MapBandwidth(BwCodeToHz(300)) == 250_000
    ensures HearsNothing(DutyCycleParams(3931, 20969), OnAirSymbolUs(11, BwCodeToHz(300)), 64)
  {
    hide OnAirSymbolUs, SymbolLengthUs, Timings, HearsNothing;
    Powers();
    SymbolLengthIs(11, 300_000, 2048, 300, 6826);
    TimingsAre(6826);
    ReplacedBandwidthsAtTheFirmwarePreamble(11, 300_000);
  }
}
