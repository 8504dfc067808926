/** Modem presets, region bands, bandwidth codes and the frequency plan. */
module RadioConfig {
  import opened Bytes
  import opened Arith

  /** The bytes of an ASCII literal. */
  function Ascii(s: string): (b: seq<u8>)
    ensures |b| == |s|
  {
    seq(|s|, i requires 0 <= i < |s| => if s[i] as int < 0x80 then s[i] as int else 0)
  }

  // ---- djb2 ----

  function Djb2From(h: u32, s: seq<u8>): u32
    decreases |s|
  {
    if s == [] then h else Djb2From((h * 33 + s[0]) % 0x1_0000_0000, s[1..])
  }

  method Djb2(s: seq<u8>) returns (h: u32)
    ensures h == Djb2From(5381, s)
  {
    h := 5381;
    var i := 0;
    while i < |s|
      invariant 0 <= i <= |s|
      invariant Djb2From(h, s[i..]) == Djb2From(5381, s)
    {
      assert s[i..][1..] == s[i + 1..];
      h := (h * 33 + s[i]) % 0x1_0000_0000;
      i := i + 1;
    }
  }

  // ---- Bandwidth wire codes ----

  function BwCodeToHz(code: u16): u32 {
    match code
    case 31 => 31_250
    case 62 => 62_500
    case 200 => 203_125
    case 400 => 406_250
    case 800 => 812_500
    case 1600 => 1_625_000
    case other => other * 1000
  }

  function BwHzToCode(hz: u32): u16 {
    match hz
    case 31_250 => 31
    case 62_500 => 62
    case 203_125 => 200
    case 406_250 => 400
    case 812_500 => 800
    case 1_625_000 => 1600
    case other => (other / 1000) % 0x1_0000
  }

  /** What a bandwidth must look like for the 16-bit wire code to carry it exactly. */
  predicate BandwidthHasCode(hz: u32) {
    || hz in {31_250, 62_500, 203_125, 406_250, 812_500, 1_625_000}
    || (hz % 1000 == 0 && hz / 1000 < 0x1_0000 && hz / 1000 !in {31, 62, 200, 400, 800, 1600})
  }

  /** A stored bandwidth comes back in Hz exactly when it has a wire code. */
  lemma BandwidthSurvivesIffItHasACode(hz: u32)
    ensures BwCodeToHz(BwHzToCode(hz)) == hz <==> BandwidthHasCode(hz)
  {}

  /** Every Hz figure a wire code can produce survives, though two codes name 1625 kHz. */
  lemma EveryDecodedBandwidthSurvives(code: u16)
    ensures BwCodeToHz(BwHzToCode(BwCodeToHz(code))) == BwCodeToHz(code)
    ensures BwHzToCode(BwCodeToHz(code)) == code <==> code != 1625
  {}

  /** The bandwidth the radio is set to: one it does not have is replaced by 250 kHz. */
  function MapBandwidth(hz: u32): (w: u32)
    ensures w >= 7_800 && w % 2 == 0
  {
    if hz in {7_800, 10_400, 15_600, 20_800, 31_250, 41_700, 62_500, 125_000, 250_000, 500_000} then hz else 250_000
  }

  // ---- Presets ----

  datatype ModemPreset =
    | LongFast | LongSlow | VeryLongSlow | MediumSlow | MediumFast | ShortSlow | ShortFast
    | LongModerate | ShortTurbo | LongTurbo | LiteFast | LiteSlow | NarrowFast | NarrowSlow
    | TinyFast | TinySlow | MediumTurbo
  {
    function SpreadingFactor(): u8 {
      match this
      case ShortFast | ShortTurbo | NarrowFast | TinyFast => 7
      case ShortSlow | NarrowSlow | TinySlow => 8
      case MediumFast | LiteFast | MediumTurbo => 9
      case LiteSlow => 10
      case LongSlow | VeryLongSlow => 12
      case _ => 11
    }

    function BandwidthHz(): u32 {
      match this
      case VeryLongSlow | NarrowFast | NarrowSlow => 62_500
      case LongSlow | LongModerate | LiteFast | LiteSlow => 125_000
      case ShortTurbo | LongTurbo | MediumTurbo => 500_000
      case TinyFast | TinySlow => 15_600
      case _ => 250_000
    }

    function DisplayName(): seq<u8> {
      match this
      case LongFast => Ascii("LongFast")
      case LongSlow => Ascii("LongSlow")
      case VeryLongSlow => Ascii("VeryLongSlow")
      case MediumSlow => Ascii("MediumSlow")
      case MediumFast => Ascii("MediumFast")
      case ShortSlow => Ascii("ShortSlow")
      case ShortFast => Ascii("ShortFast")
      case LongModerate => Ascii("LongMod")
      case ShortTurbo => Ascii("ShortTurbo")
      case LongTurbo => Ascii("LongTurbo")
      case LiteFast => Ascii("LiteFast")
      case LiteSlow => Ascii("LiteSlow")
      case NarrowFast => Ascii("NarrowFast")
      case NarrowSlow => Ascii("NarrowSlow")
      case TinyFast => Ascii("TinyFast")
      case TinySlow => Ascii("TinySlow")
      case MediumTurbo => Ascii("MediumTurbo")
    }

    function Code(): u8 {
      match this
      case LongFast => 0
      case LongSlow => 1
      case VeryLongSlow => 2
      case MediumSlow => 3
      case MediumFast => 4
      case ShortSlow => 5
      case ShortFast => 6
      case LongModerate => 7
      case ShortTurbo => 8
      case LongTurbo => 9
      case LiteFast => 10
      case LiteSlow => 11
      case NarrowFast => 12
      case NarrowSlow => 13
      case TinyFast => 14
      case TinySlow => 15
      case MediumTurbo => 16
    }
  }

  function PresetFromProto(v: u8): (p: ModemPreset)
    ensures v <= 16 ==> p.Code() == v
    ensures v > 16 ==> p == LongFast
  {
    match v
    case 1 => LongSlow
    case 2 => VeryLongSlow
    case 3 => MediumSlow
    case 4 => MediumFast
    case 5 => ShortSlow
    case 6 => ShortFast
    case 7 => LongModerate
    case 8 => ShortTurbo
    case 9 => LongTurbo
    case 10 => LiteFast
    case 11 => LiteSlow
    case 12 => NarrowFast
    case 13 => NarrowSlow
    case 14 => TinyFast
    case 15 => TinySlow
    case 16 => MediumTurbo
    case _ => LongFast
  }

  // ---- Regions ----

  /** Integer division of two unsigned words. */
  function Quotient(a: u32, b: u32): (q: u32)
    requires b > 0
    ensures q == a / b
  {
    QuotientFits(a, b);
    a / b
  }

  datatype Region =
    | Unset | Us | Eu433 | Eu868 | Cn | Jp | Anz | Kr | Tw | Ru | In | Nz865 | Th | Lora24 | Ua433 | Ua868
    | My433 | My919 | Sg923 | Ph433 | Ph868 | Ph915 | Anz433 | Kz433 | Kz863 | Np865 | Br902
    | Itu12m | Itu22m | Itu32m | Eu866 | Eu874 | Eu917 | EuN868 | Itu2125cm | Itu170cm | Itu270cm | Itu370cm
  {
    function FreqStartHz(): u32 {
      match this
      case Us | Br902 | Unset => 902_000_000
      case Eu433 | Ua433 | My433 | Ph433 => 433_000_000
      case Eu868 | EuN868 => 869_400_000
      case Cn => 470_000_000
      case Jp => 920_500_000
      case Anz => 915_000_000
      case Anz433 => 433_050_000
      case Ru => 868_700_000
      case Kr | Tw | Th => 920_000_000
      case In | Np865 => 865_000_000
      case Nz865 => 864_000_000
      case Ua868 | Ph868 => 868_000_000
      case My919 => 919_000_000
      case Sg923 | Eu917 => 917_000_000
      case Ph915 => 915_000_000
      case Kz433 => 433_075_000
      case Kz863 => 863_000_000
      case Lora24 => 2_400_000_000
      case Eu866 => 865_600_000
      case Eu874 => 874_000_000
      case Itu12m | Itu22m | Itu32m => 144_000_000
      case Itu2125cm => 220_000_000
      case Itu170cm | Itu370cm => 430_000_000
      case Itu270cm => 420_000_000
    }

    function FreqEndHz(): u32 {
      match this
      case Us | Anz | Unset => 928_000_000
      case Eu433 => 434_000_000
      case Eu868 | EuN868 => 869_650_000
      case Cn => 510_000_000
      case Jp => 923_500_000
      case Anz433 => 434_790_000
      case Ru => 869_200_000
      case Kr => 923_000_000
      case Tw | Th => 925_000_000
      case In => 867_000_000
      case Nz865 | Kz863 | Np865 => 868_000_000
      case Ua433 | Ph433 => 434_700_000
      case Ua868 => 868_600_000
      case My433 => 435_000_000
      case My919 => 924_000_000
      case Sg923 => 925_000_000
      case Ph868 => 869_400_000
      case Ph915 | Eu917 => 918_000_000
      case Kz433 => 434_775_000
      case Br902 => 907_500_000
      case Lora24 => 2_483_500_000
      case Eu866 => 867_600_000
      case Eu874 => 874_400_000
      case Itu12m => 146_000_000
      case Itu22m | Itu32m => 148_000_000
      case Itu2125cm => 225_000_000
      case Itu170cm => 440_000_000
      case Itu270cm | Itu370cm => 450_000_000
    }

    /** The subtraction never underflows: every band has positive width. */
    function BandHz(): (w: u32)
      ensures 0 < w && FreqStartHz() + w == FreqEndHz()
    {
      FreqEndHz() - FreqStartHz()
    }

    function NumChannels(bandwidthHz: u32): u32 {
      if bandwidthHz == 0 then 0 else Quotient(BandHz(), bandwidthHz)
    }

    /** The frequency as an exact integer; the code adds in 32 bits. */
    function FrequencyHz(bandwidthHz: u32, channelIndex: u32): int {
      var n := NumChannels(bandwidthHz);
      if n == 0 then FreqStartHz()
      else FreqStartHz() + bandwidthHz / 2 + (channelIndex % n) * bandwidthHz
    }

    function DefaultChannelIndex(preset: ModemPreset): u32 {
      var h := Djb2From(5381, preset.DisplayName());
      var n := Quotient(BandHz(), preset.BandwidthHz());
      if n == 0 then 0 else h % n
    }
  }

  predicate InsideBand(r: Region, bandwidthHz: u32, f: int) {
    r.FreqStartHz() <= f - bandwidthHz / 2 && f + bandwidthHz / 2 <= r.FreqEndHz()
  }

  lemma SlotsFit(band: nat, bw: nat, ch: nat)
    requires 0 < bw && ch < band / bw
    ensures 0 <= ch * bw && ch * bw + bw <= band
  {
    DivMod(band, bw);
    Monotone(bw, ch + 1, band / bw);
  }

  /** A planned slot lies inside the region's band exactly when the band holds at least one
      channel of that width; and then the 32-bit sum cannot wrap. */
  lemma PlannedSlotIsInsideIffAChannelFits(r: Region, bandwidthHz: u32, channelIndex: u32)
    requires bandwidthHz >= 2
    ensures InsideBand(r, bandwidthHz, r.FrequencyHz(bandwidthHz, channelIndex)) <==> r.NumChannels(bandwidthHz) > 0
    ensures r.FrequencyHz(bandwidthHz, channelIndex) < 0x1_0000_0000
  {
    var n := r.NumChannels(bandwidthHz);
    if n > 0 {
      SlotsFit(r.BandHz(), bandwidthHz, channelIndex % n);
    }
  }

  /** How far the centre of the slot of an index lies above the lower edge of the band. */
  function Centre(bandwidthHz: u32, channelIndex: u32, n: u32): nat
    requires n > 0
  {
    bandwidthHz / 2 + (channelIndex % n) * bandwidthHz
  }

  /** A transmission, which has the width the radio is set to, stays inside the band if and only if a
      channel fits and either the radio is set no wider than planned, or the centre of the slot is
      at least half its width from both edges. */
  lemma TransmissionIsInsideIff(r: Region, bandwidthHz: u32, channelIndex: u32)
    ensures var n, onAir := r.NumChannels(bandwidthHz), MapBandwidth(bandwidthHz);
            InsideBand(r, onAir, r.FrequencyHz(bandwidthHz, channelIndex)) <==>
              && n > 0
              && (onAir <= bandwidthHz || (onAir / 2 <= Centre(bandwidthHz, channelIndex, n)
                                           && Centre(bandwidthHz, channelIndex, n) + onAir / 2 <= r.BandHz()))
  {
    hide MapBandwidth;
    var n := r.NumChannels(bandwidthHz);
    if n > 0 {
      SlotsFit(r.BandHz(), bandwidthHz, channelIndex % n);
    }
  }

  /** Every index stays inside the band if and only if a channel fits and the radio is set no wider
      than planned: otherwise the first slot is too close to the edge. */
  lemma EveryIndexIsInsideIff(r: Region, bandwidthHz: u32)
    ensures (forall i: u32 :: InsideBand(r, MapBandwidth(bandwidthHz), r.FrequencyHz(bandwidthHz, i))) <==>
              r.NumChannels(bandwidthHz) > 0 && MapBandwidth(bandwidthHz) <= bandwidthHz
  {
    hide MapBandwidth, InsideBand, Region.FrequencyHz, Region.NumChannels;
    var n, onAir := r.NumChannels(bandwidthHz), MapBandwidth(bandwidthHz);
    forall i: u32
      ensures n > 0 && onAir <= bandwidthHz ==> InsideBand(r, onAir, r.FrequencyHz(bandwidthHz, i))
    {
      TransmissionIsInsideIff(r, bandwidthHz, i);
    }
    TransmissionIsInsideIff(r, bandwidthHz, 0);
    if n > 0 && onAir > bandwidthHz {
      assert Centre(bandwidthHz, 0, n) < onAir / 2;
    }
  }

  /** Wire code 100 in EU433: planned as ten slots of 100 kHz, sent 250 kHz wide, and the first slot
      begins 75 kHz below the band. */
  lemma Code100InEu433LeavesTheBand()
    ensures Eu433.NumChannels(BwCodeToHz(100)) == 10 && Eu433.FrequencyHz(BwCodeToHz(100), 0) == 433_050_000
    ensures MapBandwidth(BwCodeToHz(100)) == 250_000
    ensures !InsideBand(Eu433, 250_000, 433_050_000)
  {}

  lemma SlotsInOrder(bw: nat, a: nat, b: nat)
    requires a < b
    ensures a * bw + bw <= b * bw
  {
    Monotone(bw, a + 1, b);
  }

  /** Transmissions of a given width at two frequencies do not overlap. */
  predicate Apart(widthHz: u32, f: int, g: int) {
    f + widthHz / 2 <= g - widthHz / 2 || g + widthHz / 2 <= f - widthHz / 2
  }

  lemma SlotDistance(r: Region, bandwidthHz: u32, i: u32, j: u32)
    requires r.NumChannels(bandwidthHz) > 0
    ensures var n := r.NumChannels(bandwidthHz);
            r.FrequencyHz(bandwidthHz, i) - r.FrequencyHz(bandwidthHz, j) == (i % n - j % n) * bandwidthHz
  {
    var n := r.NumChannels(bandwidthHz);
    Difference(i % n, j % n, bandwidthHz);
  }

  lemma Difference(a: int, b: int, c: int)
    ensures a * c - b * c == (a - b) * c
  {}

  /** Two planned slots share a frequency when their indices agree modulo the channel count, and
      otherwise do not overlap. */
  lemma PlannedSlotsDoNotOverlap(r: Region, bandwidthHz: u32, i: u32, j: u32)
    requires r.NumChannels(bandwidthHz) > 0
    ensures var n := r.NumChannels(bandwidthHz);
            var f, g := r.FrequencyHz(bandwidthHz, i), r.FrequencyHz(bandwidthHz, j);
            if i % n == j % n then f == g else Apart(bandwidthHz, f, g)
  {
    var n := r.NumChannels(bandwidthHz);
    var a, b := i % n, j % n;
    if a < b {
      SlotsInOrder(bandwidthHz, a, b);
    } else if b < a {
      SlotsInOrder(bandwidthHz, b, a);
    }
  }

  /** Transmissions under two indices do not overlap if and only if their slots lie at least the width
      the radio is set to apart. */
  lemma TransmissionsAreApartIff(r: Region, bandwidthHz: u32, i: u32, j: u32)
    requires r.NumChannels(bandwidthHz) > 0
    ensures var n, onAir := r.NumChannels(bandwidthHz), MapBandwidth(bandwidthHz);
            Apart(onAir, r.FrequencyHz(bandwidthHz, i), r.FrequencyHz(bandwidthHz, j)) <==>
              Max(i % n - j % n, j % n - i % n) * bandwidthHz >= onAir
  {
    hide MapBandwidth, Region.FrequencyHz, Region.NumChannels;
    SlotDistance(r, bandwidthHz, i, j);
    SlotDistance(r, bandwidthHz, j, i);
  }

  /** Different slots never overlap on the air if and only if the radio is set no wider than planned, or
      there is but one slot. */
  lemma AllSlotsAreApartIff(r: Region, bandwidthHz: u32)
    requires r.NumChannels(bandwidthHz) > 0
    ensures var n, onAir := r.NumChannels(bandwidthHz), MapBandwidth(bandwidthHz);
            (forall i: u32, j: u32 :: i % n != j % n ==>
               Apart(onAir, r.FrequencyHz(bandwidthHz, i), r.FrequencyHz(bandwidthHz, j)))
            <==> onAir <= bandwidthHz || n == 1
  {
    hide MapBandwidth, Region.FrequencyHz, Region.NumChannels, Apart;
    var n, onAir := r.NumChannels(bandwidthHz), MapBandwidth(bandwidthHz);
    forall i: u32, j: u32 | i % n != j % n && onAir <= bandwidthHz
      ensures Apart(onAir, r.FrequencyHz(bandwidthHz, i), r.FrequencyHz(bandwidthHz, j))
    {
      TransmissionsAreApartIff(r, bandwidthHz, i, j);
      Monotone(bandwidthHz, 1, Max(i % n - j % n, j % n - i % n));
    }
    if n > 1 {
      TransmissionsAreApartIff(r, bandwidthHz, 0, 1);
      assert 0 % n == 0 && 1 % n == 1;
    }
  }

  lemma PresetBandwidthsPositive(p: ModemPreset)
    ensures p.BandwidthHz() >= 15_600
  {}

  /** The hashed default slot is a real slot of the plan whenever the band has one, so the
      default frequency is the centre of that very slot; and at a preset the radio is set as planned. */
  lemma DefaultChannelIsAValidIndex(r: Region, preset: ModemPreset)
    ensures r.NumChannels(preset.BandwidthHz()) > 0 ==>
              && r.DefaultChannelIndex(preset) < r.NumChannels(preset.BandwidthHz())
              && InsideBand(r, preset.BandwidthHz(), r.FrequencyHz(preset.BandwidthHz(), r.DefaultChannelIndex(preset)))
    ensures r.NumChannels(preset.BandwidthHz()) == 0 ==> r.DefaultChannelIndex(preset) == 0
    ensures MapBandwidth(preset.BandwidthHz()) == preset.BandwidthHz()
  {
    PresetBandwidthsPositive(preset);
    PlannedSlotIsInsideIffAChannelFits(r, preset.BandwidthHz(), r.DefaultChannelIndex(preset));
  }

  /** A preset wider than its region's band is tuned to the band edge, half outside it. */
  lemma ShortTurboInEu868LeavesTheBand()
    ensures Eu868.NumChannels(ShortTurbo.BandwidthHz()) == 0
    ensures forall i: u32 :: !InsideBand(Eu868, ShortTurbo.BandwidthHz(),
                                         Eu868.FrequencyHz(ShortTurbo.BandwidthHz(), i))
  {}
}
