/** The device configuration on flash: what is saved, its 512-byte layout, and what survives a
    reboot. */
module Persistence {
  import opened Bytes
  import opened Utf8
  import opened Channels
  import opened RadioConfig
  import opened Device

  const CONFIG_SIZE: nat := 512
  const CONFIG_MAGIC: u32 := 0x4D43_4647
  const CONFIG_VERSION: u8 := 2
  const CHANNELS_AT: nat := 56
  const CHANNEL_SIZE: nat := 48
  const UNSET: u8 := 0xFF

  datatype SavedChannel = SavedChannel(index: u8, role: u8, psk: seq<u8>, name: seq<u8>)
  {
    predicate Bounded() { |psk| <= 32 && |name| <= 12 }
  }

  datatype SavedConfig = SavedConfig(
    longName: seq<u8>,
    shortName: seq<u8>,
    region: u8,
    modemPreset: u8,
    role: u8,
    channels: seq<SavedChannel>,
    usePreset: u8,
    spreadFactor: u8,
    bandwidthCode: u16,
    codingRate: u8,
    channelNum: u16,
    hopLimit: u8,
    txEnabled: u8,
    configOkToMqtt: u8)
  {
    predicate Bounded() {
      |longName| <= 40 && |shortName| <= 5 && |channels| <= MAX_CHANNELS && forall c :: c in channels ==> c.Bounded()
    }
  }

  // ---- From the device ----

  function SavedChannelOf(c: ChannelConfig): SavedChannel { SavedChannel(c.index, c.role.Code(), c.psk, c.name) }

  function SavedChannelsOf(cs: seq<ChannelConfig>): (r: seq<SavedChannel>)
    ensures |r| == |cs| && forall i :: 0 <= i < |r| ==> r[i] == SavedChannelOf(cs[i])
  {
    seq(|cs|, i requires 0 <= i < |cs| => SavedChannelOf(cs[i]))
  }

  function SavedConfigOf(d: Device): SavedConfig {
    SavedConfig(d.longName, d.shortName, d.region, d.modemPreset.Code(), d.role.Code(),
                SavedChannelsOf(ActiveChannels(d.channels)), Flag(d.usePreset), d.customSf, BwHzToCode(d.customBwHz),
                d.customCr, d.channelNum % 0x1_0000, d.hopLimit, Flag(d.txEnabled), Flag(d.configOkToMqtt))
  }

  // ---- The layout ----

  function Filler(n: nat): (r: seq<u8>)
    ensures |r| == n && forall k :: 0 <= k < n ==> r[k] == UNSET
  {
    seq(n, _ => UNSET)
  }

  /** A length and the bytes, the rest left erased. */
  function BytesField(b: seq<u8>, room: nat): (r: seq<u8>)
    requires |b| <= room < 0x100
    ensures |r| == room + 1
  {
    [|b|] + b + Filler(room - |b|)
  }

  function EncodeChannel(c: SavedChannel): (r: seq<u8>)
    requires c.Bounded()
    ensures |r| == CHANNEL_SIZE
  {
    [c.index, c.role] + BytesField(c.psk, 32) + BytesField(c.name, 12)
  }

  function EncodeChannels(cs: seq<SavedChannel>): (r: seq<u8>)
    requires forall c :: c in cs ==> c.Bounded()
    ensures |r| == |cs| * CHANNEL_SIZE
  {
    if cs == [] then [] else EncodeChannels(cs[..|cs| - 1]) + EncodeChannel(cs[|cs| - 1])
  }

  function EncodeRadio(c: SavedConfig): (r: seq<u8>)
    ensures |r| == 10
  {
    [c.usePreset, c.spreadFactor] + LE16(c.bandwidthCode) + [c.codingRate] + LE16(c.channelNum)
    + [c.hopLimit, c.txEnabled, c.configOkToMqtt]
  }

  function EncodeIdentity(c: SavedConfig): (r: seq<u8>)
    requires c.Bounded()
    ensures |r| == CHANNELS_AT
  {
    LE32(CONFIG_MAGIC) + [CONFIG_VERSION] + BytesField(c.longName, 40) + BytesField(c.shortName, 5)
    + [c.region, c.modemPreset, c.role, |c.channels|]
  }

  function EncodeConfig(c: SavedConfig): (r: seq<u8>)
    requires c.Bounded()
    ensures |r| == CONFIG_SIZE
  {
    EncodeIdentity(c) + EncodeChannels(c.channels) + Filler((MAX_CHANNELS - |c.channels|) * CHANNEL_SIZE)
      + EncodeRadio(c) + Filler(62)
  }

  function ReadBytes(field: seq<u8>): (r: seq<u8>)
    requires 0 < |field| <= 0x100
    ensures |r| < |field|
  {
    field[1..1 + Min(field[0], |field| - 1)]
  }

  function DecodeChannel(b: seq<u8>): (c: SavedChannel)
    requires |b| == CHANNEL_SIZE
    ensures c.Bounded()
  {
    SavedChannel(b[0], b[1], ReadBytes(b[2..35]), ReadBytes(b[35..48]))
  }

  function ChannelRegion(b: seq<u8>, i: nat): (r: seq<u8>)
    requires |b| == CONFIG_SIZE && i < MAX_CHANNELS
    ensures |r| == CHANNEL_SIZE
  {
    b[CHANNELS_AT + i * CHANNEL_SIZE..CHANNELS_AT + i * CHANNEL_SIZE + CHANNEL_SIZE]
  }

  function DecodeChannels(b: seq<u8>, n: nat): (r: seq<SavedChannel>)
    requires |b| == CONFIG_SIZE && n <= MAX_CHANNELS
    ensures |r| == n && forall i :: 0 <= i < n ==> r[i] == DecodeChannel(ChannelRegion(b, i))
  {
    seq(n, i requires 0 <= i < n => DecodeChannel(ChannelRegion(b, i)))
  }

  /** Erased bytes mean the defaults: slot by hash, three hops, transmitting, no MQTT. */
  function DecodeConfig(b: seq<u8>): (r: Option<SavedConfig>)
    requires |b| == CONFIG_SIZE
    ensures r.Some? ==> r.value.Bounded()
  {
    var slot := FromLE16(b[445..447]);
    if FromLE32(b[0..4]) != CONFIG_MAGIC || b[4] != CONFIG_VERSION then None
    else
      Some(SavedConfig(ReadBytes(b[5..46]), ReadBytes(b[46..52]), b[52], b[53], b[54],
                       DecodeChannels(b, Min(b[55], MAX_CHANNELS)), b[440], b[441], FromLE16(b[442..444]), b[444],
                       if slot == 0xFFFF then 0 else slot,
                       if b[447] == UNSET then DEFAULT_HOP_LIMIT else b[447],
                       if b[448] == UNSET then 1 else b[448],
                       if b[449] == 1 then 1 else 0))
  }

  // ---- Reading back what was written ----

  /** What a stored configuration is read as. */
  function AsRead(c: SavedConfig): SavedConfig {
    c.(channelNum := if c.channelNum == 0xFFFF then 0 else c.channelNum,
       hopLimit := if c.hopLimit == UNSET then DEFAULT_HOP_LIMIT else c.hopLimit,
       txEnabled := if c.txEnabled == UNSET then 1 else c.txEnabled,
       configOkToMqtt := if c.configOkToMqtt == 1 then 1 else 0)
  }

  lemma BytesRoundTrip(b: seq<u8>, room: nat)
    requires |b| <= room < 0x100
    ensures ReadBytes(BytesField(b, room)) == b
  {}

  lemma ChannelRoundTrip(c: SavedChannel)
    requires c.Bounded()
    ensures DecodeChannel(EncodeChannel(c)) == c
  {
    var r := EncodeChannel(c);
    assert r[2..35] == BytesField(c.psk, 32) && r[35..48] == BytesField(c.name, 12);
    BytesRoundTrip(c.psk, 32);
    BytesRoundTrip(c.name, 12);
  }

  lemma {:induction false} ChannelOfSlot(cs: seq<SavedChannel>, i: nat)
    requires (forall c :: c in cs ==> c.Bounded()) && i < |cs|
    ensures EncodeChannels(cs)[i * CHANNEL_SIZE..i * CHANNEL_SIZE + CHANNEL_SIZE] == EncodeChannel(cs[i])
  {
    hide EncodeChannel;
    var init := cs[..|cs| - 1];
    if i < |init| {
      ChannelOfSlot(init, i);
      assert EncodeChannels(cs)[i * CHANNEL_SIZE..i * CHANNEL_SIZE + CHANNEL_SIZE]
             == EncodeChannels(init)[i * CHANNEL_SIZE..i * CHANNEL_SIZE + CHANNEL_SIZE];
    }
  }

  lemma FieldsOfConfig(c: SavedConfig)
    requires c.Bounded()
    ensures var b := EncodeConfig(c);
            && b[0..56] == EncodeIdentity(c) && b[440..450] == EncodeRadio(c)
            && forall i :: 0 <= i < |c.channels| ==> ChannelRegion(b, i) == EncodeChannel(c.channels[i])
  {
    hide EncodeChannels, EncodeChannel, EncodeIdentity, EncodeRadio;
    var b := EncodeConfig(c);
    forall i | 0 <= i < |c.channels|
      ensures ChannelRegion(b, i) == EncodeChannel(c.channels[i])
    {
      ChannelOfSlot(c.channels, i);
      assert ChannelRegion(b, i) == EncodeChannels(c.channels)[i * CHANNEL_SIZE..i * CHANNEL_SIZE + CHANNEL_SIZE];
    }
  }

  lemma IdentityRoundTrip(c: SavedConfig)
    requires c.Bounded()
    ensures var b := EncodeIdentity(c);
            && FromLE32(b[0..4]) == CONFIG_MAGIC && b[4] == CONFIG_VERSION
            && ReadBytes(b[5..46]) == c.longName && ReadBytes(b[46..52]) == c.shortName
            && b[52] == c.region && b[53] == c.modemPreset && b[54] == c.role && b[55] == |c.channels|
  {
    hide BytesField, ReadBytes;
    var b := EncodeIdentity(c);
    assert b[0..4] == LE32(CONFIG_MAGIC) && b[5..46] == BytesField(c.longName, 40)
           && b[46..52] == BytesField(c.shortName, 5);
    LE32RoundTrip(CONFIG_MAGIC);
    BytesRoundTrip(c.longName, 40);
    BytesRoundTrip(c.shortName, 5);
  }

  /** Every field comes back from the bytes it was written to: no two fields share a byte. */
  lemma ConfigRoundTrip(c: SavedConfig)
    requires c.Bounded()
    ensures DecodeConfig(EncodeConfig(c)) == Some(AsRead(c))
  {
    hide EncodeConfig, EncodeIdentity, EncodeChannel, DecodeChannel, ReadBytes, ChannelRegion, FromLE32, FromLE16, LE16;
    var b := EncodeConfig(c);
    FieldsOfConfig(c);
    IdentityRoundTrip(c);
    var id, radio := b[0..56], b[440..450];
    assert b[0..4] == id[0..4] && b[4] == id[4] && b[5..46] == id[5..46] && b[46..52] == id[46..52];
    assert b[52] == id[52] && b[53] == id[53] && b[54] == id[54] && b[55] == id[55];
    assert b[440] == radio[0] && b[441] == radio[1] && b[442..444] == radio[2..4] && b[444] == radio[4];
    assert b[445..447] == radio[5..7] && b[447] == radio[7] && b[448] == radio[8] && b[449] == radio[9];
    assert radio[2..4] == LE16(c.bandwidthCode) && radio[5..7] == LE16(c.channelNum);
    LE16RoundTrip(c.bandwidthCode);
    LE16RoundTrip(c.channelNum);
    forall i | 0 <= i < |c.channels|
      ensures DecodeChannel(ChannelRegion(b, i)) == c.channels[i]
    {
      ChannelRoundTrip(c.channels[i]);
    }
    assert DecodeChannels(b, |c.channels|) == c.channels;
  }

  // ---- Onto a device ----

  function RestoredName(saved: seq<u8>, current: seq<u8>): seq<u8> {
    if saved != [] && ValidUtf8(saved) then saved else current
  }

  /** The channel a saved one becomes, unless its role byte says it is none. */
  function ChannelOf(c: SavedChannel): Option<ChannelConfig> {
    if c.role != 1 && c.role != 2 then None
    else Some(ChannelConfig(c.index, RestoredName(c.name, []), c.psk, if c.role == 1 then Primary else Secondary))
  }

  function SetSaved(slots: ChannelSlots, c: SavedChannel): ChannelSlots {
    if ChannelOf(c).Some? then SetChannel(slots, c.index, ChannelOf(c).value) else slots
  }

  function SetAllSaved(slots: ChannelSlots, cs: seq<SavedChannel>): ChannelSlots {
    if cs == [] then slots else SetSaved(SetAllSaved(slots, cs[..|cs| - 1]), cs[|cs| - 1])
  }

  function Apply(c: SavedConfig, d: Device): Device {
    d.(longName := RestoredName(c.longName, d.longName), shortName := RestoredName(c.shortName, d.shortName),
       region := c.region, modemPreset := PresetFromProto(c.modemPreset), usePreset := c.usePreset != 0,
       customSf := c.spreadFactor, customBwHz := BwCodeToHz(c.bandwidthCode), customCr := c.codingRate,
       channelNum := c.channelNum, hopLimit := c.hopLimit, txEnabled := c.txEnabled != 0,
       configOkToMqtt := c.configOkToMqtt != 0, role := RoleFromProto(c.role),
       channels := SetAllSaved(d.channels, c.channels))
  }

  // ---- Surviving a reboot ----

  /** Every string is UTF-8, as the source's string type guarantees. */
  ghost predicate WellEncoded(d: Device) {
    && d.Bounded() && ValidUtf8(d.longName) && ValidUtf8(d.shortName)
    && forall i :: 0 <= i < MAX_CHANNELS && d.channels[i].Some? ==> ValidUtf8(d.channels[i].value.name)
  }

  /** The device after saving, losing power, and loading onto a factory-new one. */
  function Rebooted(d: Device, factory: Device): Device
    requires SavedConfigOf(d).Bounded()
  {
    match DecodeConfig(EncodeConfig(SavedConfigOf(d)))
    case None => factory
    case Some(c) => Apply(c, factory)
  }

  lemma SavedIsBounded(d: Device)
    requires d.Bounded()
    ensures SavedConfigOf(d).Bounded()
  {
    var cs := ActiveChannels(d.channels);
    forall s | s in SavedConfigOf(d).channels
      ensures s.Bounded()
    {
      var i :| 0 <= i < |cs| && s == SavedChannelOf(cs[i]);
      assert cs[i] in cs && Some(cs[i]) in d.channels;
    }
  }

  lemma RebootedIsApplied(d: Device, factory: Device)
    requires d.Bounded()
    ensures SavedConfigOf(d).Bounded() && Rebooted(d, factory) == Apply(AsRead(SavedConfigOf(d)), factory)
  {
    hide SavedConfigOf, DecodeConfig, EncodeConfig, Apply, AsRead;
    SavedIsBounded(d);
    ConfigRoundTrip(SavedConfigOf(d));
  }

  /** Each setting survives a reboot exactly when the condition beside it holds; those without
      one always do. */
  lemma SettingsSurviveIff(d: Device, mac: seq<u8>)
    requires WellEncoded(d) && |mac| == 6
    ensures SavedConfigOf(d).Bounded()
    ensures var r := Rebooted(d, NewDevice(mac));
            && (r.longName == d.longName <==> d.longName != []) && (r.shortName == d.shortName <==> d.shortName != [])
            && (r.customBwHz == d.customBwHz <==> BandwidthHasCode(d.customBwHz))
            && (r.channelNum == d.channelNum <==> d.channelNum < 0xFFFF)
            && (r.hopLimit == d.hopLimit <==> d.hopLimit != UNSET)
            && r.region == d.region && r.modemPreset == d.modemPreset && r.role == d.role
            && r.usePreset == d.usePreset && r.customSf == d.customSf && r.customCr == d.customCr
            && r.txEnabled == d.txEnabled && r.configOkToMqtt == d.configOkToMqtt
  {
    hide Rebooted, EncodeConfig, DecodeConfig, ValidUtf8, BwCodeToHz, BwHzToCode, BandwidthHasCode, SetAllSaved,
      ActiveChannels, NewDevice;
    RebootedIsApplied(d, NewDevice(mac));
    BandwidthSurvivesIffItHasACode(d.customBwHz);
    CodesRoundTrip(d.modemPreset, d.role);
  }

  lemma CodesRoundTrip(p: ModemPreset, r: DeviceRole)
    ensures PresetFromProto(p.Code()) == p && RoleFromProto(r.Code()) == r
  {}

  // ---- Channels ----

  /** Every channel is filed under its own index. */
  predicate FiledByIndex(slots: ChannelSlots) {
    forall i :: 0 <= i < MAX_CHANNELS && slots[i].Some? && slots[i].value.Active() ==> slots[i].value.index == i
  }

  /** Every active channel of `a` is in `b`, in the same slot. */
  predicate Preserves(a: ChannelSlots, b: ChannelSlots) {
    forall i :: 0 <= i < MAX_CHANNELS && a[i].Some? && a[i].value.Active() ==> b[i] == a[i]
  }

  /** `slots` holds in each slot only channels with that index. */
  ghost predicate Indexed(slots: ChannelSlots) {
    forall i :: 0 <= i < MAX_CHANNELS && slots[i].Some? ==> slots[i].value.index == i
  }

  lemma {:induction false} SettingKeepsIndexed(slots: ChannelSlots, cs: seq<SavedChannel>)
    requires Indexed(slots)
    ensures Indexed(SetAllSaved(slots, cs))
  {
    if cs != [] {
      SettingKeepsIndexed(slots, cs[..|cs| - 1]);
    }
  }

  lemma {:induction false} ActiveChannelsAppend(a: seq<Option<ChannelConfig>>, x: Option<ChannelConfig>)
    ensures ActiveChannels(a + [x]) == ActiveChannels(a) + if x.Some? && x.value.Active() then [x.value] else []
  {
    if a == [] {
      assert a + [x] == [x] && [x][1..] == [];
    } else {
      assert (a + [x])[1..] == a[1..] + [x];
      ActiveChannelsAppend(a[1..], x);
    }
  }

  lemma SavedChannelIsRestored(c: ChannelConfig)
    requires c.Active() && ValidUtf8(c.name)
    ensures ChannelOf(SavedChannelOf(c)) == Some(c) && SavedChannelOf(c).index == c.index
  {}

  /** The slots after restoring the active channels of the first `k` slots. */
  ghost predicate RestoredUpTo(slots: ChannelSlots, factory: ChannelSlots, k: nat, r: ChannelSlots) {
    forall i :: 0 <= i < MAX_CHANNELS ==>
      r[i] == if i < k && slots[i].Some? && slots[i].value.Active() then slots[i] else factory[i]
  }

  lemma {:induction false} FiledChannelsAreRestored(slots: ChannelSlots, factory: ChannelSlots, k: nat)
    requires FiledByIndex(slots) && k <= MAX_CHANNELS
    requires forall i :: 0 <= i < MAX_CHANNELS && slots[i].Some? ==> ValidUtf8(slots[i].value.name)
    ensures RestoredUpTo(slots, factory, k, SetAllSaved(factory, SavedChannelsOf(ActiveChannels(slots[..k]))))
  {
    hide ValidUtf8, ActiveChannels, ChannelOf, SavedChannelOf;
    if k == 0 {
      assert ActiveChannels(slots[..0]) == [] by {
        NoSlotsNoChannels();
      }
    } else {
      var x, before := slots[k - 1], ActiveChannels(slots[..k - 1]);
      FiledChannelsAreRestored(slots, factory, k - 1);
      assert slots[..k] == slots[..k - 1] + [x];
      ActiveChannelsAppend(slots[..k - 1], x);
      if x.Some? && x.value.Active() {
        SavedChannelIsRestored(x.value);
        var all := SavedChannelsOf(before + [x.value]);
        assert all[..|before|] == SavedChannelsOf(before) && all[|before|] == SavedChannelOf(x.value);
        assert SetAllSaved(factory, all)
               == SetChannel(SetAllSaved(factory, SavedChannelsOf(before)), x.value.index, x.value);
      } else {
        assert before + [] == before;
      }
    }
  }

  lemma NoSlotsNoChannels()
    ensures ActiveChannels([]) == []
  {}

  /** All active channels survive a reboot exactly when each is filed under its own index; then
      every other slot is as on a new device, so slot 0 never comes back empty. */
  lemma ChannelsSurviveIffFiledByIndex(d: Device, mac: seq<u8>)
    requires WellEncoded(d) && |mac| == 6
    ensures SavedConfigOf(d).Bounded()
    ensures var r := Rebooted(d, NewDevice(mac)).channels;
            && (Preserves(d.channels, r) <==> FiledByIndex(d.channels))
            && (FiledByIndex(d.channels) ==> RestoredUpTo(d.channels, NewChannels(), MAX_CHANNELS, r))
  {
    hide Rebooted, EncodeConfig, DecodeConfig, ValidUtf8, SetAllSaved, ActiveChannels, RestoredName, BwHzToCode,
      BwCodeToHz;
    RebootedIsApplied(d, NewDevice(mac));
    var saved := SavedChannelsOf(ActiveChannels(d.channels));
    var r := Rebooted(d, NewDevice(mac)).channels;
    assert r == SetAllSaved(NewChannels(), saved);
    SettingKeepsIndexed(NewChannels(), saved);
    if FiledByIndex(d.channels) {
      FiledChannelsAreRestored(d.channels, NewChannels(), MAX_CHANNELS);
      assert d.channels[..MAX_CHANNELS] == d.channels;
    }
  }
}
