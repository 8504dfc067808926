/** Saving the device configuration into its flash record and loading it back, in place. */
module ConfigStore {
  import opened Bytes
  import opened Utf8
  import opened Channels
  import opened RadioConfig
  import opened Device
  import opened Persistence

  method SavedConfigFromDevice(d: DeviceState) returns (c: SavedConfig)
    requires d.View().Bounded()
    ensures c == SavedConfigOf(d.View()) && c.Bounded()
  {
    hide ActiveChannels, BwHzToCode;
    SavedIsBounded(d.View());
    var active := ActiveChannels(d.channels);
    var saved: seq<SavedChannel> := [];
    for i := 0 to |active|
      invariant saved == SavedChannelsOf(active[..i])
    {
      assert active[..i + 1] == active[..i] + [active[i]];
      var ch := active[i];
      saved := saved + [SavedChannel(ch.index, ch.role.Code(), ch.psk, ch.name)];
    }
    assert active[..|active|] == active;
    c := SavedConfig(d.longName, d.shortName, d.region, d.modemPreset.Code(), d.role.Code(), saved, Flag(d.usePreset),
                     d.customSf, BwHzToCode(d.customBwHz), d.customCr, d.channelNum % 0x1_0000, d.hopLimit,
                     Flag(d.txEnabled), Flag(d.configOkToMqtt));
  }

  /** Write a length and the bytes over erased flash. */
  method WriteBytes(buf: array<u8>, off: nat, b: seq<u8>, ghost room: nat)
    requires |b| <= room < 0x100 && off + room + 1 <= buf.Length
    requires forall k :: off <= k < off + room + 1 ==> buf[k] == UNSET
    modifies buf
    ensures buf[..] == Splice(old(buf[..]), off, BytesField(b, room))
  {
    buf[off] := |b|;
    CopyInto(buf, off + 1, b);
  }

  method WriteChannel(buf: array<u8>, off: nat, c: SavedChannel)
    requires c.Bounded() && off + CHANNEL_SIZE <= buf.Length
    requires forall k :: off <= k < off + CHANNEL_SIZE ==> buf[k] == UNSET
    modifies buf
    ensures buf[..] == Splice(old(buf[..]), off, EncodeChannel(c))
  {
    hide BytesField, Splice;
    ghost var was := buf[..];
    buf[off] := c.index;
    buf[off + 1] := c.role;
    assert buf[..] == Splice(was, off, [c.index, c.role]);
    WriteBytes(buf, off + 2, c.psk, 32);
    WriteBytes(buf, off + 35, c.name, 12);
    ChannelIsFourWrites(was, off, c);
  }

  lemma ChannelIsFourWrites(b: seq<u8>, off: nat, c: SavedChannel)
    requires c.Bounded() && off + CHANNEL_SIZE <= |b|
    ensures Splice(Splice(Splice(b, off, [c.index, c.role]), off + 2, BytesField(c.psk, 32)), off + 35,
                   BytesField(c.name, 12))
            == Splice(b, off, EncodeChannel(c))
  {
    hide BytesField;
  }

  method WriteIdentity(buf: array<u8>, c: SavedConfig)
    requires c.Bounded() && buf.Length == CONFIG_SIZE && buf[..] == Filler(CONFIG_SIZE)
    modifies buf
    ensures buf[..] == EncodeIdentity(c) + Filler(CONFIG_SIZE - CHANNELS_AT)
  {
    hide LE32, BytesField, Splice;
    CopyInto(buf, 0, LE32(CONFIG_MAGIC));
    buf[4] := CONFIG_VERSION;
    WriteBytes(buf, 5, c.longName, 40);
    WriteBytes(buf, 46, c.shortName, 5);
    buf[52] := c.region;
    buf[53] := c.modemPreset;
    buf[54] := c.role;
    buf[55] := |c.channels|;
  }

  method WriteRadio(buf: array<u8>, c: SavedConfig)
    requires buf.Length == CONFIG_SIZE
    modifies buf
    ensures buf[..] == Splice(old(buf[..]), 440, EncodeRadio(c))
  {
    hide LE16, Splice;
    ghost var was := buf[..];
    buf[440] := c.usePreset;
    buf[441] := c.spreadFactor;
    var code, slot := LE16(c.bandwidthCode), LE16(c.channelNum);
    buf[442], buf[443] := code[0], code[1];
    buf[444] := c.codingRate;
    buf[445], buf[446] := slot[0], slot[1];
    buf[447] := c.hopLimit;
    buf[448] := c.txEnabled;
    buf[449] := c.configOkToMqtt;
    assert buf[440..450] == EncodeRadio(c);
    assert buf[..440] == was[..440] && buf[450..] == was[450..];
    assert buf[..] == buf[..440] + buf[440..450] + buf[450..];
    SpliceIs(was, 440, EncodeRadio(c));
  }

  /** The buffer once the identity and the first `i` channels are written. */
  ghost function Written(c: SavedConfig, i: nat): (b: seq<u8>)
    requires c.Bounded() && i <= |c.channels|
    ensures |b| == CONFIG_SIZE
  {
    EncodeIdentity(c) + EncodeChannels(c.channels[..i]) + Filler(CONFIG_SIZE - CHANNELS_AT - i * CHANNEL_SIZE)
  }

  method EncodeConfigBytes(c: SavedConfig) returns (bytes: seq<u8>)
    requires c.Bounded()
    ensures bytes == EncodeConfig(c)
  {
    hide EncodeConfig, EncodeIdentity, EncodeChannel, EncodeRadio, Written;
    var buf := new u8[CONFIG_SIZE](_ => UNSET);
    assert buf[..] == Filler(CONFIG_SIZE);
    WriteIdentity(buf, c);
    NothingWritten(c);
    for i := 0 to |c.channels|
      invariant buf[..] == Written(c, i)
    {
      ErasedAhead(c, i);
      NextChannel(c, i);
      WriteChannel(buf, CHANNELS_AT + i * CHANNEL_SIZE, c.channels[i]);
    }
    WriteRadio(buf, c);
    AllWritten(c);
    bytes := buf[..];
  }

  lemma NothingWritten(c: SavedConfig)
    requires c.Bounded()
    ensures Written(c, 0) == EncodeIdentity(c) + Filler(CONFIG_SIZE - CHANNELS_AT)
  {}

  lemma ErasedAhead(c: SavedConfig, i: nat)
    requires c.Bounded() && i < |c.channels|
    ensures forall k :: CHANNELS_AT + i * CHANNEL_SIZE <= k < CHANNELS_AT + i * CHANNEL_SIZE + CHANNEL_SIZE ==>
            Written(c, i)[k] == UNSET
  {
    hide EncodeIdentity;
  }

  lemma NextChannel(c: SavedConfig, i: nat)
    requires c.Bounded() && i < |c.channels|
    ensures Splice(Written(c, i), CHANNELS_AT + i * CHANNEL_SIZE, EncodeChannel(c.channels[i])) == Written(c, i + 1)
  {
    hide EncodeIdentity, EncodeChannel, Splice;
    assert c.channels[..i + 1][..i] == c.channels[..i];
    var front := EncodeIdentity(c) + EncodeChannels(c.channels[..i]);
    SpliceAfter(front, Filler(CONFIG_SIZE - CHANNELS_AT - i * CHANNEL_SIZE), EncodeChannel(c.channels[i]));
    assert EncodeIdentity(c) + (EncodeChannels(c.channels[..i]) + EncodeChannel(c.channels[i]))
           == front + EncodeChannel(c.channels[i]);
  }

  lemma AllWritten(c: SavedConfig)
    requires c.Bounded()
    ensures Splice(Written(c, |c.channels|), 440, EncodeRadio(c)) == EncodeConfig(c)
  {
    hide EncodeIdentity, EncodeChannels, EncodeRadio;
    assert c.channels[..|c.channels|] == c.channels;
  }

  lemma ReadBytesAt(b: seq<u8>, off: nat, room: nat)
    requires room < 0x100 && off + room + 1 <= |b|
    ensures ReadBytes(b[off..off + room + 1]) == b[off + 1..off + 1 + Min(b[off], room)]
  {
    SliceOfSlice(b, off, off + room + 1, 1, 1 + Min(b[off], room));
  }

  lemma SliceOfSlice(b: seq<u8>, lo: nat, hi: nat, i: nat, j: nat)
    requires lo <= hi <= |b| && i <= j <= hi - lo
    ensures b[lo..hi][i..j] == b[lo + i..lo + j]
  {
    var inner, outer := b[lo..hi][i..j], b[lo + i..lo + j];
    assert |inner| == |outer|;
    forall k | 0 <= k < j - i
      ensures inner[k] == outer[k]
    {
      assert inner[k] == b[lo..hi][i + k] && outer[k] == b[lo + i + k];
    }
  }

  lemma ReadChannelAt(b: seq<u8>, i: nat)
    requires |b| == CONFIG_SIZE && i < MAX_CHANNELS
    ensures var off := CHANNELS_AT + i * CHANNEL_SIZE;
            DecodeChannel(ChannelRegion(b, i))
            == SavedChannel(b[off], b[off + 1], b[off + 3..off + 3 + Min(b[off + 2], 32)],
                            b[off + 36..off + 36 + Min(b[off + 35], 12)])
  {
    hide ReadBytes;
    var off := CHANNELS_AT + i * CHANNEL_SIZE;
    ReadBytesAt(b, off + 2, 32);
    ReadBytesAt(b, off + 35, 12);
    assert ChannelRegion(b, i)[2..35] == b[off + 2..off + 35] && ChannelRegion(b, i)[35..48] == b[off + 35..off + 48];
  }

  method DecodeConfigBytes(b: seq<u8>) returns (r: Option<SavedConfig>)
    requires |b| == CONFIG_SIZE
    ensures r == DecodeConfig(b)
  {
    hide ReadBytes, DecodeChannel, ChannelRegion, FromLE16, FromLE32;
    if FromLE32(b[0..4]) != CONFIG_MAGIC || b[4] != CONFIG_VERSION {
      return None;
    }
    var n := Min(b[55], MAX_CHANNELS);
    var channels: seq<SavedChannel> := [];
    for i := 0 to n
      invariant channels == DecodeChannels(b, i)
    {
      var off := CHANNELS_AT + i * CHANNEL_SIZE;
      var pskLen, nameLen := Min(b[off + 2], 32), Min(b[off + 35], 12);
      ReadChannelAt(b, i);
      var ch := SavedChannel(b[off], b[off + 1], b[off + 3..off + 3 + pskLen], b[off + 36..off + 36 + nameLen]);
      channels := channels + [ch];
    }
    var slot := FromLE16(b[445..447]);
    ReadBytesAt(b, 5, 40);
    ReadBytesAt(b, 46, 5);
    r := Some(SavedConfig(b[6..6 + Min(b[5], 40)], b[47..47 + Min(b[46], 5)], b[52], b[53], b[54], channels,
                          b[440], b[441],
                          FromLE16(b[442..444]), b[444], if slot == 0xFFFF then 0 else slot,
                          if b[447] == UNSET then DEFAULT_HOP_LIMIT else b[447], if b[448] == UNSET then 1 else b[448],
                          if b[449] == 1 then 1 else 0));
  }

  method ApplySavedConfig(c: SavedConfig, d: DeviceState)
    modifies d
    ensures d.View() == Apply(c, old(d.View()))
  {
    hide ValidUtf8, PresetFromProto, BwCodeToHz, RoleFromProto, SetAllSaved;
    ApplySettings(c, d);
    ApplyChannels(c.channels, d);
  }

  method ApplySettings(c: SavedConfig, d: DeviceState)
    modifies d
    ensures d.View() == Apply(c, old(d.View())).(channels := old(d.channels))
  {
    hide ValidUtf8, PresetFromProto, BwCodeToHz, RoleFromProto, SetAllSaved, RestoredName;
    ApplyNames(c, d);
    ApplyModem(c, d);
    d.channelNum := c.channelNum;
    d.hopLimit := c.hopLimit;
    d.txEnabled := c.txEnabled != 0;
    d.configOkToMqtt := c.configOkToMqtt != 0;
    d.role := RoleFromProto(c.role);
  }

  method ApplyModem(c: SavedConfig, d: DeviceState)
    modifies d`region, d`modemPreset, d`usePreset, d`customSf, d`customBwHz, d`customCr
    ensures d.region == c.region && d.modemPreset == PresetFromProto(c.modemPreset) && d.usePreset == (c.usePreset != 0)
    ensures d.customSf == c.spreadFactor && d.customBwHz == BwCodeToHz(c.bandwidthCode) && d.customCr == c.codingRate
  {
    hide PresetFromProto, BwCodeToHz;
    d.region := c.region;
    d.modemPreset := PresetFromProto(c.modemPreset);
    d.usePreset := c.usePreset != 0;
    d.customSf := c.spreadFactor;
    d.customBwHz := BwCodeToHz(c.bandwidthCode);
    d.customCr := c.codingRate;
  }

  method ApplyNames(c: SavedConfig, d: DeviceState)
    modifies d`longName, d`shortName
    ensures d.longName == RestoredName(c.longName, old(d.longName))
            && d.shortName == RestoredName(c.shortName, old(d.shortName))
  {
    hide ValidUtf8;
    if c.longName != [] && ValidUtf8(c.longName) {
      d.longName := c.longName;
    }
    if c.shortName != [] && ValidUtf8(c.shortName) {
      d.shortName := c.shortName;
    }
  }

  method ApplyChannels(cs: seq<SavedChannel>, d: DeviceState)
    modifies d`channels
    ensures d.channels == SetAllSaved(old(d.channels), cs)
  {
    hide ValidUtf8;
    ghost var start := d.channels;
    for i := 0 to |cs|
      invariant d.channels == SetAllSaved(start, cs[..i])
    {
      assert cs[..i + 1][..i] == cs[..i];
      var sc := cs[i];
      if sc.role == 1 || sc.role == 2 {
        var name := if ValidUtf8(sc.name) then sc.name else [];
        assert name == RestoredName(sc.name, []);
        d.SetChannelAt(sc.index, ChannelConfig(sc.index, name, sc.psk, if sc.role == 1 then Primary else Secondary));
      }
    }
    assert cs[..|cs|] == cs;
  }
}
