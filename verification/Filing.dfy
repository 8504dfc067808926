/** Where channels are filed: always under their own index, which is what lets them survive reboots. */
module Filing {
  import opened Bytes
  import opened Channels
  import opened Device
  import opened Utf8
  import opened Persistence

  /** A channel as the phone sets it; an absent one carries no settings. */
  datatype ChannelUpdate = ChannelUpdate(index: i32, settings: Option<Settings>, role: i32)
  datatype Settings = Settings(name: seq<u8>, psk: seq<u8>)

  predicate ValidPskLength(n: nat) { n == 0 || n == 1 || n == 16 || n == 32 }

  function RoleOfUpdate(v: i32): ChannelRole {
    match v
    case 0 => Disabled
    case 1 => Primary
    case _ => Secondary
  }

  /** The channel an update asks for: its index cut to a byte, and no name at all when it is too long. */
  function ChannelOfUpdate(u: ChannelUpdate): (c: ChannelConfig)
    requires u.settings.Some?
    ensures c.index == u.index % 0x100
  {
    var name := u.settings.value.name;
    ChannelConfig(u.index % 0x100, if |name| <= 12 then name else [], u.settings.value.psk, RoleOfUpdate(u.role))
  }

  function HandleSetChannel(slots: ChannelSlots, u: ChannelUpdate): ChannelSlots {
    if u.settings.None? || !ValidPskLength(|u.settings.value.psk|) then slots
    else SetChannel(slots, u.index % 0x100, ChannelOfUpdate(u))
  }

  /** What happens to a device over its life, as far as its channels can tell: `Configure` is any change
      of the other settings, and a reboot loads what was saved onto a device as it left the factory. */
  datatype Change = Update(u: ChannelUpdate) | Configure(other: Device) | Reboot

  /** Strings of the phone's are UTF-8, and those of the device keep to their capacity. */
  ghost predicate Sound(c: Change) {
    match c
    case Update(u) => u.settings.Some? ==> ValidUtf8(u.settings.value.name)
    case Configure(other) => WellEncoded(other)
    case Reboot => true
  }

  ghost function Apply(d: Device, mac: seq<u8>, c: Change): Device
    requires |mac| == 6 && WellEncoded(d)
  {
    match c
    case Update(u) => d.(channels := HandleSetChannel(d.channels, u))
    case Configure(other) => other.(channels := d.channels)
    case Reboot => SavedIsBounded(d); Rebooted(d, NewDevice(mac))
  }

  /** Every channel of the device, active or not, is filed under its own index. */
  ghost predicate Filed(d: Device) { WellEncoded(d) && Indexed(d.channels) }

  lemma UpdatingKeepsFiled(d: Device, u: ChannelUpdate)
    requires Filed(d) && Sound(Update(u))
    ensures Filed(d.(channels := HandleSetChannel(d.channels, u)))
  {
    assert ValidUtf8([]);
  }

  lemma FactoryNewIsFiled(mac: seq<u8>)
    requires |mac| == 6
    ensures Filed(NewDevice(mac))
  {
    AsciiIsUtf8([]);
    AsciiIsUtf8(NewDevice(mac).shortName);
    AsciiIsUtf8(NewDevice(mac).longName);
  }

  lemma {:induction false} SettingKeepsEncoded(slots: ChannelSlots, cs: seq<SavedChannel>)
    requires ChannelsEncoded(slots) && forall c :: c in cs ==> c.Bounded()
    ensures ChannelsEncoded(SetAllSaved(slots, cs))
  {
    hide ValidUtf8;
    if cs != [] {
      assert cs[|cs| - 1] in cs;
      SettingKeepsEncoded(slots, cs[..|cs| - 1]);
      EmptyIsUtf8();
    }
  }

  lemma EmptyIsUtf8()
    ensures ValidUtf8([])
  {}

  ghost predicate ChannelsEncoded(slots: ChannelSlots) {
    forall i :: 0 <= i < MAX_CHANNELS && slots[i].Some? ==>
      |slots[i].value.name| <= 12 && |slots[i].value.psk| <= 32 && ValidUtf8(slots[i].value.name)
  }

  lemma RebootingKeepsFiled(d: Device, mac: seq<u8>)
    requires WellEncoded(d) && |mac| == 6
    ensures SavedConfigOf(d).Bounded() && Filed(Rebooted(d, NewDevice(mac)))
  {
    hide NewDevice, SetAllSaved, ValidUtf8, Rebooted;
    var factory := NewDevice(mac);
    FactoryNewIsFiled(mac);
    RebootedIsApplied(d, factory);
    var cs := SavedConfigOf(d).channels;
    assert AsRead(SavedConfigOf(d)).channels == cs;
    SettingKeepsEncoded(factory.channels, cs);
    SettingKeepsIndexed(factory.channels, cs);
  }

  /** The device after its life so far. */
  ghost function Life(mac: seq<u8>, cs: seq<Change>): (d: Device)
    requires |mac| == 6 && forall c :: c in cs ==> Sound(c)
    ensures Filed(d)
  {
    if cs == [] then
      FactoryNewIsFiled(mac);
      NewDevice(mac)
    else
      var d, last := Life(mac, cs[..|cs| - 1]), cs[|cs| - 1];
      ChangingKeepsFiled(d, mac, last);
      Apply(d, mac, last)
  }

  lemma ChangingKeepsFiled(d: Device, mac: seq<u8>, c: Change)
    requires Filed(d) && |mac| == 6 && Sound(c)
    ensures Filed(Apply(d, mac, c))
  {
    hide ValidUtf8, Rebooted, HandleSetChannel;
    match c
    case Update(u) => UpdatingKeepsFiled(d, u);
    case Configure(other) =>
    case Reboot => RebootingKeepsFiled(d, mac);
  }

  /** Whatever a device went through since it left the factory, reboots included, a reboot brings back
      every active channel in its slot. */
  lemma ActiveChannelsAlwaysSurvive(mac: seq<u8>, cs: seq<Change>)
    requires |mac| == 6 && forall c :: c in cs ==> Sound(c)
    ensures var d := Life(mac, cs);
            && SavedConfigOf(d).Bounded() && Preserves(d.channels, Rebooted(d, NewDevice(mac)).channels)
            && RestoredUpTo(d.channels, NewChannels(), MAX_CHANNELS, Rebooted(d, NewDevice(mac)).channels)
  {
    hide Rebooted, NewDevice, Life, ValidUtf8;
    ChannelsSurviveIffFiledByIndex(Life(mac, cs), mac);
  }
}
