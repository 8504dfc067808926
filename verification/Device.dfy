/** Node identity and configuration. */
module Device {
  import opened Bytes
  import opened Channels
  import opened RadioConfig

  const DEFAULT_HOP_LIMIT: u8 := 3

  datatype DeviceRole =
    | Client | ClientMute | Router | RouterClient | Repeater | Tracker | Sensor | Tak | ClientHidden
    | LostAndFound | TakTracker | RouterLate | ClientBase
  {
    function Code(): u8 {
      match this
      case Client => 0
      case ClientMute => 1
      case Router => 2
      case RouterClient => 3
      case Repeater => 4
      case Tracker => 5
      case Sensor => 6
      case Tak => 7
      case ClientHidden => 8
      case LostAndFound => 9
      case TakTracker => 10
      case RouterLate => 11
      case ClientBase => 12
    }
  }

  function RoleFromProto(v: u8): (r: DeviceRole)
    ensures v <= 12 ==> r.Code() == v
    ensures v > 12 ==> r == Client
  {
    match v
    case 1 => ClientMute
    case 2 => Router
    case 3 => RouterClient
    case 4 => Repeater
    case 5 => Tracker
    case 6 => Sensor
    case 7 => Tak
    case 8 => ClientHidden
    case 9 => LostAndFound
    case 10 => TakTracker
    case 11 => RouterLate
    case 12 => ClientBase
    case _ => Client
  }

  /** The device state as a value. */
  datatype Device = Device(
    myNodeNum: u32,
    shortName: seq<u8>,
    longName: seq<u8>,
    role: DeviceRole,
    modemPreset: ModemPreset,
    region: u8,
    usePreset: bool,
    customSf: u8,
    customBwHz: u32,
    customCr: u8,
    channelNum: u32,
    hopLimit: u8,
    txEnabled: bool,
    configOkToMqtt: bool,
    channels: ChannelSlots,
    nextPacketId: u32)
  {
    function PresetName(): seq<u8> { modemPreset.DisplayName() }

    function LastByte(): u8 { myNodeNum % 0x100 }

    /** Hand out the next packet id; the counter wraps. */
    function AfterPacketId(): Device { this.(nextPacketId := (nextPacketId + 1) % 0x1_0000_0000) }

    /** Bounds the fixed-size strings and vectors of the firmware impose. */
    predicate Bounded() {
      && |shortName| <= 5 && |longName| <= 40
      && forall i :: 0 <= i < MAX_CHANNELS && channels[i].Some? ==>
           |channels[i].value.name| <= 12 && |channels[i].value.psk| <= 32
    }
  }

  function HexDigit(n: u8): u8
    requires n < 16
  {
    if n < 10 then 48 + n else 87 + n
  }

  function HexByte(b: u8): (s: seq<u8>)
    ensures |s| == 2
  {
    [HexDigit(b / 16), HexDigit(b % 16)]
  }

  /** A factory-new device, named after the last bytes of its MAC address. */
  function NewDevice(mac: seq<u8>): (d: Device)
    requires |mac| == 6
    ensures d.Bounded() && d.longName != [] && d.shortName != []
  {
    var num := FromLE32([mac[5], mac[4], mac[3], mac[2]]);
    var shortName := HexByte(mac[4]) + HexByte(mac[5]);
    Device(num, shortName, Ascii("Meshtastic ") + shortName, Client, LongFast, 2, true, 11, 250_000, 5, 0,
           DEFAULT_HOP_LIMIT, true, false, NewChannels(), num)
  }

  /** The device state as the firmware keeps it, changed field by field. */
  class DeviceState {
    const myNodeNum: u32
    var shortName: seq<u8>
    var longName: seq<u8>
    var role: DeviceRole
    var modemPreset: ModemPreset
    var region: u8
    var usePreset: bool
    var customSf: u8
    var customBwHz: u32
    var customCr: u8
    var channelNum: u32
    var hopLimit: u8
    var txEnabled: bool
    var configOkToMqtt: bool
    var channels: ChannelSlots
    var nextPacketId: u32

    function View(): Device
      reads this
    {
      Device(myNodeNum, shortName, longName, role, modemPreset, region, usePreset, customSf, customBwHz, customCr,
             channelNum, hopLimit, txEnabled, configOkToMqtt, channels, nextPacketId)
    }

    constructor (mac: seq<u8>)
      requires |mac| == 6
      ensures View() == NewDevice(mac)
    {
      var d := NewDevice(mac);
      myNodeNum, shortName, longName, role := d.myNodeNum, d.shortName, d.longName, Client;
      modemPreset, region, usePreset := LongFast, 2, true;
      customSf, customBwHz, customCr, channelNum := 11, 250_000, 5, 0;
      hopLimit, txEnabled, configOkToMqtt := DEFAULT_HOP_LIMIT, true, false;
      channels, nextPacketId := NewChannels(), d.myNodeNum;
    }

    /** Take over the settings a handler worked out; the node number is fixed for life. */
    method Adopt(d: Device)
      requires d.myNodeNum == myNodeNum
      modifies this
      ensures View() == d
    {
      AdoptRadio(d);
      shortName, longName, role := d.shortName, d.longName, d.role;
      configOkToMqtt, channels, nextPacketId := d.configOkToMqtt, d.channels, d.nextPacketId;
    }

    method AdoptRadio(d: Device)
      modifies `modemPreset, `region, `usePreset, `customSf, `customBwHz, `customCr, `channelNum, `hopLimit, `txEnabled
      ensures modemPreset == d.modemPreset && region == d.region && usePreset == d.usePreset
      ensures customSf == d.customSf && customBwHz == d.customBwHz && customCr == d.customCr
      ensures channelNum == d.channelNum && hopLimit == d.hopLimit && txEnabled == d.txEnabled
    {
      modemPreset, region, usePreset := d.modemPreset, d.region, d.usePreset;
      customSf, customBwHz, customCr := d.customSf, d.customBwHz, d.customCr;
      channelNum, hopLimit, txEnabled := d.channelNum, d.hopLimit, d.txEnabled;
    }

    /** The counter wraps at 32 bits. */
    method NextPacketId() returns (id: u32)
      modifies `nextPacketId
      ensures View() == old(View()).AfterPacketId() && id == View().nextPacketId
    {
      nextPacketId := (nextPacketId + 1) % 0x1_0000_0000;
      id := nextPacketId;
    }

    method SetChannelAt(index: u8, c: ChannelConfig)
      modifies `channels
      ensures View() == old(View()).(channels := SetChannel(old(channels), index, c))
    {
      if index < MAX_CHANNELS {
        channels := channels[index := Some(c)];
      }
    }
  }
}
