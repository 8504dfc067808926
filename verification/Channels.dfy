/** Channels: keys, hashes and the eight-slot set. */
module Channels {
  import opened Bytes
  import opened Bits

  const MAX_CHANNELS: nat := 8
  const DEFAULT_PSK: seq<u8> :=
    [0xd4, 0xf1, 0xbb, 0x3a, 0x20, 0x29, 0x07, 0x59, 0xf0, 0xbc, 0xff, 0xab, 0xcf, 0x4e, 0x69, 0x01]

  datatype ChannelRole = Disabled | Primary | Secondary
  {
    function Code(): u8 {
      match this
      case Disabled => 0
      case Primary => 1
      case Secondary => 2
    }
  }

  datatype ChannelConfig = ChannelConfig(index: u8, name: seq<u8>, psk: seq<u8>, role: ChannelRole)
  {
    function EffectivePsk(): seq<u8> { if psk == [0x01] then DEFAULT_PSK else psk }

    predicate IsEncrypted() { psk != [] }

    function EffectiveName(presetName: seq<u8>): seq<u8> { if name == [] then presetName else name }

    function Hash(presetName: seq<u8>): u8 {
      XorFold(XorFold(0, EffectiveName(presetName)), EffectivePsk())
    }

    predicate Active() { role != Disabled }
  }

  function XorFold(h: u8, b: seq<u8>): u8
    decreases |b|
  {
    if b == [] then h else XorFold(Xor(h, b[0]), b[1..])
  }

  function DefaultPrimary(): ChannelConfig { ChannelConfig(0, [], [0x01], Primary) }

  method HashOf(c: ChannelConfig, presetName: seq<u8>) returns (h: u8)
    ensures h == c.Hash(presetName)
  {
    var name := c.EffectiveName(presetName);
    h := 0;
    for i := 0 to |name|
      invariant XorFold(h, name[i..]) == XorFold(0, name)
    {
      assert name[i..][1..] == name[i + 1..];
      h := Xor(h, name[i]);
    }
    var psk := c.EffectivePsk();
    ghost var named := h;
    for i := 0 to |psk|
      invariant XorFold(h, psk[i..]) == XorFold(named, psk)
    {
      assert psk[i..][1..] == psk[i + 1..];
      h := Xor(h, psk[i]);
    }
  }

  type ChannelSlots = s: seq<Option<ChannelConfig>> | |s| == MAX_CHANNELS witness NoChannels()

  function NoChannels(): (s: seq<Option<ChannelConfig>>)
    ensures |s| == MAX_CHANNELS
  {
    [None, None, None, None, None, None, None, None]
  }

  function NewChannels(): ChannelSlots { NoChannels()[0 := Some(DefaultPrimary())] }

  /** The first occupied slot, in order, whose channel satisfies `p`. */
  function FindFrom(s: seq<Option<ChannelConfig>>, p: ChannelConfig -> bool): (r: Option<ChannelConfig>)
    ensures r.Some? ==> r in s && p(r.value)
    ensures r.None? ==> forall c :: c in s && c.Some? ==> !p(c.value)
  {
    if s == [] then None
    else if s[0].Some? && p(s[0].value) then s[0]
    else FindFrom(s[1..], p)
  }

  /** The channel found is the first that qualifies, so a hash collision always resolves the same
      way. */
  lemma {:induction false} FindsTheFirst(s: seq<Option<ChannelConfig>>, p: ChannelConfig -> bool) returns (i: nat)
    requires FindFrom(s, p).Some?
    ensures i < |s| && s[i] == FindFrom(s, p)
    ensures forall k :: 0 <= k < i && s[k].Some? ==> !p(s[k].value)
  {
    if s[0].Some? && p(s[0].value) {
      i := 0;
    } else {
      i := FindsTheFirst(s[1..], p);
      i := i + 1;
    }
  }

  function GetChannel(s: ChannelSlots, index: u8): Option<ChannelConfig> {
    if index < MAX_CHANNELS then s[index] else None
  }

  function SetChannel(s: ChannelSlots, index: u8, c: ChannelConfig): ChannelSlots {
    if index < MAX_CHANNELS then s[index := Some(c)] else s
  }

  function HasHash(hash: u8, presetName: seq<u8>): ChannelConfig -> bool {
    (c: ChannelConfig) => c.Active() && c.Hash(presetName) == hash
  }

  function FindByHash(s: ChannelSlots, hash: u8, presetName: seq<u8>): Option<ChannelConfig> {
    FindFrom(s, HasHash(hash, presetName))
  }

  function PrimaryChannel(s: ChannelSlots): Option<ChannelConfig> {
    FindFrom(s, (c: ChannelConfig) => c.role == Primary)
  }

  /** The active channels in slot order. */
  function ActiveChannels(s: seq<Option<ChannelConfig>>): (r: seq<ChannelConfig>)
    ensures |r| <= |s|
    ensures forall c :: c in r <==> Some(c) in s && c.Active()
  {
    if s == [] then []
    else (if s[0].Some? && s[0].value.Active() then [s[0].value] else []) + ActiveChannels(s[1..])
  }
}
