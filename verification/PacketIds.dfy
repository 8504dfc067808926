/** Which packet ids a node hands out, and so which nonces its channel encryption uses. */
module PacketIds {
  import opened Bytes
  import opened Device
  import opened Crypto
  import opened Persistence

  /** The device after handing out `k` ids. */
  function After(dev: Device, k: nat): Device
    decreases k
  {
    if k == 0 then dev else After(dev, k - 1).AfterPacketId()
  }

  /** The `k`-th id a node hands out, counting from one. */
  function IdHandedOut(dev: Device, k: nat): u32 { After(dev, k).nextPacketId }

  lemma {:induction false} CounterAfter(dev: Device, k: nat)
    ensures IdHandedOut(dev, k) == (dev.nextPacketId + k) % 0x1_0000_0000
    ensures After(dev, k).myNodeNum == dev.myNodeNum
  {
    if k > 0 {
      CounterAfter(dev, k - 1);
      OneFurther(dev.nextPacketId + k - 1);
    }
  }

  lemma OneFurther(n: nat)
    ensures (n % 0x1_0000_0000 + 1) % 0x1_0000_0000 == (n + 1) % 0x1_0000_0000
  {}

  /** Two ids handed out within one boot are the same if and only if a multiple of 2^32 were handed
      out between them. */
  lemma IdsRepeatIff(dev: Device, j: nat, k: nat)
    ensures IdHandedOut(dev, j) == IdHandedOut(dev, k) <==> (k - j) % 0x1_0000_0000 == 0
  {
    hide IdHandedOut;
    CounterAfter(dev, j);
    CounterAfter(dev, k);
    SameResidueIff(dev.nextPacketId + j, dev.nextPacketId + k);
  }

  lemma SameResidueIff(a: nat, b: nat)
    ensures a % 0x1_0000_0000 == b % 0x1_0000_0000 <==> (b - a) % 0x1_0000_0000 == 0
  {}

  /** No two packets under ids of our own choosing share a nonce within one boot, unless 2^32 ids or
      more lie between them. */
  lemma NoncesAreFreshWithinABoot(dev: Device, j: nat, k: nat)
    requires j < k < j + 0x1_0000_0000
    ensures Nonce(IdHandedOut(dev, j), dev.myNodeNum) != Nonce(IdHandedOut(dev, k), dev.myNodeNum)
  {
    hide Nonce, IdHandedOut;
    IdsRepeatIff(dev, j, k);
    if Nonce(IdHandedOut(dev, j), dev.myNodeNum) == Nonce(IdHandedOut(dev, k), dev.myNodeNum) {
      NonceIsInjective(IdHandedOut(dev, j), dev.myNodeNum, IdHandedOut(dev, k), dev.myNodeNum);
    }
  }

  /** The counter is not saved: whatever it had reached, the ids handed out after a reboot, and so the
      nonces, are those handed out after the device was first switched on. */
  lemma NoncesRepeatAfterAReboot(d: Device, mac: seq<u8>, k: nat)
    requires d.Bounded() && |mac| == 6
    ensures SavedConfigOf(d).Bounded()
    ensures var first, again := NewDevice(mac), Rebooted(d, NewDevice(mac));
            && IdHandedOut(again, k) == IdHandedOut(first, k)
            && Nonce(IdHandedOut(again, k), again.myNodeNum) == Nonce(IdHandedOut(first, k), first.myNodeNum)
  {
    hide NewDevice, Nonce, IdHandedOut, Rebooted, AsRead, SavedConfigOf;
    RebootedIsApplied(d, NewDevice(mac));
    CounterAfter(Rebooted(d, NewDevice(mac)), k);
    CounterAfter(NewDevice(mac), k);
  }
}
