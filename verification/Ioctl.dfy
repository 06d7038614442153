/** The frame the receiver hands to the driver. */
module Ioctl {
  import opened Words
  import opened Wire

  const ABI_VERSION: U32 := 2
  const SLOTS := 5
  const IOCTL_RESET := 1
  const IOCTL_BUTTON := 2

  datatype IoctlContact = IoctlContact(slot: Byte, flags: Byte, x: U16, y: U16, reserved: U16)

  const UNUSED := IoctlContact(0, 0, 0, 0, 0)

  datatype IoctlFrame = IoctlFrame(
    abiVersion: U32, sequence: U32, flags: U32, scanTime: U16,
    activeCount: Byte, reportCount: Byte, contacts: seq<IoctlContact>)

  /** The contact entries that are meant: the array always has five. */
  function Records(f: IoctlFrame): seq<IoctlContact>
    requires f.reportCount <= |f.contacts|
  {
    f.contacts[..f.reportCount]
  }

  /** What a list of records says last about a slot. */
  function SlotRecord(records: seq<IoctlContact>, slot: nat): Option<IoctlContact> {
    if records == [] then None
    else
      var n := |records| - 1;
      if records[n].slot == slot then Some(records[n]) else SlotRecord(records[..n], slot)
  }

  function TipCount(records: seq<IoctlContact>): nat {
    if records == [] then 0
    else
      var n := |records| - 1;
      TipCount(records[..n]) + if HasBit(records[n].flags, TIP) then 1 else 0
  }

  /** Everything the driver checks, and what it would otherwise repair: no slot
      is named twice, no coordinate needs clamping, the active count is the
      number of tips. */
  ghost predicate FitForDriver(f: IoctlFrame) {
    && f.abiVersion == ABI_VERSION
    && f.flags <= IOCTL_RESET + IOCTL_BUTTON
    && |f.contacts| == SLOTS && f.reportCount <= SLOTS
    && f.activeCount == TipCount(Records(f)) <= SLOTS
    && (forall i :: 0 <= i < f.reportCount ==> FitRecord(f.contacts[i]))
    && (forall i, j :: 0 <= i < j < f.reportCount ==> f.contacts[i].slot < f.contacts[j].slot)
  }

  predicate FitRecord(c: IoctlContact) {
    c.slot < SLOTS && c.flags <= CONTACT_FLAGS && c.reserved == 0 && c.x <= 32767 && c.y <= 32767
  }
}
