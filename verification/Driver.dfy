/** The driver's conversion of a frame to the HID input report it submits. */
module Driver {
  import opened Words
  import opened Wire
  import opened Ioctl

  const REPORT_ID_INPUT: Byte := 0x05
  const REPORT_SIZE: U16 := 50
  const COORDINATE_MAX := 32767
  const STATUS_INVALID_PARAMETER: U32 := 0xc000_000d

  const HID_CONFIDENCE := 1
  const HID_TIP := 2

  datatype HidContact = HidContact(flags: Byte, contactId: U32, x: U16, y: U16)

  const NO_CONTACT := HidContact(0, 0, 0, 0)

  datatype HidReport = HidReport(
    reportId: Byte, contacts: seq<HidContact>, scanTime: U16, contactCount: Byte, button: Byte)

  predicate HeaderAccepted(f: IoctlFrame) {
    && f.abiVersion == ABI_VERSION
    && f.flags <= IOCTL_RESET + IOCTL_BUTTON
    && f.activeCount <= SLOTS && f.reportCount <= SLOTS
  }

  predicate RecordAccepted(c: IoctlContact) {
    c.slot < SLOTS && c.reserved == 0 && c.flags <= CONTACT_FLAGS
  }

  predicate Accepted(f: IoctlFrame)
    requires |f.contacts| == SLOTS
  {
    HeaderAccepted(f) && forall i :: 0 <= i < f.reportCount ==> RecordAccepted(f.contacts[i])
  }

  function Min(a: U16, b: U16): U16 { if a > b then b else a }

  function HidOf(c: IoctlContact): HidContact {
    var confidence := if HasBit(c.flags, CONFIDENCE) then HID_CONFIDENCE else 0;
    var tip := if HasBit(c.flags, TIP) then HID_TIP else 0;
    HidContact(confidence + tip, c.slot, Min(c.x, COORDINATE_MAX), Min(c.y, COORDINATE_MAX))
  }

  /** What the report says of a slot: the last record that names it, else zero. */
  function HidAt(records: seq<IoctlContact>, slot: nat): HidContact {
    match SlotRecord(records, slot) case Some(c) => HidOf(c) case None => NO_CONTACT
  }

  function NextScanTime(last: U16, f: IoctlFrame): U16 {
    if f.scanTime != 0 then last else Wrap16(last + 1)
  }

  function ReportOf(f: IoctlFrame, last: U16): HidReport
    requires f.reportCount <= |f.contacts|
  {
    var r := Records(f);
    HidReport(REPORT_ID_INPUT, [HidAt(r, 0), HidAt(r, 1), HidAt(r, 2), HidAt(r, 3), HidAt(r, 4)],
              if f.scanTime != 0 then f.scanTime else Wrap16(last + 1), f.activeCount,
              if HasBit(f.flags, IOCTL_BUTTON) then 1 else 0)
  }

  class DeviceContext {
    var lastScanTime: U16
    var submitCount: U32
    var lastSubmitStatus: U32
    var lastReportSize: U16
    var lastActiveContactCount: Byte
    ghost var reports: seq<HidReport>

    constructor ()
      ensures lastScanTime == 0 && reports == []
    {
      lastScanTime, submitCount, lastReportSize, lastActiveContactCount := 0, 0, 0, 0;
      lastSubmitStatus := 0xc000_0225;
      reports := [];
    }

    /** `vhfStatus` is what the virtual HID framework answers to the report.
        A frame with an unacceptable record has already advanced the fallback
        scan time when it is refused. */
    method SubmitIoctlFrame(input: IoctlFrame, vhfStatus: U32) returns (status: U32)
      requires |input.contacts| == SLOTS
      modifies this
      ensures Accepted(input) ==>
        && status == lastSubmitStatus == vhfStatus
        && reports == old(reports) + [ReportOf(input, old(lastScanTime))]
        && submitCount == Wrap32(old(submitCount) + 1)
        && lastReportSize == REPORT_SIZE && lastActiveContactCount == input.activeCount
      ensures !Accepted(input) ==>
        && status == STATUS_INVALID_PARAMETER
        && reports == old(reports) && submitCount == old(submitCount)
        && lastSubmitStatus == old(lastSubmitStatus) && lastReportSize == old(lastReportSize)
        && lastActiveContactCount == old(lastActiveContactCount)
      ensures lastScanTime
        == if HeaderAccepted(input) then NextScanTime(old(lastScanTime), input) else old(lastScanTime)
    {
      hide HidAt, HasBit, RecordAccepted;
      if input.abiVersion != ABI_VERSION || input.flags > IOCTL_RESET + IOCTL_BUTTON
         || input.activeCount > SLOTS || input.reportCount > SLOTS {
        return STATUS_INVALID_PARAMETER;
      }
      var scanTime := input.scanTime;
      if scanTime == 0 {
        lastScanTime := Wrap16(lastScanTime + 1);
        scanTime := lastScanTime;
      }
      var contacts := new HidContact[SLOTS](_ => NO_CONTACT);
      var accepted := FillContacts(input, contacts);
      if !accepted {
        return STATUS_INVALID_PARAMETER;
      }
      assert contacts[..] == ReportOf(input, old(lastScanTime)).contacts;
      ghost var report := HidReport(REPORT_ID_INPUT, contacts[..], scanTime, input.activeCount,
                                    if HasBit(input.flags, IOCTL_BUTTON) then 1 else 0);
      assert report == ReportOf(input, old(lastScanTime));
      lastReportSize := REPORT_SIZE;
      lastActiveContactCount := input.activeCount;
      reports := reports + [report];
      lastSubmitStatus := vhfStatus;
      submitCount := Wrap32(submitCount + 1);
      status := lastSubmitStatus;
    }
  }

  /** Puts each record on its slot of a zeroed report, up to the first that is
      unacceptable. */
  method FillContacts(input: IoctlFrame, contacts: array<HidContact>) returns (accepted: bool)
    requires |input.contacts| == contacts.Length == SLOTS && input.reportCount <= SLOTS
    requires forall s :: 0 <= s < SLOTS ==> contacts[s] == NO_CONTACT
    modifies contacts
    ensures accepted <==> forall i :: 0 <= i < input.reportCount ==> RecordAccepted(input.contacts[i])
    ensures accepted ==> forall s :: 0 <= s < SLOTS ==> contacts[s] == HidAt(Records(input), s)
  {
    hide HidAt, HidOf;
    NoRecords();
    for index := 0 to input.reportCount
      invariant forall i :: 0 <= i < index ==> RecordAccepted(input.contacts[i])
      invariant forall s :: 0 <= s < SLOTS ==> contacts[s] == HidAt(input.contacts[..index], s)
    {
      var source := input.contacts[index];
      if source.slot >= SLOTS || source.reserved != 0 || source.flags > CONTACT_FLAGS {
        assert !RecordAccepted(input.contacts[index]);
        return false;
      }
      NextRecord(input.contacts, index);
      contacts[source.slot] := HidOf(source);
    }
    accepted := true;
  }

  lemma {:induction false} NoRecords()
    ensures forall s: nat :: HidAt([], s) == NO_CONTACT
  {
  }

  lemma {:induction false} NextRecord(records: seq<IoctlContact>, n: nat)
    requires n < |records|
    ensures HidAt(records[..n + 1], records[n].slot) == HidOf(records[n])
    ensures forall s: nat :: s != records[n].slot ==> HidAt(records[..n + 1], s) == HidAt(records[..n], s)
  {
    hide HidOf;
    assert records[..n + 1][..n] == records[..n];
  }

  /** Exactly the frames the driver takes, in plain numbers. */
  lemma {:induction false} AcceptedMeans(f: IoctlFrame)
    requires |f.contacts| == 5
    ensures Accepted(f) <==>
      && f.abiVersion == 2 && f.flags <= 3 && f.activeCount <= 5 && f.reportCount <= 5
      && forall i :: 0 <= i < f.reportCount ==>
           f.contacts[i].slot <= 4 && f.contacts[i].reserved == 0 && f.contacts[i].flags <= 7
  {
  }

  /** The report of any frame the driver takes, fit or not: what the last record for a
      slot says, with its coordinates cut at the logical maximum, and zeros elsewhere. */
  lemma {:induction false} AcceptedReported(f: IoctlFrame, last: U16, s: nat)
    requires |f.contacts| == SLOTS && Accepted(f) && s < SLOTS
    ensures var report := ReportOf(f, last);
      && |report.contacts| == 5 && report.reportId == 5 && report.contactCount == f.activeCount
      && report.button == (if HasBit(f.flags, 2) then 1 else 0)
      && match SlotRecord(Records(f), s)
         case None => report.contacts[s] == HidContact(0, 0, 0, 0)
         case Some(c) =>
           && report.contacts[s].contactId == c.slot == s
           && report.contacts[s].x == (if c.x > 32767 then 32767 else c.x)
           && report.contacts[s].y == (if c.y > 32767 then 32767 else c.y)
           && (HasBit(report.contacts[s].flags, 2) <==> HasBit(c.flags, 2))
           && (HasBit(report.contacts[s].flags, 1) <==> HasBit(c.flags, 4)) && report.contacts[s].flags <= 3
  {
    hide SlotRecord, HasBit;
    TipBits();
    SlotRecordFrom(Records(f), s);
  }

  /** The host view of a report. */
  predicate TipDown(report: HidReport, slot: nat)
    requires slot < |report.contacts|
  {
    HasBit(report.contacts[slot].flags, HID_TIP)
  }

  predicate ButtonDown(report: HidReport) { report.button == 1 }

  function TipsDown(report: HidReport): nat
    requires |report.contacts| == SLOTS
  {
    (if TipDown(report, 0) then 1 else 0) + (if TipDown(report, 1) then 1 else 0)
    + (if TipDown(report, 2) then 1 else 0) + (if TipDown(report, 3) then 1 else 0)
    + (if TipDown(report, 4) then 1 else 0)
  }

  /** A frame fit for the driver is accepted as it is: every record lands on its
      own slot with its own coordinates, no other slot shows anything, and the
      contact count is the number of tips in the report. Its scan time is the frame's,
      or, if that is zero, the next value of the driver's own counter. */
  lemma {:induction false} FitFrameReported(f: IoctlFrame, last: U16)
    requires FitForDriver(f)
    ensures Accepted(f)
    ensures var report := ReportOf(f, last);
      && report.contactCount == TipsDown(report)
      && (ButtonDown(report) <==> HasBit(f.flags, IOCTL_BUTTON))
      && report.reportId == 5
      && (f.scanTime != 0 ==> report.scanTime == f.scanTime && NextScanTime(last, f) == last)
      && (f.scanTime == 0 ==> report.scanTime == (last + 1) % 65536 == NextScanTime(last, f))
      && forall s :: 0 <= s < SLOTS ==> ShownAs(report, s, SlotRecord(Records(f), s))
  {
    hide SlotRecord, HasBit;
    TipBits();
    forall s | 0 <= s < SLOTS
      ensures ShownAs(ReportOf(f, last), s, SlotRecord(Records(f), s))
    {
      SlotRecordFrom(Records(f), s);
    }
    CountBySlot(Records(f));
    assert forall i :: 0 <= i < f.reportCount ==> Records(f)[i] == f.contacts[i];
  }

  ghost predicate ShownAs(report: HidReport, slot: nat, record: Option<IoctlContact>)
    requires slot < |report.contacts|
  {
    match record
    case None => report.contacts[slot] == NO_CONTACT && !TipDown(report, slot)
    case Some(c) =>
      && (TipDown(report, slot) <==> HasBit(c.flags, TIP))
      && (HasBit(report.contacts[slot].flags, HID_CONFIDENCE) <==> HasBit(c.flags, CONFIDENCE))
      && report.contacts[slot].contactId == slot
      && report.contacts[slot].x == c.x && report.contacts[slot].y == c.y
  }

  lemma {:induction false} TipBits()
    ensures forall c: IoctlContact :: HasBit(HidOf(c).flags, HID_TIP) == HasBit(c.flags, TIP)
    ensures forall c: IoctlContact :: HasBit(HidOf(c).flags, HID_CONFIDENCE) == HasBit(c.flags, CONFIDENCE)
    ensures !HasBit(NO_CONTACT.flags, HID_TIP)
  {
  }

  lemma {:induction false} SlotRecordFrom(records: seq<IoctlContact>, s: nat)
    ensures var r := SlotRecord(records, s);
      r.Some? ==> r.value.slot == s && exists i :: 0 <= i < |records| && records[i] == r.value
    ensures SlotRecord(records, s).None? ==> forall i :: 0 <= i < |records| ==> records[i].slot != s
  {
    if records != [] {
      var n := |records| - 1;
      SlotRecordFrom(records[..n], s);
      if records[n].slot != s {
        if SlotRecord(records, s).Some? {
          var i :| 0 <= i < n && records[..n][i] == SlotRecord(records, s).value;
          assert records[i] == records[..n][i];
        } else {
          assert forall i :: 0 <= i < n ==> records[i] == records[..n][i];
        }
      }
    }
  }

  function TipOn(records: seq<IoctlContact>, s: nat): nat {
    match SlotRecord(records, s)
    case Some(c) => if HasBit(c.flags, TIP) then 1 else 0
    case None => 0
  }

  /** Counting tips record by record is counting them slot by slot. */
  lemma {:induction false} CountBySlot(records: seq<IoctlContact>)
    requires forall i :: 0 <= i < |records| ==> records[i].slot < SLOTS
    requires forall i, j :: 0 <= i < j < |records| ==> records[i].slot < records[j].slot
    ensures TipCount(records)
      == TipOn(records, 0) + TipOn(records, 1) + TipOn(records, 2) + TipOn(records, 3) + TipOn(records, 4)
  {
    hide HasBit;
    if records != [] {
      var n := |records| - 1;
      var early := records[..n];
      CountBySlot(early);
      SlotRecordFrom(early, records[n].slot);
      assert TipOn(early, records[n].slot) == 0;
      assert forall s: nat :: s != records[n].slot ==> TipOn(records, s) == TipOn(early, s);
    }
  }
}
