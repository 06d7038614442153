/** What the host is shown of the session: the records of every frame handed to
    the driver, slot by slot. */
module HostLaws {
  import opened Words
  import opened Wire
  import opened Ioctl
  import opened Coordinates
  import opened Session
  import opened SessionLaws

  /** The records of a frame are one per occupied slot. */
  lemma {:induction false} SlotOfRecords(round: Rounding, next: seq<Option<Contact>>, n: nat, slot: nat)
    requires n <= |next| <= SLOTS
    ensures SlotRecord(RecordsOf(round, next, n), slot)
      == if slot < n && next[slot].Some? then Some(RecordOf(round, slot, next[slot].value)) else None
  {
    hide RecordOf, RecordsOf, SlotRecord;
    RecordsStep(round, next, n);
    if n > 0 {
      SlotOfRecords(round, next, n - 1, slot);
      if next[n - 1].Some? {
        RecordSlot(round, next, n - 1);
        LastRecord(RecordsOf(round, next, n - 1), RecordOf(round, n - 1, next[n - 1].value), slot);
      }
    }
  }

  lemma {:induction false} RecordsStep(round: Rounding, next: seq<Option<Contact>>, n: nat)
    requires n <= |next| <= SLOTS
    ensures n == 0 ==> forall slot :: SlotRecord(RecordsOf(round, next, n), slot) == None
    ensures n > 0 ==>
      var early := RecordsOf(round, next, n - 1);
      var place := next[n - 1];
      RecordsOf(round, next, n) == if place.Some? then early + [RecordOf(round, n - 1, place.value)] else early
  {
    hide RecordOf;
  }

  lemma {:induction false} LastRecord(records: seq<IoctlContact>, record: IoctlContact, slot: nat)
    ensures SlotRecord(records + [record], slot)
      == if record.slot == slot then Some(record) else SlotRecord(records, slot)
  {
    assert (records + [record])[..|records|] == records;
  }

  lemma {:induction false} RecordSlot(round: Rounding, next: seq<Option<Contact>>, s: nat)
    requires s < |next| <= SLOTS
    ensures next[s].Some? ==>
      && RecordOf(round, s, next[s].value).slot == s
      && (next[s].value.flags <= CONTACT_FLAGS ==> FitRecord(RecordOf(round, s, next[s].value)))
  {
  }

  ghost predicate InOrder(records: seq<IoctlContact>, bound: nat) {
    && (forall i :: 0 <= i < |records| ==> FitRecord(records[i]) && records[i].slot < bound)
    && (forall i, j :: 0 <= i < j < |records| ==> records[i].slot < records[j].slot)
  }

  lemma {:induction false} RecordsFit(round: Rounding, next: seq<Option<Contact>>, n: nat)
    requires n <= |next| <= SLOTS
    requires forall s :: 0 <= s < n && next[s].Some? ==> next[s].value.flags <= CONTACT_FLAGS
    ensures InOrder(RecordsOf(round, next, n), n)
  {
    hide RecordOf, FitRecord;
    if n > 0 {
      RecordsFit(round, next, n - 1);
      RecordSlot(round, next, n - 1);
      var early := RecordsOf(round, next, n - 1);
      if next[n - 1].Some? {
        var record := RecordOf(round, n - 1, next[n - 1].value);
        assert RecordsOf(round, next, n) == early + [record];
        InOrderAppend(early, record);
      } else {
        assert RecordsOf(round, next, n) == early;
      }
    }
  }

  lemma {:induction false} InOrderAppend(records: seq<IoctlContact>, record: IoctlContact)
    requires InOrder(records, record.slot) && FitRecord(record)
    ensures InOrder(records + [record], record.slot + 1)
  {
    hide FitRecord;
  }

  /** Every frame the session builds passes the driver's checks and needs none
      of its repairs. */
  lemma {:induction false} FrameFits(round: Rounding, sequence: U32, flags: U32, scanTime: U16,
                                    next: seq<Option<Contact>>)
    requires |next| == SLOTS && flags <= IOCTL_RESET + IOCTL_BUTTON
    requires forall s :: 0 <= s < SLOTS && next[s].Some? ==> next[s].value.flags <= CONTACT_FLAGS
    ensures var f := FrameOf(round, sequence, flags, scanTime, next);
      && FitForDriver(f)
      && forall s :: 0 <= s < SLOTS ==>
           SlotRecord(Records(f), s)
             == if next[s].Some? then Some(RecordOf(round, s, next[s].value)) else None
  {
    hide RecordOf, FitRecord, RecordsOf, SlotRecord;
    RecordsFit(round, next, SLOTS);
    var records := RecordsOf(round, next, SLOTS);
    TipCountBound(records);
    var f := FrameOf(round, sequence, flags, scanTime, next);
    assert Records(f) == records;
    assert forall i :: 0 <= i < |records| ==> f.contacts[i] == Records(f)[i];
    forall s | 0 <= s < SLOTS
      ensures SlotRecord(records, s)
        == if next[s].Some? then Some(RecordOf(round, s, next[s].value)) else None
    {
      SlotOfRecords(round, next, SLOTS, s);
    }
  }

  /** How one slot may change in one report: a tip continues the same touch or
      starts on an empty slot; a touch that ends is lifted once, in place; an
      empty slot stays unmentioned. */
  ghost predicate SlotMove(round: Rounding, slot: Byte, before: Option<Contact>,
                           record: Option<IoctlContact>, later: Option<Contact>)
  {
    match later
    case Some(c) =>
      && record == Some(RecordOf(round, slot, c)) && HasTip(c)
      && (before.Some? ==> before.value.identifier == c.identifier)
    case None =>
      record == match before case Some(p) => Some(RecordOf(round, slot, Lift(p))) case None => None
  }

  ghost predicate FrameMoves(round: Rounding, before: Places, f: IoctlFrame, later: Places) {
    && FitForDriver(f)
    && forall s :: 0 <= s < SLOTS ==> SlotMove(round, s, before[s], SlotRecord(Records(f), s), later[s])
  }

  predicate FrameButton(f: IoctlFrame) { HasBit(f.flags, IOCTL_BUTTON) }

  /** What the host was last shown agrees with the session: the same contacts on
      the same slots, and the button down only if the session will release it. */
  ghost predicate InStep(st: SessionState, shown: Places, button: bool) {
    shown == st.previous && (button ==> HasActiveContacts(st))
  }

  /** A step shows the host either nothing, leaving agreement intact, or a frame
      whose every slot moves legally and whose button is the session's. */
  ghost predicate Shows(round: Rounding, st: SessionState, step: Step) {
    match step.outcome
    case Report(f) =>
      FrameMoves(round, st.previous, f, step.state.previous) && (FrameButton(f) <==> step.state.buttonDown)
    case Silent => step.state.previous == st.previous && HasActiveContacts(step.state) == HasActiveContacts(st)
    case Throw(_) => step.state.previous == st.previous && (HasActiveContacts(st) ==> HasActiveContacts(step.state))
  }

  lemma {:induction false} ReleaseShows(round: Rounding, st: SessionState, sequence: U32)
    requires Inv(st)
    ensures FrameMoves(round, st.previous, ReleaseFrame(round, sequence, st.previous), NOBODY)
    ensures !FrameButton(ReleaseFrame(round, sequence, st.previous))
  {
    hide RecordsOf, SlotRecord, Injective, FitForDriver, RecordOf;
    FrameFits(round, sequence, IOCTL_RESET, 0, LiftAll(st.previous));
  }

  lemma {:induction false} FrameStepShows(round: Rounding, st: SessionState, m: Message, now: int)
    requires Inv(st) && forall i :: 0 <= i < |m.contacts| ==> KnownContact(m.contacts[i])
    ensures Shows(round, st, FrameStep(round, st, m, now))
  {
    hide FrameOf, FrameMoves, AssignSlots, TipIds, Tips, AllFinite, Injective, Holds;
    AssignLaw(st.slots, m.contacts);
    var a := AssignSlots(st.slots, m.contacts);
    if a.error == None {
      TipsContinue(st, a.slots, m.contacts);
      FrameOfTips(round, st, m, Tips(a.slots, m.contacts));
    }
  }

  lemma {:induction false} FrameOfTips(round: Rounding, st: SessionState, m: Message, tips: Places)
    requires Inv(st) && TipsContinuing(st.previous, tips)
    ensures var f := FrameOf(round, m.sequence, if ButtonFlag(m) then IOCTL_BUTTON else 0,
                             ScanTime(m.captureTimeUs), NextContacts(tips, st.previous));
      FrameMoves(round, st.previous, f, tips) && (FrameButton(f) <==> ButtonFlag(m))
  {
    hide RecordsOf, SlotRecord, RecordOf, FitForDriver, Injective, AllFinite;
    var next := NextContacts(tips, st.previous);
    FrameFits(round, m.sequence, if ButtonFlag(m) then IOCTL_BUTTON else 0, ScanTime(m.captureTimeUs), next);
  }

  ghost predicate TipsContinuing(previous: Places, tips: Places) {
    forall s :: 0 <= s < SLOTS && tips[s].Some? ==>
      && HasTip(tips[s].value) && tips[s].value.flags <= CONTACT_FLAGS
      && (previous[s].Some? ==> previous[s].value.identifier == tips[s].value.identifier)
  }

  lemma {:induction false} TipsContinue(st: SessionState, slots: map<U32, nat>, contacts: seq<Contact>)
    requires Inv(st) && Injective(slots) && Grows(st.slots, slots, TipIds(contacts))
    requires forall i :: 0 <= i < |contacts| ==> KnownContact(contacts[i])
    ensures TipsContinuing(st.previous, Tips(slots, contacts))
  {
    hide TipAt, AllFinite;
    forall s | 0 <= s < SLOTS && Tips(slots, contacts)[s].Some?
      ensures Tips(slots, contacts)[s].value.flags <= CONTACT_FLAGS
    {
      TipAtMeans(slots, contacts, s);
    }
  }

  /** Every call of the session, the throwing ones included. */
  lemma {:induction false} CallsShow(round: Rounding, st: SessionState, m: Message, now: int)
    requires Inv(st)
    ensures WellFormed(m) ==> Shows(round, st, Process(round, st, m, now))
    ensures Shows(round, st, OnTimeout(round, st, now))
    ensures Shows(round, st, OnDisconnect(round, st))
  {
    hide FrameStep, ReleaseFrame, FrameMoves, KnownContact, DistinctIdentifiers;
    ReleaseShows(round, st, m.sequence);
    ReleaseShows(round, st, st.previousSequence);
    if !HasActiveContacts(st) {
      assert st.previous == NOBODY;
    }
    if WellFormed(m) {
      FrameStepShows(round, st.(sequenceSeen := true, previousSequence := m.sequence), m, now);
    }
  }

  /** What a frame says of itself: the number of the message that caused it, or of the
      last one; a release carries the RESET flag alone and no time, a FRAME its button
      and its capture time in units of 100 us. */
  lemma {:induction false} CallsStamp(round: Rounding, st: SessionState, m: Message, now: int)
    requires WellFormed(m)
    ensures Process(round, st, m, now).outcome.Report? ==>
      var f := Process(round, st, m, now).outcome.frame;
      && f.sequence == m.sequence && (m.kind == Frame || m.kind == Reset)
      && (m.kind == Frame ==> f.flags == 2 * m.flags && f.scanTime == m.captureTimeUs / 100 % 65536)
      && (m.kind == Reset ==> f.flags == 1 && f.scanTime == 0)
    ensures Releasing(st.previousSequence, OnTimeout(round, st, now).outcome)
    ensures Releasing(st.previousSequence, OnDisconnect(round, st).outcome)
  {
    hide RecordsOf, LiftAll, NextContacts, AssignSlots, TipIds, Tips, KnownContact, DistinctIdentifiers, Padded;
  }

  predicate Releasing(sequence: U32, outcome: Outcome) {
    outcome.Report? ==>
      outcome.frame.sequence == sequence && outcome.frame.flags == 1 && outcome.frame.scanTime == 0
  }
}
