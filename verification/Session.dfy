/** The contact session as a state machine over values: what one call does to
    the session and what it hands back or throws. */
module Session {
  import opened Words
  import opened Wire
  import opened Ioctl
  import opened Coordinates

  const FRAME_TIMEOUT_MS := 200

  datatype SessionState = SessionState(
    helloSeen: bool, resetSeen: bool, sequenceSeen: bool, buttonDown: bool,
    previousSequence: U32,
    slots: map<U32, nat>,
    previous: Places,
    lastFrameTime: int)

  /** The contact remembered for each slot. */
  type Places = places: seq<Option<Contact>> | |places| == SLOTS witness [None, None, None, None, None]

  const NOBODY: Places := [None, None, None, None, None]
  const INITIAL := SessionState(false, false, false, false, 0, map[], NOBODY, 0)

  /** A call returns nothing, returns a frame, or throws. */
  datatype Outcome = Silent | Report(frame: IoctlFrame) | Throw(error: ProtocolError)

  datatype Step = Step(state: SessionState, outcome: Outcome)

  predicate HasActiveContacts(st: SessionState) { st.slots != map[] || st.buttonDown }

  predicate ButtonFlag(m: Message) { HasBit(m.flags, FRAME_BUTTON) }

  /** The slot is nobody's. */
  predicate Free(slots: map<U32, nat>, slot: nat) { slot !in slots.Values }

  function LeastFree(slots: map<U32, nat>, from: nat): (free: Option<nat>)
    requires from <= SLOTS
    ensures free.Some? ==> from <= free.value < SLOTS
    decreases SLOTS - from
  {
    if from == SLOTS then None
    else if Free(slots, from) then Some(from)
    else LeastFree(slots, from + 1)
  }

  lemma {:induction false} LeastFreeMeans(slots: map<U32, nat>, from: nat)
    requires from <= SLOTS
    ensures var free := LeastFree(slots, from);
      && (free.Some? ==> Free(slots, free.value))
      && forall s :: from <= s < (if free.Some? then free.value else SLOTS) ==> !Free(slots, s)
    decreases SLOTS - from
  {
    hide Free;
    if from < SLOTS && !Free(slots, from) {
      LeastFreeMeans(slots, from + 1);
    }
  }

  /** The slot map after the tips among `contacts`, up to the first failure. */
  datatype Assignment = Assignment(slots: map<U32, nat>, error: Option<ProtocolError>)

  function AssignSlots(slots: map<U32, nat>, contacts: seq<Contact>): Assignment {
    if contacts == [] then Assignment(slots, None)
    else
      var n := |contacts| - 1;
      var before := AssignSlots(slots, contacts[..n]);
      if before.error.Some? then before else AssignOne(before.slots, contacts[n])
  }

  function AssignOne(slots: map<U32, nat>, c: Contact): Assignment {
    if !HasTip(c) || c.identifier in slots then Assignment(slots, None)
    else if |slots| >= SLOTS then Assignment(slots, Some(TooManyContacts))
    else match LeastFree(slots, 0)
      case Some(slot) => Assignment(slots[c.identifier := slot], None)
      case None => Assignment(slots, Some(NoFreeSlot))
  }

  /** The identifiers in a frame whose tip is down. */
  function TipIds(contacts: seq<Contact>): set<U32> {
    if contacts == [] then {}
    else
      var n := |contacts| - 1;
      TipIds(contacts[..n]) + TipId(contacts[n])
  }

  function TipId(c: Contact): set<U32> {
    if HasTip(c) then {c.identifier} else {}
  }

  lemma {:induction false} TipIdsMean(contacts: seq<Contact>)
    ensures forall i :: 0 <= i < |contacts| && HasTip(contacts[i]) ==> contacts[i].identifier in TipIds(contacts)
    ensures forall id :: id in TipIds(contacts) ==>
      exists i :: 0 <= i < |contacts| && HasTip(contacts[i]) && contacts[i].identifier == id
  {
    hide HasTip;
    if contacts != [] {
      var n := |contacts| - 1;
      TipIdsMean(contacts[..n]);
      forall id | id in TipIds(contacts)
        ensures exists i :: 0 <= i < |contacts| && HasTip(contacts[i]) && contacts[i].identifier == id
      {
        if id in TipIds(contacts[..n]) {
          var i :| 0 <= i < n && HasTip(contacts[..n][i]) && contacts[..n][i].identifier == id;
          assert contacts[i] == contacts[..n][i];
        }
      }
    }
  }

  /** The tip the frame puts on a slot. */
  function TipAt(slots: map<U32, nat>, contacts: seq<Contact>, slot: nat): (tip: Option<Contact>)
    ensures tip.Some? ==> IsTipAt(slots, tip.value, slot)
  {
    if contacts == [] then None
    else
      var n := |contacts| - 1;
      if IsTipAt(slots, contacts[n], slot) then Some(contacts[n]) else TipAt(slots, contacts[..n], slot)
  }

  predicate IsTipAt(slots: map<U32, nat>, c: Contact, slot: nat) {
    HasTip(c) && c.identifier in slots && slots[c.identifier] == slot
  }

  lemma {:induction false} TipAtMeans(slots: map<U32, nat>, contacts: seq<Contact>, slot: nat)
    ensures var tip := TipAt(slots, contacts, slot);
      && (tip.Some? ==> exists i :: 0 <= i < |contacts| && contacts[i] == tip.value)
      && (tip.None? ==> forall i :: 0 <= i < |contacts| ==> !IsTipAt(slots, contacts[i], slot))
  {
    hide IsTipAt;
    if contacts != [] {
      var n := |contacts| - 1;
      TipAtMeans(slots, contacts[..n], slot);
      if !IsTipAt(slots, contacts[n], slot) {
        if TipAt(slots, contacts, slot).Some? {
          var i :| 0 <= i < n && contacts[..n][i] == TipAt(slots, contacts, slot).value;
          assert contacts[i] == contacts[..n][i];
        } else {
          assert forall i :: 0 <= i < n ==> contacts[i] == contacts[..n][i];
        }
      }
    }
  }

  function Tips(slots: map<U32, nat>, contacts: seq<Contact>): (tips: seq<Option<Contact>>)
    ensures |tips| == SLOTS
    ensures forall s :: 0 <= s < SLOTS ==> tips[s] == TipAt(slots, contacts, s)
  {
    [TipAt(slots, contacts, 0), TipAt(slots, contacts, 1), TipAt(slots, contacts, 2),
     TipAt(slots, contacts, 3), TipAt(slots, contacts, 4)]
  }

  /** A contact with its tip raised, as a lift reports it. */
  function Lift(c: Contact): Contact { c.(flags := ClearBit(c.flags, TIP)) }

  /** A lift differs from its contact in the tip bit alone. */
  lemma {:induction false} LiftKeeps(c: Contact)
    requires c.flags <= CONTACT_FLAGS
    ensures Lift(c) == c.(flags := Lift(c).flags) && !HasTip(Lift(c))
    ensures HasBit(Lift(c).flags, 1) == HasBit(c.flags, 1) && HasBit(Lift(c).flags, 4) == HasBit(c.flags, 4)
  {
    ClearSecond(c.flags);
  }

  function Lifted(contact: Option<Contact>): Option<Contact> {
    match contact case Some(c) => Some(Lift(c)) case None => None
  }

  function LiftAll(previous: seq<Option<Contact>>): (next: seq<Option<Contact>>)
    ensures |next| == |previous|
    ensures forall s :: 0 <= s < |previous| ==> next[s] == Lifted(previous[s])
  {
    if previous == [] then []
    else
      var n := |previous| - 1;
      LiftAll(previous[..n]) + [Lifted(previous[n])]
  }

  /** What the next report says of each slot: a tip of this frame, or the lift
      of the contact that was there. */
  function NextContacts(tips: seq<Option<Contact>>, previous: seq<Option<Contact>>): (next: seq<Option<Contact>>)
    requires |tips| == |previous|
    ensures |next| == |previous|
    ensures forall s :: 0 <= s < |previous| ==>
      next[s] == if tips[s].Some? then tips[s] else Lifted(previous[s])
  {
    if previous == [] then []
    else
      var n := |previous| - 1;
      NextContacts(tips[..n], previous[..n]) + [if tips[n].Some? then tips[n] else Lifted(previous[n])]
  }

  function RecordOf(round: Rounding, slot: Byte, c: Contact): IoctlContact {
    IoctlContact(slot, c.flags, ToLogical(round, c.x), ToLogicalY(round, c.y), 0)
  }

  /** The records of the first `n` slots, in slot order. */
  function RecordsOf(round: Rounding, next: seq<Option<Contact>>, n: nat): (records: seq<IoctlContact>)
    requires n <= |next| <= SLOTS
    ensures |records| <= n
  {
    if n == 0 then []
    else
      RecordsOf(round, next, n - 1)
      + match next[n - 1] case Some(c) => [RecordOf(round, n - 1, c)] case None => []
  }

  function Padded(records: seq<IoctlContact>): (contacts: seq<IoctlContact>)
    requires |records| <= SLOTS
    ensures |contacts| == SLOTS && contacts[..|records|] == records
    ensures forall i :: |records| <= i < SLOTS ==> contacts[i] == UNUSED
  {
    (records + [UNUSED, UNUSED, UNUSED, UNUSED, UNUSED])[..SLOTS]
  }

  function FrameOf(round: Rounding, sequence: U32, flags: U32, scanTime: U16, next: seq<Option<Contact>>): IoctlFrame
    requires |next| == SLOTS
  {
    var records := RecordsOf(round, next, SLOTS);
    TipCountBound(records);
    IoctlFrame(ABI_VERSION, sequence, flags, scanTime, TipCount(records), |records|, Padded(records))
  }

  lemma {:induction false} TipCountBound(records: seq<IoctlContact>)
    ensures TipCount(records) <= |records|
  {
    if records != [] {
      TipCountBound(records[..|records| - 1]);
    }
  }

  function ReleaseFrame(round: Rounding, sequence: U32, previous: seq<Option<Contact>>): IoctlFrame
    requires |previous| == SLOTS
  {
    FrameOf(round, sequence, IOCTL_RESET, 0, LiftAll(previous))
  }

  function Released(st: SessionState): SessionState {
    st.(slots := map[], previous := NOBODY, buttonDown := false)
  }

  /** The map once the identifiers not present have left. */
  function Kept(slots: map<U32, nat>, present: set<U32>): map<U32, nat> {
    map id | id in slots && id in present :: slots[id]
  }

  function ScanTime(captureTimeUs: U64): U16 { Wrap16(captureTimeUs / 100) }

  function FrameStep(round: Rounding, st: SessionState, m: Message, now: int): Step
  {
    var pressed := st.(buttonDown := ButtonFlag(m));
    var after := AssignSlots(st.slots, m.contacts);
    match after.error
    case Some(error) => Step(pressed.(slots := after.slots), Throw(error))
    case None =>
      var tips := Tips(after.slots, m.contacts);
      Step(
        pressed.(slots := Kept(after.slots, TipIds(m.contacts)), previous := tips, lastFrameTime := now),
        Report(FrameOf(round, m.sequence, if ButtonFlag(m) then IOCTL_BUTTON else 0,
                       ScanTime(m.captureTimeUs), NextContacts(tips, st.previous))))
  }

  /** One call of Process. */
  function Process(round: Rounding, st: SessionState, m: Message, now: int): Step
  {
    if st.sequenceSeen && m.sequence != Wrap32(st.previousSequence + 1) then
      Step(st, Throw(SequenceDiscontinuity))
    else
      var seen := st.(sequenceSeen := true, previousSequence := m.sequence);
      if m.kind == Hello then
        if st.helloSeen || st.resetSeen then Step(seen, Throw(UnexpectedHello))
        else Step(seen.(helloSeen := true), Silent)
      else if !st.helloSeen then Step(seen, Throw(BeforeHello))
      else if m.kind == Reset then
        Step(Released(seen.(resetSeen := true)), Report(ReleaseFrame(round, m.sequence, st.previous)))
      else if !st.resetSeen then Step(seen, Throw(FrameBeforeReset))
      else FrameStep(round, seen, m, now)
  }

  function OnTimeout(round: Rounding, st: SessionState, now: int): Step
  {
    if !HasActiveContacts(st) || now - st.lastFrameTime < FRAME_TIMEOUT_MS then Step(st, Silent)
    else Step(Released(st), Report(ReleaseFrame(round, st.previousSequence, st.previous)))
  }

  function OnDisconnect(round: Rounding, st: SessionState): Step
  {
    Step(
      Released(st).(helloSeen := false, resetSeen := false, sequenceSeen := false),
      if HasActiveContacts(st)
      then Report(ReleaseFrame(round, st.previousSequence, st.previous))
      else Silent)
  }

  /** What every call keeps, even one that throws half-way: five places, an
      injective slot map into them, and every remembered contact is a known tip
      that still holds its slot. */
  ghost predicate Inv(st: SessionState) { Remembered(st.slots, st.previous) }

  ghost predicate Remembered(slots: map<U32, nat>, previous: seq<Option<Contact>>) {
    && |previous| == SLOTS
    && Injective(slots)
    && forall s :: 0 <= s < SLOTS && previous[s].Some? ==> Holds(slots, previous[s].value, s)
  }

  ghost predicate Injective(slots: map<U32, nat>) {
    && (forall id :: id in slots ==> slots[id] < SLOTS)
    && (forall a, b :: a in slots && b in slots && slots[a] == slots[b] ==> a == b)
  }

  ghost predicate Holds(slots: map<U32, nat>, c: Contact, slot: nat) {
    KnownContact(c) && IsTipAt(slots, c, slot)
  }

  /** What holds whenever the last call returned: also every mapped identifier
      is remembered, so the map holds exactly the tips last reported. */
  ghost predicate Synced(st: SessionState) { Matched(st.slots, st.previous) }

  ghost predicate Matched(slots: map<U32, nat>, previous: seq<Option<Contact>>) {
    && Remembered(slots, previous)
    && forall id :: id in slots ==>
         previous[slots[id]].Some? && previous[slots[id]].value.identifier == id
  }
}
