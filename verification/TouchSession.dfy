/** The session object of the receiver. Its slot map is iterated in no
    particular order, as a hash map is; every method still computes the one
    result the state machine of module Session gives. */
module TouchSession {
  import opened Words
  import opened Wire
  import opened Ioctl
  import opened Coordinates
  import S = Session
  import opened Session
  import opened SessionLaws
  import HostLaws

  class TouchSession {
    const rounding: Rounding
    var helloSeen: bool
    var resetSeen: bool
    var sequenceSeen: bool
    var buttonDown: bool
    var previousSequence: U32
    var slots: map<U32, nat>
    const previousContacts: array<Option<Contact>>
    var lastFrameTime: int

    ghost function State(): SessionState
      requires previousContacts.Length == SLOTS
      reads this, previousContacts
    {
      SessionState(helloSeen, resetSeen, sequenceSeen, buttonDown, previousSequence,
                   slots, previousContacts[..], lastFrameTime)
    }

    ghost predicate Valid()
      reads this, previousContacts
    {
      previousContacts.Length == SLOTS && Inv(State())
    }

    constructor (rounding: Rounding)
      ensures Valid() && fresh(previousContacts) && this.rounding == rounding
      ensures State() == INITIAL
    {
      this.rounding := rounding;
      helloSeen, resetSeen, sequenceSeen, buttonDown := false, false, false, false;
      previousSequence, slots, lastFrameTime := 0, map[], 0;
      previousContacts := new Option<Contact>[SLOTS](_ => None);
      new;
      assert previousContacts[..] == NOBODY;
      NobodyMatched();
    }

    predicate HasActiveContacts()
      reads this
    {
      slots != map[] || buttonDown
    }

    /** The lowest slot no identifier holds. */
    method AllocateSlot() returns (slot: Option<nat>)
      ensures slot == LeastFree(slots, 0)
    {
      for candidate := 0 to SLOTS
        invariant LeastFree(slots, 0) == LeastFree(slots, candidate)
      {
        if Free(slots, candidate) {
          return Some(candidate);
        }
      }
      slot := None;
    }

    /** The slot of a tip: the one it has, or the lowest free one. */
    method SlotOf(contact: Contact) returns (slot: nat, error: Option<ProtocolError>)
      requires Injective(slots) && HasTip(contact)
      modifies this`slots
      ensures AssignOne(old(slots), contact) == Assignment(slots, error)
      ensures error == None ==> contact.identifier in slots && slots[contact.identifier] == slot < SLOTS
    {
      hide LeastFree, HasTip;
      slot := 0;
      if contact.identifier !in slots {
        if |slots| >= SLOTS {
          return slot, Some(TooManyContacts);
        }
        var free := AllocateSlot();
        if free.None? {
          return slot, Some(NoFreeSlot);
        }
        slot := free.value;
        slots := slots[contact.identifier := slot];
      } else {
        slot := slots[contact.identifier];
      }
      error := None;
    }

    /** Gives every tip its slot, in message order, stopping at the first failure. */
    method AssignTips(contacts: seq<Contact>)
      returns (next: Places, present: set<U32>, error: Option<ProtocolError>)
      requires Injective(slots)
      modifies this`slots
      ensures AssignSlots(old(slots), contacts) == Assignment(slots, error)
      ensures error == None ==> next == Tips(slots, contacts) && present == TipIds(contacts)
    {
      hide AssignSlots, TipIds, TipId, Injective, AssignOne, HasTip, Tips;
      next, present, error := NOBODY, {}, None;
      AssignNothing(slots);
      NoTips(slots);
      for index := 0 to |contacts|
        invariant error == None
        invariant AssignSlots(old(slots), contacts[..index]) == Assignment(slots, None)
        invariant Injective(slots)
        invariant next == Tips(slots, contacts[..index])
        invariant present == TipIds(contacts[..index]) <= slots.Keys
      {
        var contact := contacts[index];
        ghost var before := slots;
        Prefix(contacts, index);
        AssignNext(old(slots), contacts, index);
        OneInjective(slots, contact);
        if HasTip(contact) {
          present := present + {contact.identifier};
          var slot;
          slot, error := SlotOf(contact);
          if error.Some? {
            AssignStuck(old(slots), contacts, index + 1);
            return;
          }
          next := next[slot := Some(contact)];
        } else {
          NoTipAssigned(slots, contact);
        }
        TipsStep(before, slots, contacts[..index], contact);
      }
      assert contacts[..|contacts|] == contacts;
    }

    /** Lists the mapped identifiers the frame does not show and puts the lift of
        each on its slot. */
    method MarkLeaving(tips: Places, present: set<U32>) returns (next: Places, leaving: seq<U32>)
      requires Valid() && ShowsPresent(slots, tips, present)
      ensures next == NextContacts(tips, previousContacts[..])
      ensures forall id :: id in leaving <==> id in slots && id !in present
    {
      hide Lift, ShowsPresent, Remembered, Marked, NextContacts;
      ghost var previous: Places := previousContacts[..];
      next, leaving := tips, [];
      var remaining := slots.Keys;
      MarkNothing(slots, tips, previous);
      while remaining != {}
        invariant remaining <= slots.Keys
        invariant forall id :: id in leaving <==> id in slots && id !in remaining && id !in present
        invariant next == Marked(tips, previous, remaining)
        decreases |remaining|
      {
        var identifier :| identifier in remaining;
        MarkStep(slots, tips, present, previous, remaining, identifier);
        remaining := remaining - {identifier};
        if identifier !in present {
          var slot := slots[identifier];
          leaving := leaving + [identifier];
          if previousContacts[slot].Some? {
            next := next[slot := Some(Lift(previousContacts[slot].value))];
          }
        }
      }
      MarkedAll(tips, previous);
    }

    /** Drops the leaving identifiers and what was remembered of them. */
    method DropLeaving(leaving: seq<U32>)
      requires Valid()
      modifies this`slots, previousContacts
      ensures slots == Without(old(slots), leaving)
      ensures previousContacts[..] == Forgetting(old(previousContacts[..]), leaving)
    {
      hide Remembered, Forgetting, Without;
      ghost var before, previous: Places := slots, previousContacts[..];
      DropNothing(slots, previous);
      for index := 0 to |leaving|
        invariant slots == Without(before, leaving[..index])
        invariant previousContacts[..] == Forgetting(previous, leaving[..index])
      {
        var identifier := leaving[index];
        assert leaving[..index + 1] == leaving[..index] + [identifier];
        DropStep(before, previous, leaving[..index], identifier);
        if identifier in slots {
          ghost var places := previousContacts[..];
          previousContacts[slots[identifier]] := None;
          assert previousContacts[..] == places[slots[identifier] := None];
          slots := slots - {identifier};
        }
      }
      assert leaving[..|leaving|] == leaving;
    }

    /** Remembers, for every identifier still mapped, its record of this frame. */
    method RememberTips(contacts: seq<Contact>)
      requires previousContacts.Length == SLOTS && Injective(slots)
      requires DistinctIdentifiers(contacts) && slots.Keys == TipIds(contacts)
      requires OnlyHeld(slots, previousContacts[..])
      modifies previousContacts
      ensures previousContacts[..] == Tips(slots, contacts)
    {
      hide TipIds, TipAt, Tips, OnlyHeld, Injective, DistinctIdentifiers, Remembering, FindContact;
      var remaining := slots.Keys;
      RememberNothing(slots, contacts, previousContacts[..]);
      while remaining != {}
        invariant remaining <= slots.Keys
        invariant Remembering(slots, contacts, remaining, previousContacts[..])
        decreases |remaining|
      {
        var identifier :| identifier in remaining;
        SlotBound(slots, identifier);
        FoundTip(slots, contacts, identifier);
        RememberStep(slots, contacts, remaining, previousContacts[..], identifier);
        remaining := remaining - {identifier};
        var contact := FindContact(contacts, identifier);
        if contact.Some? {
          ghost var places := previousContacts[..];
          previousContacts[slots[identifier]] := contact;
          assert previousContacts[..] == places[slots[identifier] := contact];
        }
      }
      AllRemembered(slots, contacts, previousContacts[..]);
    }

    /** Fills the frame slot by slot. */
    method BuildFrame(sequence: U32, flags: U32, scanTime: U16, next: Places) returns (frame: IoctlFrame)
      ensures frame == FrameOf(rounding, sequence, flags, scanTime, next)
    {
      hide ToLogical, ToLogicalY, Padded, RecordsOf, TipCount, HasTip;
      var contacts, reported, active := Padded([]), 0, 0;
      BuildNothing(rounding, next);
      for slot := 0 to SLOTS
        invariant reported == |RecordsOf(rounding, next, slot)| <= slot
        invariant active == TipCount(RecordsOf(rounding, next, slot)) <= slot
        invariant contacts == Padded(RecordsOf(rounding, next, slot))
      {
        ghost var records := RecordsOf(rounding, next, slot);
        BuildStep(rounding, next, slot);
        match next[slot]
        case None =>
        case Some(source) =>
          if reported >= SLOTS {
            assert false;
          }
          var target := IoctlContact(slot, source.flags, ToLogical(rounding, source.x),
                                     ToLogicalY(rounding, source.y), 0);
          PadNext(records, target);
          contacts := contacts[reported := target];
          reported := reported + 1;
          if HasTip(source) {
            active := active + 1;
          }
      }
      frame := IoctlFrame(ABI_VERSION, sequence, flags, scanTime, active, reported, contacts);
    }

    /** Lifts every remembered contact and forgets everything held. */
    method ReleaseAll(sequence: U32) returns (frame: IoctlFrame)
      requires Valid()
      modifies this`slots, this`buttonDown, previousContacts
      ensures Valid() && State() == Released(old(State()))
      ensures frame == ReleaseFrame(rounding, sequence, old(previousContacts[..]))
    {
      hide Remembered, FrameOf;
      ghost var previous: Places := previousContacts[..];
      var next: Places := NOBODY;
      for slot := 0 to SLOTS
        invariant forall s :: 0 <= s < slot ==> next[s] == Lifted(previousContacts[s])
        invariant forall s :: slot <= s < SLOTS ==> next[s] == None
      {
        next := next[slot := Lifted(previousContacts[slot])];
      }
      assert next == LiftAll(previous);
      frame := BuildFrame(sequence, IOCTL_RESET, 0, next);
      slots := map[];
      forall slot | 0 <= slot < SLOTS {
        previousContacts[slot] := None;
      }
      buttonDown := false;
      assert previousContacts[..] == NOBODY;
      NobodyMatched();
    }

    /** One message: the lifecycle checks, then the frame. */
    method Process(message: Message, now: int) returns (outcome: Outcome)
      requires Valid() && WellFormed(message)
      modifies this, previousContacts
      ensures Valid()
      ensures S.Step(State(), outcome) == S.Process(rounding, old(State()), message, now)
    {
      hide Remembered, FrameStep, ReleaseFrame, KnownContact, DistinctIdentifiers;
      if sequenceSeen && message.sequence != Wrap32(previousSequence + 1) {
        return Throw(SequenceDiscontinuity);
      }
      sequenceSeen, previousSequence := true, message.sequence;
      if message.kind == Hello {
        if helloSeen || resetSeen {
          return Throw(UnexpectedHello);
        }
        helloSeen := true;
        return Silent;
      }
      if !helloSeen {
        return Throw(BeforeHello);
      }
      if message.kind == Reset {
        resetSeen := true;
        var frame := ReleaseAll(message.sequence);
        return Report(frame);
      }
      if !resetSeen {
        return Throw(FrameBeforeReset);
      }
      outcome := ProcessFrame(message, now);
    }

    method ProcessFrame(message: Message, now: int) returns (outcome: Outcome)
      requires Valid()
      requires DistinctIdentifiers(message.contacts)
      requires forall i :: 0 <= i < |message.contacts| ==> KnownContact(message.contacts[i])
      modifies this, previousContacts
      ensures Valid()
      ensures S.Step(State(), outcome) == FrameStep(rounding, old(State()), message, now)
    {
      hide AssignSlots, TipIds, Tips, NextContacts, FrameOf, Kept, Remembered, Matched, KnownContact,
        DistinctIdentifiers, Grows, ShowsPresent, Without, Forgetting, OnlyHeld, Injective;
      ghost var before, previous: Places := slots, previousContacts[..];
      FrameStepKeeps(rounding, State(), message, now);
      RememberedInjective(before, previous);
      AssignLaw(before, message.contacts);
      buttonDown := ButtonFlag(message);
      var tips, present, error := AssignTips(message.contacts);
      if error.Some? {
        return Throw(error.value);
      }
      ghost var after := slots;
      GrownRemembered(before, after, previous, message.contacts);
      TipsShowPresent(after, message.contacts);
      var next, leaving := MarkLeaving(tips, present);
      var frame := BuildFrame(message.sequence, if ButtonFlag(message) then IOCTL_BUTTON else 0,
                              ScanTime(message.captureTimeUs), next);
      DropLeaving(leaving);
      LeaversGone(after, previous, message.contacts, leaving);
      RememberTips(message.contacts);
      KeptTips(after, message.contacts);
      lastFrameTime := now;
      outcome := Report(frame);
    }

    /** A poll after the receive timed out. */
    method OnTimeout(now: int) returns (outcome: Outcome)
      requires Valid()
      modifies this, previousContacts
      ensures Valid()
      ensures S.Step(State(), outcome) == S.OnTimeout(rounding, old(State()), now)
    {
      hide Remembered, ReleaseFrame;
      if !HasActiveContacts() || now - lastFrameTime < FRAME_TIMEOUT_MS {
        return Silent;
      }
      var frame := ReleaseAll(previousSequence);
      outcome := Report(frame);
    }

    method OnDisconnect() returns (outcome: Outcome)
      requires Valid()
      modifies this, previousContacts
      ensures Valid()
      ensures S.Step(State(), outcome) == S.OnDisconnect(rounding, old(State()))
    {
      hide Remembered, ReleaseFrame;
      var shouldReport := HasActiveContacts();
      var release := ReleaseAll(previousSequence);
      helloSeen, resetSeen, sequenceSeen := false, false, false;
      outcome := if shouldReport then Report(release) else Silent;
    }
  }

  lemma {:induction false} BuildNothing(round: Rounding, next: Places)
    ensures RecordsOf(round, next, 0) == [] && TipCount([]) == 0
  {
  }

  lemma {:induction false} BuildStep(round: Rounding, next: Places, slot: nat)
    requires slot < SLOTS
    ensures var records, later := RecordsOf(round, next, slot), RecordsOf(round, next, slot + 1);
      if next[slot].None? then later == records
      else
        && later == records + [RecordOf(round, slot, next[slot].value)]
        && TipCount(later) == TipCount(records) + if HasTip(next[slot].value) then 1 else 0
  {
    hide RecordsOf, ToLogical, ToLogicalY, HasBit;
    HostLaws.RecordsStep(round, next, slot + 1);
    if next[slot].Some? {
      var records := RecordsOf(round, next, slot);
      assert (records + [RecordOf(round, slot, next[slot].value)])[..|records|] == records;
    }
  }

  lemma {:induction false} PadNext(records: seq<IoctlContact>, record: IoctlContact)
    requires |records| < SLOTS
    ensures Padded(records + [record]) == Padded(records)[|records| := record]
  {
  }

  lemma {:induction false} GrownRemembered(before: map<U32, nat>, later: map<U32, nat>, previous: Places,
                                           contacts: seq<Contact>)
    requires Remembered(before, previous) && Injective(later) && Grows(before, later, TipIds(contacts))
    ensures Remembered(later, previous)
  {
    hide KnownContact, HasTip, TipIds;
  }

  /** After assignment a mapped identifier has a tip on its slot exactly when the
      frame shows it. */
  lemma {:induction false} TipsShowPresent(slots: map<U32, nat>, contacts: seq<Contact>)
    requires Injective(slots) && TipIds(contacts) <= slots.Keys
    ensures ShowsPresent(slots, Tips(slots, contacts), TipIds(contacts))
  {
    hide HasTip, TipAt, TipIds;
    var tips, present := Tips(slots, contacts), TipIds(contacts);
    TipIdsMean(contacts);
    forall id | id in slots
      ensures id in present <==> tips[slots[id]].Some?
    {
      TipAtMeans(slots, contacts, slots[id]);
      if id in present {
        var i :| 0 <= i < |contacts| && HasTip(contacts[i]) && contacts[i].identifier == id;
        assert IsTipAt(slots, contacts[i], slots[id]);
      }
    }
  }

  /** Once the leavers are dropped only this frame's tips are mapped, and only
      their slots are still remembered. */
  lemma {:induction false} LeaversGone(slots: map<U32, nat>, previous: Places, contacts: seq<Contact>,
                                       leaving: seq<U32>)
    requires Remembered(slots, previous) && TipIds(contacts) <= slots.Keys
    requires forall id :: id in leaving <==> id in slots && id !in TipIds(contacts)
    ensures Without(slots, leaving) == Kept(slots, TipIds(contacts))
    ensures Kept(slots, TipIds(contacts)).Keys == TipIds(contacts)
    ensures Injective(Kept(slots, TipIds(contacts)))
    ensures OnlyHeld(Kept(slots, TipIds(contacts)), Forgetting(previous, leaving))
  {
    hide KnownContact, HasTip, TipIds;
    var kept, places := Kept(slots, TipIds(contacts)), Forgetting(previous, leaving);
    forall s | 0 <= s < SLOTS && places[s].Some?
      ensures s in kept.Values
    {
      assert kept[previous[s].value.identifier] == s;
    }
  }

  /** The tips are the same seen from the map that still held the leavers. */
  lemma {:induction false} KeptTips(slots: map<U32, nat>, contacts: seq<Contact>)
    requires TipIds(contacts) <= slots.Keys
    ensures Tips(Kept(slots, TipIds(contacts)), contacts) == Tips(slots, contacts)
  {
    hide TipAt, TipIds;
    forall s | 0 <= s < SLOTS
      ensures TipAt(Kept(slots, TipIds(contacts)), contacts, s) == TipAt(slots, contacts, s)
    {
      KeptTipAt(slots, TipIds(contacts), contacts, s);
    }
  }

  lemma {:induction false} KeptTipAt(slots: map<U32, nat>, present: set<U32>, contacts: seq<Contact>, s: nat)
    requires TipIds(contacts) <= present
    ensures TipAt(Kept(slots, present), contacts, s) == TipAt(slots, contacts, s)
  {
    hide HasTip;
    if contacts != [] {
      KeptTipAt(slots, present, contacts[..|contacts| - 1], s);
    }
  }

  /** Every mapped identifier the frame shows has a tip on its slot,
      and no other one does. */
  ghost predicate ShowsPresent(slots: map<U32, nat>, tips: Places, present: set<U32>) {
    forall id :: id in slots ==> slots[id] < SLOTS && (id in present <==> tips[slots[id]].Some?)
  }

  predicate Awaits(place: Option<Contact>, remaining: set<U32>) {
    place.Some? && place.value.identifier in remaining
  }

  /** Who leaves among the identifiers already looked at is lifted. */
  ghost function Marked(tips: Places, previous: Places, remaining: set<U32>): (next: Places)
    ensures forall s :: 0 <= s < SLOTS ==> next[s] == MarkedAt(tips[s], previous[s], remaining)
  {
    [MarkedAt(tips[0], previous[0], remaining), MarkedAt(tips[1], previous[1], remaining),
     MarkedAt(tips[2], previous[2], remaining), MarkedAt(tips[3], previous[3], remaining),
     MarkedAt(tips[4], previous[4], remaining)]
  }

  ghost function MarkedAt(tip: Option<Contact>, place: Option<Contact>, remaining: set<U32>): Option<Contact> {
    if tip.Some? || Awaits(place, remaining) then tip else Lifted(place)
  }

  /** A remembered contact names the one identifier that holds its slot. */
  lemma {:induction false} HolderIs(slots: map<U32, nat>, previous: Places, id: U32)
    requires Remembered(slots, previous) && id in slots
    ensures slots[id] < SLOTS
    ensures forall s :: 0 <= s < SLOTS && previous[s].Some? ==>
      (slots[id] == s <==> previous[s].value.identifier == id)
  {
    hide KnownContact, HasTip;
  }

  lemma {:induction false} MarkNothing(slots: map<U32, nat>, tips: Places, previous: Places)
    requires Remembered(slots, previous)
    ensures Marked(tips, previous, slots.Keys) == tips
  {
  }

  lemma {:induction false} MarkedAll(tips: Places, previous: Places)
    ensures Marked(tips, previous, {}) == NextContacts(tips, previous)
  {
  }

  lemma {:induction false} MarkStep(slots: map<U32, nat>, tips: Places, present: set<U32>, previous: Places,
                                    remaining: set<U32>, id: U32)
    requires Remembered(slots, previous) && ShowsPresent(slots, tips, present)
    requires id in remaining && remaining <= slots.Keys
    ensures slots[id] < SLOTS
    ensures var slot := slots[id];
      Marked(tips, previous, remaining - {id})
        == if id !in present && previous[slot].Some?
           then Marked(tips, previous, remaining)[slot := Some(Lift(previous[slot].value))]
           else Marked(tips, previous, remaining)
  {
    hide Lift, Remembered, Marked, ShowsPresent;
    HolderIs(slots, previous, id);
    PresentShown(slots, tips, present, id);
    var slot := slots[id];
    var now, later := Marked(tips, previous, remaining), Marked(tips, previous, remaining - {id});
    forall s | 0 <= s < SLOTS && s != slot
      ensures later[s] == now[s]
    {
      assert Awaits(previous[s], remaining - {id}) <==> Awaits(previous[s], remaining);
    }
  }

  lemma {:induction false} PresentShown(slots: map<U32, nat>, tips: Places, present: set<U32>, id: U32)
    requires ShowsPresent(slots, tips, present) && id in slots
    ensures slots[id] < SLOTS && (id in present <==> tips[slots[id]].Some?)
  {
  }

  predicate Gone(place: Option<Contact>, leaving: seq<U32>) {
    place.Some? && place.value.identifier in leaving
  }

  ghost function Without(slots: map<U32, nat>, leaving: seq<U32>): map<U32, nat> {
    map id | id in slots && id !in leaving :: slots[id]
  }

  ghost function Forgetting(previous: Places, leaving: seq<U32>): (places: Places)
    ensures forall s :: 0 <= s < SLOTS ==> places[s] == if Gone(previous[s], leaving) then None else previous[s]
  {
    [if Gone(previous[0], leaving) then None else previous[0],
     if Gone(previous[1], leaving) then None else previous[1],
     if Gone(previous[2], leaving) then None else previous[2],
     if Gone(previous[3], leaving) then None else previous[3],
     if Gone(previous[4], leaving) then None else previous[4]]
  }

  lemma {:induction false} DropNothing(slots: map<U32, nat>, previous: Places)
    ensures Without(slots, []) == slots && Forgetting(previous, []) == previous
  {
  }

  lemma {:induction false} DropStep(slots: map<U32, nat>, previous: Places, leaving: seq<U32>, id: U32)
    requires Remembered(slots, previous)
    ensures var kept, places := Without(slots, leaving), Forgetting(previous, leaving);
      && (id in kept ==>
           && kept[id] < SLOTS
           && Without(slots, leaving + [id]) == kept - {id}
           && Forgetting(previous, leaving + [id]) == places[kept[id] := None])
      && (id !in kept ==>
           && Without(slots, leaving + [id]) == kept
           && Forgetting(previous, leaving + [id]) == places)
  {
    hide Remembered, Forgetting;
    var now, later := Forgetting(previous, leaving), Forgetting(previous, leaving + [id]);
    if id in slots {
      HolderIs(slots, previous, id);
      forall s | 0 <= s < SLOTS && s != slots[id]
        ensures later[s] == now[s]
      {
        assert Gone(previous[s], leaving + [id]) <==> Gone(previous[s], leaving);
      }
    } else {
      NobodyNamed(slots, previous, id);
      forall s | 0 <= s < SLOTS
        ensures later[s] == now[s]
      {
        assert Gone(previous[s], leaving + [id]) <==> Gone(previous[s], leaving);
      }
    }
  }

  lemma {:induction false} NobodyNamed(slots: map<U32, nat>, previous: Places, id: U32)
    requires Remembered(slots, previous) && id !in slots
    ensures forall s :: 0 <= s < SLOTS && previous[s].Some? ==> previous[s].value.identifier != id
  {
    hide KnownContact, HasTip;
  }

  /** The first contact with that identifier. */
  function FindContact(contacts: seq<Contact>, identifier: U32): (found: Option<Contact>)
    ensures found.Some? ==> found.value in contacts && found.value.identifier == identifier
    ensures found.None? ==> forall i :: 0 <= i < |contacts| ==> contacts[i].identifier != identifier
  {
    if contacts == [] then None
    else if contacts[0].identifier == identifier then Some(contacts[0])
    else FindContact(contacts[1..], identifier)
  }

  lemma {:induction false} FoundTip(slots: map<U32, nat>, contacts: seq<Contact>, identifier: U32)
    requires Injective(slots) && DistinctIdentifiers(contacts)
    requires identifier in slots && slots.Keys == TipIds(contacts)
    ensures FindContact(contacts, identifier).Some?
    ensures TipAt(slots, contacts, slots[identifier]) == FindContact(contacts, identifier)
  {
    hide HasTip, TipIds, TipAt, FindContact;
    TipIdsMean(contacts);
    TipAtMeans(slots, contacts, slots[identifier]);
    var i :| 0 <= i < |contacts| && HasTip(contacts[i]) && contacts[i].identifier == identifier;
    assert IsTipAt(slots, contacts[i], slots[identifier]);
    var c := TipAt(slots, contacts, slots[identifier]).value;
    var k :| 0 <= k < |contacts| && contacts[k] == c;
    var f := FindContact(contacts, identifier).value;
    var j :| 0 <= j < |contacts| && contacts[j] == f;
  }

  lemma {:induction false} SlotBound(slots: map<U32, nat>, id: U32)
    requires Injective(slots) && id in slots
    ensures slots[id] < SLOTS
  {
  }

  ghost predicate OnlyHeld(slots: map<U32, nat>, places: Places) {
    forall s :: 0 <= s < SLOTS && places[s].Some? ==> s in slots.Values
  }

  /** The slots of the identifiers already looked at show their tips, and a slot
      nobody holds shows nothing. */
  ghost predicate Remembering(slots: map<U32, nat>, contacts: seq<Contact>, remaining: set<U32>, places: Places) {
    && OnlyHeld(slots, places)
    && forall id :: id in slots && id !in remaining ==>
         slots[id] < SLOTS && places[slots[id]] == TipAt(slots, contacts, slots[id])
  }

  lemma {:induction false} RememberNothing(slots: map<U32, nat>, contacts: seq<Contact>, places: Places)
    requires OnlyHeld(slots, places)
    ensures Remembering(slots, contacts, slots.Keys, places)
  {
  }

  lemma {:induction false} RememberStep(slots: map<U32, nat>, contacts: seq<Contact>, remaining: set<U32>,
                                        places: Places, id: U32)
    requires Injective(slots) && id in remaining && remaining <= slots.Keys
    requires Remembering(slots, contacts, remaining, places)
    ensures Remembering(slots, contacts, remaining - {id}, places[slots[id] := TipAt(slots, contacts, slots[id])])
  {
    hide TipAt;
    assert slots[id] in slots.Values;
  }

  lemma {:induction false} AllRemembered(slots: map<U32, nat>, contacts: seq<Contact>, places: Places)
    requires Remembering(slots, contacts, {}, places)
    ensures places == Tips(slots, contacts)
  {
    hide HasTip, TipAt;
    forall s | 0 <= s < SLOTS
      ensures places[s] == TipAt(slots, contacts, s)
    {
      if s in slots.Values {
        var id :| id in slots && slots[id] == s;
      } else {
        assert forall id :: id in slots ==> slots[id] in slots.Values;
      }
    }
  }

  lemma {:induction false} Prefix(contacts: seq<Contact>, n: nat)
    requires n < |contacts|
    ensures contacts[..n + 1] == contacts[..n] + [contacts[n]]
    ensures contacts[..n + 1][..n] == contacts[..n]
  {
  }

  lemma {:induction false} AssignNext(slots: map<U32, nat>, contacts: seq<Contact>, n: nat)
    requires n < |contacts|
    ensures var before := AssignSlots(slots, contacts[..n]);
      AssignSlots(slots, contacts[..n + 1])
        == if before.error.Some? then before else AssignOne(before.slots, contacts[n])
    ensures TipIds(contacts[..n + 1]) == TipIds(contacts[..n]) + TipId(contacts[n])
  {
    hide AssignOne, TipId;
    Prefix(contacts, n);
    AssignStep(slots, contacts[..n + 1]);
  }

  lemma {:induction false} OneInjective(slots: map<U32, nat>, c: Contact)
    requires Injective(slots)
    ensures Injective(AssignOne(slots, c).slots)
  {
    AssignOneLaw(slots, c);
  }

  lemma {:induction false} NoTipAssigned(slots: map<U32, nat>, c: Contact)
    requires !HasTip(c)
    ensures AssignOne(slots, c) == Assignment(slots, None)
  {
  }

  /** One contact more: its slot now shows it, and no other slot changes. */
  lemma {:induction false} TipsStep(before: map<U32, nat>, later: map<U32, nat>, early: seq<Contact>, c: Contact)
    requires AssignOne(before, c) == Assignment(later, None)
    requires TipIds(early) <= before.Keys && Injective(later)
    ensures TipIds(early) + TipId(c) <= later.Keys
    ensures TipIds(early) + TipId(c)
      == if HasTip(c) then TipIds(early) + {c.identifier} else TipIds(early)
    ensures HasTip(c) ==> c.identifier in later && later[c.identifier] < SLOTS
    ensures Tips(later, early + [c])
      == if HasTip(c) then Tips(before, early)[later[c.identifier] := Some(c)] else Tips(before, early)
  {
    hide TipIds, HasTip, TipAt, LeastFree, Tips;
    if !HasTip(c) {
      TipsSkip(later, early, c);
    } else {
      if c.identifier !in before {
        TipsFramed(before, c.identifier, later[c.identifier], early);
      }
      TipsAppend(later, early, c);
    }
  }

  lemma {:induction false} NoTips(slots: map<U32, nat>)
    ensures Tips(slots, []) == NOBODY && TipIds([]) == {}
  {
  }

  /** A failure among the first contacts is the failure of them all. */
  lemma {:induction false} AssignStuck(slots: map<U32, nat>, contacts: seq<Contact>, k: nat)
    requires k <= |contacts| && AssignSlots(slots, contacts[..k]).error.Some?
    ensures AssignSlots(slots, contacts) == AssignSlots(slots, contacts[..k])
    decreases |contacts|
  {
    hide AssignSlots, TipIds;
    if k < |contacts| {
      var n := |contacts| - 1;
      AssignStep(slots, contacts);
      assert contacts[..n][..k] == contacts[..k];
      AssignStuck(slots, contacts[..n], k);
    } else {
      assert contacts[..k] == contacts;
    }
  }

  /** A newcomer's slot does not disturb the tips before it. */
  lemma {:induction false} TipsFramed(slots: map<U32, nat>, id: U32, slot: nat, contacts: seq<Contact>)
    requires id !in TipIds(contacts)
    ensures Tips(slots[id := slot], contacts) == Tips(slots, contacts)
  {
    hide TipAt, TipIds;
    forall s | 0 <= s < SLOTS
      ensures TipAt(slots[id := slot], contacts, s) == TipAt(slots, contacts, s)
    {
      TipAtFramed(slots, id, slot, contacts, s);
    }
  }

  lemma {:induction false} TipAtFramed(slots: map<U32, nat>, id: U32, slot: nat, contacts: seq<Contact>, s: nat)
    requires id !in TipIds(contacts)
    ensures TipAt(slots[id := slot], contacts, s) == TipAt(slots, contacts, s)
  {
    hide HasTip;
    if contacts != [] {
      TipAtFramed(slots, id, slot, contacts[..|contacts| - 1], s);
    }
  }

  lemma {:induction false} TipsAppend(slots: map<U32, nat>, contacts: seq<Contact>, c: Contact)
    requires HasTip(c) && c.identifier in slots && slots[c.identifier] < SLOTS
    ensures Tips(slots, contacts + [c]) == Tips(slots, contacts)[slots[c.identifier] := Some(c)]
  {
    hide HasTip;
    assert (contacts + [c])[..|contacts|] == contacts;
  }

  lemma {:induction false} TipsSkip(slots: map<U32, nat>, contacts: seq<Contact>, c: Contact)
    requires !HasTip(c)
    ensures Tips(slots, contacts + [c]) == Tips(slots, contacts)
  {
    hide HasTip;
    assert (contacts + [c])[..|contacts|] == contacts;
  }
}
