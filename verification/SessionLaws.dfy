/** What every call of the session keeps, the exact capacity law, and the
    abstract session that says which runs never throw. */
module SessionLaws {
  import opened Words
  import opened Wire
  import opened Ioctl
  import opened Coordinates
  import opened Session

  const ALL_SLOTS: set<nat> := {0, 1, 2, 3, 4}

  lemma {:induction false} SubsetCard<T>(small: set<T>, large: set<T>)
    requires small <= large
    ensures |small| <= |large|
    decreases |small|
  {
    if small != {} {
      var x :| x in small;
      SubsetCard(small - {x}, large - {x});
    }
  }

  /** Removing one key of an injective map removes one value. */
  lemma {:induction false} ValuesWithout(slots: map<U32, nat>, rest: map<U32, nat>, id: U32)
    requires forall a, b :: a in slots && b in slots && slots[a] == slots[b] ==> a == b
    requires id in slots && id !in rest && slots == rest[id := slots[id]]
    ensures slots.Values == rest.Values + {slots[id]} && slots[id] !in rest.Values
    ensures slots.Keys == rest.Keys + {id}
  {
    assert forall k :: k in rest ==> k in slots && rest[k] == slots[k];
  }

  /** An injective map has as many values as keys. */
  lemma {:induction false} ValueCount(slots: map<U32, nat>)
    requires forall a, b :: a in slots && b in slots && slots[a] == slots[b] ==> a == b
    ensures |slots.Values| == |slots|
    decreases |slots|
  {
    if slots.Keys != {} {
      var id :| id in slots.Keys;
      var rest := slots - {id};
      assert slots == rest[id := slots[id]];
      ValuesWithout(slots, rest, id);
      OneMore(rest.Keys, id);
      OneMore(rest.Values, slots[id]);
      assert |slots| == |slots.Keys| && |rest| == |rest.Keys|;
      ValueCount(rest);
    }
  }

  lemma {:induction false} OneMore<T>(some: set<T>, x: T)
    requires x !in some
    ensures |some + {x}| == |some| + 1
  {
  }

  lemma {:induction false} AtMostFive(slots: map<U32, nat>)
    requires Injective(slots)
    ensures |slots| == |slots.Values| <= SLOTS
  {
    ValueCount(slots);
    ValuesAreSlots(slots);
    hide Injective;
    SubsetCard(slots.Values, ALL_SLOTS);
  }

  lemma {:induction false} ValuesAreSlots(slots: map<U32, nat>)
    requires Injective(slots)
    ensures slots.Values <= ALL_SLOTS && |ALL_SLOTS| == SLOTS
  {
  }

  /** Below capacity a slot is free. */
  lemma {:induction false} Pigeonhole(slots: map<U32, nat>)
    requires Injective(slots) && |slots| < SLOTS
    ensures LeastFree(slots, 0).Some?
  {
    hide Injective;
    AtMostFive(slots);
    LeastFreeMeans(slots, 0);
    if LeastFree(slots, 0).None? {
      assert ALL_SLOTS <= slots.Values by {
        assert forall s :: 0 <= s < SLOTS ==> !Free(slots, s);
      }
      SubsetCard(ALL_SLOTS, slots.Values);
    }
  }

  /** The map grew, and only by the identifiers allowed. */
  ghost predicate Grows(slots: map<U32, nat>, later: map<U32, nat>, allowed: set<U32>) {
    && slots.Keys <= later.Keys <= slots.Keys + allowed
    && forall id :: id in slots ==> later[id] == slots[id]
  }

  lemma {:induction false} GrowsOn(slots: map<U32, nat>, middle: map<U32, nat>, later: map<U32, nat>,
                                   first: set<U32>, second: set<U32>)
    requires Grows(slots, middle, first) && Grows(middle, later, second)
    ensures Grows(slots, later, first + second)
  {
  }

  lemma {:induction false} Placed(slots: map<U32, nat>, id: U32, slot: nat)
    requires Injective(slots) && id !in slots && slot < SLOTS && Free(slots, slot)
    ensures Injective(slots[id := slot]) && Grows(slots, slots[id := slot], {id})
    ensures slots[id := slot].Keys == slots.Keys + {id}
  {
  }

  lemma {:induction false} AssignOneLaw(slots: map<U32, nat>, c: Contact)
    requires Injective(slots)
    ensures var a := AssignOne(slots, c);
      && Injective(a.slots) && Grows(slots, a.slots, TipId(c))
      && (a.error == None ==> a.slots.Keys == slots.Keys + TipId(c))
      && (a.error == None <==> |slots.Keys + TipId(c)| <= SLOTS)
      && (a.error != None ==> a.error == Some(TooManyContacts) && |a.slots| >= SLOTS)
  {
    hide LeastFree, HasTip, Injective, Free;
    AtMostFive(slots);
    assert Grows(slots, slots, TipId(c));
    if HasTip(c) && c.identifier !in slots {
      assert |slots.Keys + TipId(c)| == |slots| + 1;
      if |slots| < SLOTS {
        Pigeonhole(slots);
        LeastFreeMeans(slots, 0);
        Placed(slots, c.identifier, LeastFree(slots, 0).value);
      }
    } else {
      assert slots.Keys + TipId(c) == slots.Keys;
    }
  }

  lemma {:induction false} GrowsNot(slots: map<U32, nat>)
    ensures Grows(slots, slots, {})
  {
  }

  lemma {:induction false} GrowsWithin(slots: map<U32, nat>, later: map<U32, nat>, first: set<U32>, second: set<U32>)
    requires Grows(slots, later, first)
    ensures Grows(slots, later, first + second)
  {
  }

  lemma {:induction false} UnionAssoc<T>(a: set<T>, b: set<T>, c: set<T>)
    ensures (a + b) + c == a + (b + c)
  {
  }

  lemma {:induction false} UnionEmpty<T>(a: set<T>)
    ensures a + {} == a
  {
  }

  lemma {:induction false} AssignStep(slots: map<U32, nat>, contacts: seq<Contact>)
    requires contacts != []
    ensures var n := |contacts| - 1;
      var before := AssignSlots(slots, contacts[..n]);
      && AssignSlots(slots, contacts)
           == (if before.error.Some? then before else AssignOne(before.slots, contacts[n]))
      && TipIds(contacts) == TipIds(contacts[..n]) + TipId(contacts[n])
  {
  }

  lemma {:induction false} AssignNothing(slots: map<U32, nat>)
    ensures AssignSlots(slots, []) == Assignment(slots, None) && TipIds([]) == {}
  {
  }

  lemma {:induction false} AssignGrows(slots: map<U32, nat>, contacts: seq<Contact>)
    requires Injective(slots)
    ensures var a := AssignSlots(slots, contacts);
      && Injective(a.slots) && Grows(slots, a.slots, TipIds(contacts))
      && (a.error == None ==> a.slots.Keys == slots.Keys + TipIds(contacts))
  {
    hide Injective, AssignOne, TipId, Grows, AssignSlots, TipIds;
    if contacts == [] {
      AssignNothing(slots);
      GrowsNot(slots);
      UnionEmpty(slots.Keys);
    } else {
      var n := |contacts| - 1;
      var before := AssignSlots(slots, contacts[..n]);
      var early, last := TipIds(contacts[..n]), TipId(contacts[n]);
      AssignStep(slots, contacts);
      AssignGrows(slots, contacts[..n]);
      AssignOneLaw(before.slots, contacts[n]);
      GrowsOn(slots, before.slots, AssignOne(before.slots, contacts[n]).slots, early, last);
      GrowsWithin(slots, before.slots, early, last);
      UnionAssoc(slots.Keys, early, last);
    }
  }

  lemma {:induction false} AssignOverflows(slots: map<U32, nat>, contacts: seq<Contact>)
    requires Injective(slots) && AssignSlots(slots, contacts).error != None
    ensures AssignSlots(slots, contacts).error == Some(TooManyContacts)
    ensures |slots.Keys + TipIds(contacts)| > SLOTS
    ensures |AssignSlots(slots, contacts).slots| >= SLOTS
  {
    hide Injective, AssignOne, TipId, Grows, AssignSlots, TipIds;
    AssignNothing(slots);
    AssignStep(slots, contacts);
    var n := |contacts| - 1;
    var before := AssignSlots(slots, contacts[..n]);
    var early, last := TipIds(contacts[..n]), TipId(contacts[n]);
    if before.error != None {
      AssignOverflows(slots, contacts[..n]);
      SubsetCard(slots.Keys + early, slots.Keys + (early + last));
    } else {
      AssignGrows(slots, contacts[..n]);
      AssignOneLaw(before.slots, contacts[n]);
      UnionAssoc(slots.Keys, early, last);
    }
  }

  /** Assigning a frame's tips only ever adds to the map and keeps it
      injective. It succeeds exactly when the old identifiers and the frame's
      tips together fit the five slots, and it can only fail for want of
      capacity, never for want of a free slot. */
  lemma {:induction false} AssignLaw(slots: map<U32, nat>, contacts: seq<Contact>)
    requires Injective(slots)
    ensures var a := AssignSlots(slots, contacts);
      && Injective(a.slots) && Grows(slots, a.slots, TipIds(contacts))
      && (a.error == None ==> a.slots.Keys == slots.Keys + TipIds(contacts))
      && (a.error == None <==> |slots.Keys + TipIds(contacts)| <= SLOTS)
      && (a.error != None ==> a.error == Some(TooManyContacts) && |a.slots| >= SLOTS)
  {
    hide Injective, AssignSlots, TipIds, Grows;
    AssignGrows(slots, contacts);
    var a := AssignSlots(slots, contacts);
    if a.error == None {
      AtMostFive(a.slots);
    } else {
      AssignOverflows(slots, contacts);
    }
  }

  /** Process throws for capacity exactly when the identifiers already mapped
      and the frame's tips, leavers included, exceed the five slots; that is
      also the only way a FRAME past the lifecycle checks can throw. */
  lemma {:induction false} CapacityLaw(round: Rounding, st: SessionState, m: Message, now: int)
    requires Inv(st) && st.helloSeen && st.resetSeen && m.kind == Frame
    requires st.sequenceSeen ==> m.sequence == Wrap32(st.previousSequence + 1)
    ensures Process(round, st, m, now).outcome.Throw? <==> |st.slots.Keys + TipIds(m.contacts)| > 5
    ensures Process(round, st, m, now).outcome.Throw? ==>
      Process(round, st, m, now).outcome.error == TooManyContacts
  {
    hide Process, FrameStep, Remembered, TipIds;
    RememberedInjective(st.slots, st.previous);
    AssignLaw(st.slots, m.contacts);
    LifecyclePassed(round, st, m, now);
    FrameThrows(round, st.(sequenceSeen := true, previousSequence := m.sequence), m, now);
  }

  lemma {:induction false} RememberedInjective(slots: map<U32, nat>, previous: Places)
    requires Remembered(slots, previous)
    ensures Injective(slots)
  {
  }

  lemma {:induction false} LifecyclePassed(round: Rounding, st: SessionState, m: Message, now: int)
    requires st.helloSeen && st.resetSeen && m.kind == Frame
    requires st.sequenceSeen ==> m.sequence == Wrap32(st.previousSequence + 1)
    ensures Process(round, st, m, now)
      == FrameStep(round, st.(sequenceSeen := true, previousSequence := m.sequence), m, now)
  {
    hide FrameStep;
  }

  lemma {:induction false} FrameThrows(round: Rounding, st: SessionState, m: Message, now: int)
    ensures var error, outcome := AssignSlots(st.slots, m.contacts).error, FrameStep(round, st, m, now).outcome;
      if error.Some? then outcome == Throw(error.value) else outcome.Report?
  {
    hide AssignSlots, FrameOf, TipIds, Tips, Kept, NextContacts, ScanTime, ButtonFlag;
  }

  /** After a frame the map and the remembered contacts are the frame's tips. */
  lemma {:induction false} FrameSynced(slots: map<U32, nat>, contacts: seq<Contact>)
    requires Injective(slots) && TipIds(contacts) <= slots.Keys
    requires forall i :: 0 <= i < |contacts| ==> KnownContact(contacts[i])
    ensures Matched(Kept(slots, TipIds(contacts)), Tips(slots, contacts))
  {
    hide TipAt, KnownContact, HasTip, TipIds;
    var kept, tips := Kept(slots, TipIds(contacts)), Tips(slots, contacts);
    TipIdsMean(contacts);
    forall s | 0 <= s < SLOTS && tips[s].Some?
      ensures Holds(kept, tips[s].value, s)
    {
      TipAtMeans(slots, contacts, s);
    }
    forall id | id in kept
      ensures tips[kept[id]].Some? && tips[kept[id]].value.identifier == id
    {
      var i :| 0 <= i < |contacts| && HasTip(contacts[i]) && contacts[i].identifier == id;
      TipAtMeans(slots, contacts, kept[id]);
      assert IsTipAt(slots, contacts[i], kept[id]);
    }
  }

  /** No call breaks the invariant, not even one that throws after changing
      part of the state; a call that returns also leaves the map in step with
      what was reported. */
  lemma {:induction false} ProcessKeeps(round: Rounding, st: SessionState, m: Message, now: int)
    requires Inv(st) && WellFormed(m)
    ensures var step := Process(round, st, m, now);
      && Inv(step.state)
      && (Synced(st) && !step.outcome.Throw? ==> Synced(step.state))
      && (step.outcome.Throw? ==>
           step.state.previous == st.previous && st.slots.Keys <= step.state.slots.Keys)
  {
    hide FrameStep, FrameOf, Injective, Holds, DistinctIdentifiers, KnownContact;
    NobodyMatched();
    if st.helloSeen && st.resetSeen && m.kind == Frame {
      FrameStepKeeps(round, st.(sequenceSeen := true, previousSequence := m.sequence), m, now);
    }
  }

  lemma {:induction false} NobodyMatched()
    ensures Matched(map[], NOBODY) && Remembered(map[], NOBODY)
  {
  }

  lemma {:induction false} FrameStepKeeps(round: Rounding, st: SessionState, m: Message, now: int)
    requires Inv(st)
    requires forall i :: 0 <= i < |m.contacts| ==> KnownContact(m.contacts[i])
    ensures var step := FrameStep(round, st, m, now);
      && Inv(step.state)
      && (!step.outcome.Throw? ==> Synced(step.state))
      && (step.outcome.Throw? ==>
           step.state.previous == st.previous && st.slots.Keys <= step.state.slots.Keys)
  {
    hide AssignSlots, FrameOf, TipIds, Tips, KnownContact, HasTip, Injective;
    AssignLaw(st.slots, m.contacts);
    var a := AssignSlots(st.slots, m.contacts);
    if a.error == None {
      FrameSynced(a.slots, m.contacts);
    } else {
      assert forall c, s :: Holds(st.slots, c, s) ==> Holds(a.slots, c, s);
    }
  }

  /** After a frame exactly its tips are mapped, and an identifier that was
      mapped before keeps its slot. */
  lemma {:induction false} FrameSlots(round: Rounding, st: SessionState, m: Message, now: int)
    requires Inv(st) && m.kind == Frame
    requires Process(round, st, m, now).outcome.Report?
    ensures var later := Process(round, st, m, now).state.slots;
      && later.Keys == TipIds(m.contacts)
      && forall id :: id in later && id in st.slots ==> later[id] == st.slots[id]
  {
    hide AssignSlots, FrameOf, TipIds, Tips, Injective;
    AssignLaw(st.slots, m.contacts);
    var kept := Kept(AssignSlots(st.slots, m.contacts).slots, TipIds(m.contacts));
    assert kept.Keys == TipIds(m.contacts);
  }

  /** The slot is held by a contact of the map before the frame, leaving or
      not, or by a tip listed earlier in the frame. */
  ghost predicate Taken(slots: map<U32, nat>, later: map<U32, nat>, contacts: seq<Contact>, k: nat, slot: nat)
    requires k <= |contacts|
  {
    !Free(slots, slot) || exists j :: 0 <= j < k && IsTipAt(later, contacts[j], slot)
  }

  ghost predicate TookLeast(slots: map<U32, nat>, later: map<U32, nat>, contacts: seq<Contact>, k: nat)
    requires k < |contacts|
  {
    var id := contacts[k].identifier;
    && id in later && Free(slots, later[id])
    && forall u :: 0 <= u < later[id] ==> Taken(slots, later, contacts, k, u)
  }

  /** Every newcomer gets a slot nobody holds, not even a leaving contact, and
      every lower slot is held. */
  lemma {:induction false} LeastSlotLaw(slots: map<U32, nat>, contacts: seq<Contact>, k: nat)
    requires Injective(slots) && AssignSlots(slots, contacts).error == None
    requires k < |contacts| && HasTip(contacts[k]) && contacts[k].identifier !in slots
    ensures TookLeast(slots, AssignSlots(slots, contacts).slots, contacts, k)
  {
    hide AssignSlots, AssignOne, TipIds, TipId, HasTip, Injective, LeastFree, Free, TookLeast, Grows;
    var n := |contacts| - 1;
    var early := contacts[..n];
    AssignStep(slots, contacts);
    AssignGrows(slots, early);
    AssignGrows(slots, contacts);
    var before, later := AssignSlots(slots, early).slots, AssignSlots(slots, contacts).slots;
    AssignOneLaw(before, contacts[n]);
    if k < n {
      LeastSlotLaw(slots, early, k);
      TookLeastStays(slots, before, later, TipId(contacts[n]), early, contacts, k);
    } else if contacts[k].identifier in before {
      TipIdsMean(early);
      var j :| 0 <= j < n && HasTip(early[j]) && early[j].identifier == contacts[k].identifier;
      LeastSlotLaw(slots, early, j);
      TookLeastStays(slots, before, later, TipId(contacts[n]), early, contacts, j);
      TookLeastAgain(slots, later, contacts, j, k);
    } else {
      NewcomerTakesLeast(slots, before, contacts);
    }
  }

  lemma {:induction false} TookLeastAgain(slots: map<U32, nat>, later: map<U32, nat>, contacts: seq<Contact>,
                                          j: nat, k: nat)
    requires j <= k < |contacts| && contacts[j].identifier == contacts[k].identifier
    requires TookLeast(slots, later, contacts, j)
    ensures TookLeast(slots, later, contacts, k)
  {
    hide Free, IsTipAt;
    assert forall u :: Taken(slots, later, contacts, j, u) ==> Taken(slots, later, contacts, k, u);
  }

  lemma {:induction false} TookLeastStays(slots: map<U32, nat>, before: map<U32, nat>, later: map<U32, nat>,
                                          more: set<U32>, early: seq<Contact>, contacts: seq<Contact>, k: nat)
    requires k < |early| && early <= contacts && TookLeast(slots, before, early, k)
    requires Grows(before, later, more)
    ensures TookLeast(slots, later, contacts, k)
  {
    hide Free, HasTip;
    var id := contacts[k].identifier;
    assert early[k] == contacts[k];
    forall u | 0 <= u < later[id]
      ensures Taken(slots, later, contacts, k, u)
    {
      assert Taken(slots, before, early, k, u);
      if Free(slots, u) {
        var j :| 0 <= j < k && IsTipAt(before, early[j], u);
        assert IsTipAt(later, contacts[j], u);
      }
    }
  }

  lemma {:induction false} NewcomerTakesLeast(slots: map<U32, nat>, before: map<U32, nat>, contacts: seq<Contact>)
    requires contacts != [] && Injective(before)
    requires var n := |contacts| - 1;
      && HasTip(contacts[n]) && contacts[n].identifier !in before
      && AssignOne(before, contacts[n]).error == None
      && Grows(slots, before, TipIds(contacts[..n]))
    ensures TookLeast(slots, AssignOne(before, contacts[|contacts| - 1]).slots, contacts, |contacts| - 1)
  {
    hide TipIds, HasTip, Injective, LeastFree;
    var n := |contacts| - 1;
    var c := contacts[n];
    LeastFreeMeans(before, 0);
    var slot := LeastFree(before, 0).value;
    var later := before[c.identifier := slot];
    TipIdsMean(contacts[..n]);
    forall u | 0 <= u < slot
      ensures Taken(slots, later, contacts, n, u)
    {
      assert !Free(before, u);
      var id :| id in before && before[id] == u;
      if id !in slots {
        var j :| 0 <= j < n && HasTip(contacts[..n][j]) && contacts[..n][j].identifier == id;
        assert IsTipAt(later, contacts[j], u);
      }
    }
  }
}
