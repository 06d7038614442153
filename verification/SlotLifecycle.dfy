/** The life of one slot over a whole run of the receiver, connections and
    timeouts included. */
module SlotLifecycle {
  import opened Words
  import opened Wire
  import opened Ioctl
  import opened Coordinates
  import opened Session
  import opened SessionLaws
  import opened SessionRuns
  import opened HostLaws
  import opened Driver
  import opened Receiver

  /** What the k-th frame says of a slot. */
  function Said(log: seq<Emission>, k: nat, slot: nat): Option<IoctlContact>
    requires k < |log| && log[k].frame.reportCount <= |log[k].frame.contacts|
  {
    SlotRecord(Records(log[k].frame), slot)
  }

  ghost predicate SaysTip(log: seq<Emission>, k: nat, slot: nat)
    requires k < |log|
  {
    && log[k].frame.reportCount <= |log[k].frame.contacts|
    && Said(log, k, slot).Some? && HasBit(Said(log, k, slot).value.flags, TIP)
  }

  ghost predicate SaysLift(log: seq<Emission>, k: nat, slot: nat)
    requires k < |log|
  {
    && log[k].frame.reportCount <= |log[k].frame.contacts|
    && Said(log, k, slot).Some? && !HasBit(Said(log, k, slot).value.flags, TIP)
  }

  /** One frame's word on a slot against the contact remembered there. */
  lemma {:induction false} SaidAt(round: Rounding, log: seq<Emission>, k: nat, slot: Byte)
    requires LogMoves(round, log) && k < |log| && slot < SLOTS
    ensures log[k].frame.reportCount <= |log[k].frame.contacts|
    ensures SaysTip(log, k, slot) <==> log[k].places[slot].Some?
    ensures SlotMove(round, slot, PlacesBefore(log, k)[slot], Said(log, k, slot), log[k].places[slot])
  {
    hide SlotRecord, Records, SlotMove;
    assert FrameMoves(round, PlacesBefore(log, k), log[k].frame, log[k].places);
    FramePart(round, PlacesBefore(log, k), log[k].frame, log[k].places, slot);
    MoveTip(round, slot, PlacesBefore(log, k)[slot], Said(log, k, slot), log[k].places[slot]);
  }

  lemma {:induction false} FramePart(round: Rounding, before: Places, f: IoctlFrame, later: Places, slot: Byte)
    requires FrameMoves(round, before, f, later) && slot < SLOTS
    ensures f.reportCount <= |f.contacts|
    ensures SlotMove(round, slot, before[slot], SlotRecord(Records(f), slot), later[slot])
  {
    hide SlotRecord, Records, SlotMove, FitRecord, TipCount;
  }

  lemma {:induction false} MoveTip(round: Rounding, slot: Byte, before: Option<Contact>,
                                   record: Option<IoctlContact>, later: Option<Contact>)
    requires SlotMove(round, slot, before, record, later)
    ensures record.Some? && HasBit(record.value.flags, TIP) <==> later.Some?
  {
    hide ToLogical, ToLogicalY;
    LiftsHaveNoTip(round);
  }

  /** From an empty slot on, frames without a tip there do not mention it. */
  lemma {:induction false} SilentWhileEmpty(round: Rounding, log: seq<Emission>, from: nat, until: nat, slot: Byte)
    requires LogMoves(round, log) && from <= until <= |log| && slot < SLOTS
    requires PlacesBefore(log, from)[slot].None?
    requires forall k :: from <= k < until ==> !SaysTip(log, k, slot)
    ensures forall k :: from <= k < until ==> !SaysLift(log, k, slot)
    decreases until - from
  {
    hide SlotMove, LogMoves, Said, SaysTip;
    if from < until {
      SaidAt(round, log, from, slot);
      EmptyStays(round, slot, Said(log, from, slot));
      assert log[from].places == PlacesBefore(log, from + 1);
      SilentWhileEmpty(round, log, from + 1, until, slot);
    }
  }

  lemma {:induction false} EmptyStays(round: Rounding, slot: Byte, record: Option<IoctlContact>)
    ensures SlotMove(round, slot, None, record, None) ==> record == None
  {
  }

  /** The range and confidence bits agree; only the first has the tip. */
  predicate SameButTip(tip: Byte, lift: Byte) {
    && HasBit(tip, 2) && !HasBit(lift, 2)
    && HasBit(lift, 1) == HasBit(tip, 1) && HasBit(lift, 4) == HasBit(tip, 4)
  }

  lemma {:induction false} SaidFits(round: Rounding, log: seq<Emission>, k: nat, slot: Byte)
    requires LogMoves(round, log) && k < |log| && slot < SLOTS && SaysTip(log, k, slot)
    ensures log[k].places[slot].Some? && log[k].places[slot].value.flags <= CONTACT_FLAGS
  {
    hide SlotMove, TipCount, LogMoves, HasBit;
    SaidAt(round, log, k, slot);
    assert FrameMoves(round, PlacesBefore(log, k), log[k].frame, log[k].places) by { MovesAt(round, log, k); }
    SlotRecordFrom(Records(log[k].frame), slot);
    SaidFlags(round, slot, PlacesBefore(log, k)[slot], Said(log, k, slot), log[k].places[slot]);
  }

  lemma {:induction false} MovesAt(round: Rounding, log: seq<Emission>, k: nat)
    requires LogMoves(round, log) && k < |log|
    ensures FrameMoves(round, PlacesBefore(log, k), log[k].frame, log[k].places)
  {
    hide FrameMoves;
  }

  lemma {:induction false} SaidFlags(round: Rounding, slot: Byte, before: Option<Contact>,
                                     record: Option<IoctlContact>, later: Option<Contact>)
    requires SlotMove(round, slot, before, record, later) && later.Some?
    ensures record.Some? && record.value.flags == later.value.flags
  {
    hide ToLogical, ToLogicalY;
  }

  /** A tip that the next frame does not continue is lifted by it, in place. */
  lemma {:induction false} LiftFollows(round: Rounding, log: seq<Emission>, slot: Byte, i: nat)
    requires LogMoves(round, log) && slot < SLOTS && i + 1 < |log|
    requires SaysTip(log, i, slot) && !SaysTip(log, i + 1, slot)
    ensures SaysLift(log, i + 1, slot) && LiftedFrom(log, i, slot)
    ensures log[i + 1].places[slot] == None
  {
    hide LogMoves, SaysTip, SlotRecord, Records, ToLogical, ToLogicalY, HasBit;
    SaidFits(round, log, i, slot);
    LiftKeeps(log[i].places[slot].value);
    SaidAt(round, log, i, slot);
    SaidAt(round, log, i + 1, slot);
    LiftsHaveNoTip(round);
  }

  /** The record after the i-th repeats its position, its range and its confidence. */
  ghost predicate LiftedFrom(log: seq<Emission>, i: nat, slot: nat)
    requires i + 1 < |log| && SaysTip(log, i, slot) && SaysLift(log, i + 1, slot)
  {
    var tip, lift := Said(log, i, slot).value, Said(log, i + 1, slot).value;
    lift.x == tip.x && lift.y == tip.y && SameButTip(tip.flags, lift.flags)
  }

  /** A frame may show two successive tips on a slot (no frame between them shows
      one) in two ways only: as the next frame of the same touch, or as different
      touches with exactly one lift between them, which directly follows the
      first and repeats its position, its range and its confidence. */
  lemma {:induction false} BetweenTips(round: Rounding, log: seq<Emission>, slot: Byte, i: nat, j: nat)
    requires LogMoves(round, log) && slot < SLOTS && i < j < |log|
    requires SaysTip(log, i, slot) && SaysTip(log, j, slot)
    requires forall k :: i < k < j ==> !SaysTip(log, k, slot)
    ensures log[i].places[slot].Some? && log[j].places[slot].Some?
    ensures j == i + 1 ==>
      log[j].places[slot].value.identifier == log[i].places[slot].value.identifier
    ensures i + 1 < j ==>
      && SaysLift(log, i + 1, slot) && LiftedFrom(log, i, slot)
      && forall k :: i + 1 < k < j ==> !SaysLift(log, k, slot)
  {
    hide LogMoves, SaysTip, SlotRecord, Records, ToLogical, ToLogicalY, HasBit, LiftedFrom;
    SaidAt(round, log, i, slot);
    SaidAt(round, log, j, slot);
    if i + 1 < j {
      LiftFollows(round, log, slot, i);
      SilentWhileEmpty(round, log, i + 2, j, slot);
    }
  }

  /** The same for every run of the connection loop, across reconnects, timeouts
      and errors. */
  lemma {:induction false} TouchesOfARun(round: Rounding, connections: seq<seq<Event>>, events: seq<Event>,
                                         slot: Byte, i: nat, j: nat)
    requires slot < SLOTS
    ensures var log := RunEvents(round, Serve(round, connections), events).log;
      i < j < |log| && SaysTip(log, i, slot) && SaysTip(log, j, slot)
      && (forall k :: i < k < j ==> !SaysTip(log, k, slot)) ==>
        && (j == i + 1 ==>
             log[i].places[slot].Some? && log[j].places[slot].Some?
             && log[j].places[slot].value.identifier == log[i].places[slot].value.identifier)
        && (i + 1 < j ==>
             && SaysLift(log, i + 1, slot) && LiftedFrom(log, i, slot)
             && forall k :: i + 1 < k < j ==> !SaysLift(log, k, slot))
  {
    hide Serve, RunEvents, SaysTip, SaysLift, Said, LogMoves, Inv, Synced, LiftedFrom;
    ServeQuiet(round, connections);
    EventsSound(round, Serve(round, connections), events);
    var log := RunEvents(round, Serve(round, connections), events).log;
    if i < j < |log| && SaysTip(log, i, slot) && SaysTip(log, j, slot)
       && forall k :: i < k < j ==> !SaysTip(log, k, slot) {
      BetweenTips(round, log, slot, i, j);
    }
  }

  /** An input that neither releases nor drops the identifier. */
  ghost predicate KeepsDown(round: Rounding, st: SessionState, input: Input, id: U32) {
    match input
    case Poll(now) => OnTimeout(round, st, now).outcome == Silent
    case Deliver(m, now) => m.kind == Frame && id in TipIds(m.contacts)
  }

  /** An identifier keeps its slot for as long as it stays tip-down and no RESET
      or timeout release intervenes. */
  lemma {:induction false} KeepsSlot(round: Rounding, inputs: seq<Input>, from: nat, id: U32)
    requires DeliversWellFormed(inputs) && RunSession(round, inputs).error == None
    requires from <= |inputs| && id in RunSession(round, inputs[..from]).state.slots
    requires forall k :: from <= k < |inputs| ==>
      KeepsDown(round, RunSession(round, inputs[..k]).state, inputs[k], id)
    ensures id in RunSession(round, inputs).state.slots
    ensures RunSession(round, inputs).state.slots[id] == RunSession(round, inputs[..from]).state.slots[id]
    decreases |inputs|
  {
    hide Process, OnTimeout, TipIds, Matched, Remembered, WellFormed;
    if from == |inputs| {
      assert inputs[..from] == inputs;
    } else {
      var n := |inputs| - 1;
      var early := inputs[..n];
      assert early[..from] == inputs[..from];
      assert forall k :: from <= k < n ==> early[..k] == inputs[..k];
      KeepsSlot(round, early, from, id);
      AcceptedRuns(round, early);
      assert KeepsDown(round, RunSession(round, inputs[..n]).state, inputs[n], id);
      StepKeepsSlot(round, RunSession(round, early).state, inputs[n], id);
    }
  }

  lemma {:induction false} StepKeepsSlot(round: Rounding, st: SessionState, input: Input, id: U32)
    requires Synced(st) && KeepsDown(round, st, input, id) && !StepInput(round, st, input).outcome.Throw?
    requires id in st.slots
    ensures var later := StepInput(round, st, input).state.slots;
      id in later && later[id] == st.slots[id]
  {
    hide FrameOf, TipIds, AssignSlots, Matched;
    SyncedInv(st);
    if input.Deliver? {
      FrameReports(round, st, input.message, input.now);
      FrameSlots(round, st, input.message, input.now);
    }
  }

  lemma {:induction false} FrameReports(round: Rounding, st: SessionState, m: Message, now: int)
    requires m.kind == Frame && !Process(round, st, m, now).outcome.Throw?
    ensures Process(round, st, m, now).outcome.Report?
  {
  }
}
