/** Whole runs of one session: calls of Process in any order with timeout polls
    between them, and exactly which of them finish without a throw. */
module SessionRuns {
  import opened Words
  import opened Wire
  import opened Ioctl
  import opened Coordinates
  import opened Session
  import opened SessionLaws

  datatype Input = Deliver(message: Message, now: int) | Poll(now: int)

  datatype Run = Run(state: SessionState, error: Option<ProtocolError>)

  function StepInput(round: Rounding, st: SessionState, input: Input): Step {
    match input
    case Deliver(m, now) => Process(round, st, m, now)
    case Poll(now) => OnTimeout(round, st, now)
  }

  /** A run ends at the first throw. */
  function RunSession(round: Rounding, inputs: seq<Input>): Run {
    if inputs == [] then Run(INITIAL, None)
    else
      var n := |inputs| - 1;
      var before := RunSession(round, inputs[..n]);
      if before.error.Some? then before
      else
        var step := StepInput(round, before.state, inputs[n]);
        Run(step.state, if step.outcome.Throw? then Some(step.outcome.error) else None)
  }

  function Messages(inputs: seq<Input>): seq<Message> {
    if inputs == [] then []
    else
      var n := |inputs| - 1;
      Messages(inputs[..n]) + match inputs[n] case Deliver(m, now) => [m] case Poll(now) => []
  }

  /** A session with no slots, records or lifecycle: who is touching, whether
      the button is down, and since when. */
  datatype Grip = Grip(held: set<U32>, button: bool, since: int)

  /** A poll at that time releases something. */
  predicate Releases(grip: Grip, now: int) {
    (grip.held != {} || grip.button) && now - grip.since >= FRAME_TIMEOUT_MS
  }

  function GripStep(grip: Grip, input: Input): Grip {
    match input
    case Poll(now) => if Releases(grip, now) then Grip({}, false, grip.since) else grip
    case Deliver(m, now) =>
      match m.kind
      case Hello => grip
      case Reset => Grip({}, false, grip.since)
      case Frame => Grip(TipIds(m.contacts), ButtonFlag(m), now)
  }

  function GripAfter(inputs: seq<Input>): Grip {
    if inputs == [] then Grip({}, false, 0)
    else GripStep(GripAfter(inputs[..|inputs| - 1]), inputs[|inputs| - 1])
  }

  /** HELLO first, RESET second, and no HELLO after that. */
  predicate KindAllowed(index: nat, kind: MessageType) {
    if index == 0 then kind == Hello else if index == 1 then kind == Reset else kind != Hello
  }

  predicate InLanguage(messages: seq<Message>) { KindsAllowed(messages) && Consecutive(messages) }

  predicate KindsAllowed(messages: seq<Message>) {
    forall i :: 0 <= i < |messages| ==> KindAllowed(i, messages[i].kind)
  }

  predicate Consecutive(messages: seq<Message>) {
    forall i :: 0 < i < |messages| ==> messages[i].sequence == Wrap32(messages[i - 1].sequence + 1)
  }

  /** Every FRAME fits the five slots together with whoever was touching. */
  predicate FitsAt(inputs: seq<Input>, i: nat)
    requires i < |inputs|
  {
    inputs[i].Deliver? && inputs[i].message.kind == Frame ==>
      |GripAfter(inputs[..i]).held + TipIds(inputs[i].message.contacts)| <= SLOTS
  }

  predicate Fits(inputs: seq<Input>) {
    forall i :: 0 <= i < |inputs| ==> FitsAt(inputs, i)
  }

  ghost predicate DeliversWellFormed(inputs: seq<Input>) {
    forall i :: 0 <= i < |inputs| && inputs[i].Deliver? ==> WellFormed(inputs[i].message)
  }

  /** The concrete session stands where the abstract one does. */
  ghost predicate Stands(st: SessionState, messages: seq<Message>, grip: Grip) {
    && Synced(st)
    && st.sequenceSeen == st.helloSeen == (|messages| > 0)
    && st.resetSeen == (|messages| > 1)
    && (messages != [] ==> st.previousSequence == messages[|messages| - 1].sequence)
    && st.slots.Keys == grip.held && st.buttonDown == grip.button && st.lastFrameTime == grip.since
  }

  /** What the next input must satisfy. */
  predicate Admissible(messages: seq<Message>, grip: Grip, input: Input) {
    input.Deliver? ==>
      && KindAllowed(|messages|, input.message.kind)
      && (messages != [] ==> input.message.sequence == Wrap32(messages[|messages| - 1].sequence + 1))
      && (input.message.kind == Frame ==> |grip.held + TipIds(input.message.contacts)| <= SLOTS)
  }

  lemma {:induction false} DeliverStands(round: Rounding, st: SessionState, messages: seq<Message>, grip: Grip,
                                         m: Message, now: int)
    requires Stands(st, messages, grip) && WellFormed(m)
    ensures var step := Process(round, st, m, now);
      && (!step.outcome.Throw? <==> Admissible(messages, grip, Deliver(m, now)))
      && (!step.outcome.Throw? ==> Stands(step.state, messages + [m], GripStep(grip, Deliver(m, now))))
      && (step.outcome.Throw? && KindAllowed(|messages|, m.kind)
          && (messages != [] ==> m.sequence == Wrap32(messages[|messages| - 1].sequence + 1))
          ==> step.outcome.error == TooManyContacts)
  {
    hide Process, TipIds, Matched, Remembered, WellFormed, GripStep;
    SyncedInv(st);
    ProcessKeeps(round, st, m, now);
    if m.kind == Frame && st.helloSeen && st.resetSeen && m.sequence == Wrap32(st.previousSequence + 1) {
      CapacityLaw(round, st, m, now);
      FrameOutcome(round, st, grip, m, now);
    } else {
      ControlOutcome(round, st, messages, grip, m, now);
    }
  }

  /** Whatever is not a FRAME past the lifecycle checks. */
  lemma {:induction false} ControlOutcome(round: Rounding, st: SessionState, messages: seq<Message>, grip: Grip,
                                          m: Message, now: int)
    requires Stands(st, messages, grip)
    requires !(m.kind == Frame && st.helloSeen && st.resetSeen && m.sequence == Wrap32(st.previousSequence + 1))
    ensures var step, later := Process(round, st, m, now), GripStep(grip, Deliver(m, now));
      && (!step.outcome.Throw? <==>
           && KindAllowed(|messages|, m.kind)
           && (messages != [] ==> m.sequence == Wrap32(messages[|messages| - 1].sequence + 1)))
      && (!step.outcome.Throw? ==>
           && m.kind != Frame && step.state.sequenceSeen && step.state.helloSeen
           && step.state.previousSequence == m.sequence && step.state.resetSeen == (|messages| > 0)
           && step.state.slots.Keys == later.held && step.state.buttonDown == later.button
           && step.state.lastFrameTime == later.since)
  {
    hide FrameStep, ReleaseFrame, Matched;
  }

  /** Which error a message meets, by the messages before it and who is touching: the
      sequence first, then the lifecycle, then capacity. */
  function ErrorOf(messages: seq<Message>, grip: Grip, m: Message): Option<ProtocolError> {
    if messages != [] && m.sequence != Wrap32(messages[|messages| - 1].sequence + 1) then Some(SequenceDiscontinuity)
    else if messages != [] && m.kind == Hello then Some(UnexpectedHello)
    else if messages == [] && m.kind != Hello then Some(BeforeHello)
    else if |messages| == 1 && m.kind == Frame then Some(FrameBeforeReset)
    else if m.kind == Frame && |grip.held + TipIds(m.contacts)| > 5 then Some(TooManyContacts)
    else None
  }

  lemma {:induction false} WhichError(round: Rounding, st: SessionState, messages: seq<Message>, grip: Grip,
                                      m: Message, now: int)
    requires Stands(st, messages, grip) && WellFormed(m)
    ensures var outcome := Process(round, st, m, now).outcome;
      match ErrorOf(messages, grip, m)
      case Some(error) => outcome == Throw(error)
      case None => !outcome.Throw?
  {
    hide FrameStep, ReleaseFrame, TipIds, Matched, WellFormed, Remembered;
    SyncedInv(st);
    if m.kind == Frame && st.helloSeen && st.resetSeen && m.sequence == Wrap32(st.previousSequence + 1) {
      CapacityLaw(round, st, m, now);
    }
  }

  lemma {:induction false} SyncedInv(st: SessionState)
    requires Synced(st)
    ensures Inv(st)
  {
  }

  lemma {:induction false} FrameOutcome(round: Rounding, st: SessionState, grip: Grip, m: Message, now: int)
    requires Inv(st) && st.helloSeen && st.resetSeen && m.kind == Frame
    requires m.sequence == Wrap32(st.previousSequence + 1)
    ensures var step, later := Process(round, st, m, now), GripStep(grip, Deliver(m, now));
      step.outcome.Throw? ||
        (step.outcome.Report? && step.state.slots.Keys == TipIds(m.contacts) == later.held
         && step.state.buttonDown == ButtonFlag(m) == later.button && step.state.lastFrameTime == now == later.since
         && step.state.helloSeen && step.state.resetSeen && step.state.sequenceSeen
         && step.state.previousSequence == m.sequence)
  {
    hide FrameOf, TipIds, AssignSlots, Remembered;
    if Process(round, st, m, now).outcome.Report? {
      FrameSlots(round, st, m, now);
    }
  }

  lemma {:induction false} PollStands(round: Rounding, st: SessionState, messages: seq<Message>, grip: Grip, now: int)
    requires Stands(st, messages, grip)
    ensures var step := OnTimeout(round, st, now);
      !step.outcome.Throw? && Stands(step.state, messages, GripStep(grip, Poll(now)))
  {
    hide FrameOf, Matched;
    NobodyMatched();
    assert st.slots == map[] <==> st.slots.Keys == {};
  }

  /** A disconnect leaves a session that stands at the start of a connection, with
      nothing held. */
  lemma {:induction false} DisconnectStands(round: Rounding, st: SessionState)
    ensures Stands(OnDisconnect(round, st).state, [], Grip({}, false, st.lastFrameTime))
    ensures OnDisconnect(round, st).outcome == Silent <==> st.slots == map[] && !st.buttonDown
  {
    hide ReleaseFrame;
    NobodyMatched();
  }

  lemma {:induction false} LanguageStep(messages: seq<Message>, m: Message)
    ensures InLanguage(messages + [m]) <==>
      && InLanguage(messages)
      && KindAllowed(|messages|, m.kind)
      && (messages != [] ==> m.sequence == Wrap32(messages[|messages| - 1].sequence + 1))
  {
    hide KindsAllowed, Consecutive, KindAllowed;
    KindsStep(messages, m);
    ConsecutiveStep(messages, m);
  }

  lemma {:induction false} KindsStep(messages: seq<Message>, m: Message)
    ensures KindsAllowed(messages + [m]) <==> KindsAllowed(messages) && KindAllowed(|messages|, m.kind)
  {
    hide KindAllowed;
    var all := messages + [m];
    assert forall i :: 0 <= i < |messages| ==> all[i] == messages[i];
    if KindsAllowed(all) {
      assert KindAllowed(|messages|, all[|messages|].kind);
    }
  }

  lemma {:induction false} ConsecutiveStep(messages: seq<Message>, m: Message)
    ensures Consecutive(messages + [m]) <==>
      Consecutive(messages) && (messages != [] ==> m.sequence == Wrap32(messages[|messages| - 1].sequence + 1))
  {
    hide Wrap32;
    var all, n := messages + [m], |messages|;
    assert forall i :: 0 <= i < n ==> all[i] == messages[i];
    if Consecutive(all) {
      assert n > 0 ==> all[n].sequence == Wrap32(all[n - 1].sequence + 1);
      forall i | 0 < i < n
        ensures messages[i].sequence == Wrap32(messages[i - 1].sequence + 1)
      {
        assert all[i].sequence == Wrap32(all[i - 1].sequence + 1);
      }
    }
  }

  lemma {:induction false} FitsStep(inputs: seq<Input>)
    requires inputs != []
    ensures var n := |inputs| - 1;
      Fits(inputs) <==> Fits(inputs[..n]) && FitsAt(inputs, n)
  {
    hide TipIds, GripAfter;
    var n := |inputs| - 1;
    forall i | 0 <= i < n
      ensures FitsAt(inputs[..n], i) <==> FitsAt(inputs, i)
    {
      assert inputs[..n][..i] == inputs[..i];
    }
  }

  /** Exactly the runs that never throw: the kinds are a prefix of HELLO RESET
      (RESET | FRAME)*, the sequence numbers are consecutive modulo 2^32, and
      every FRAME fits the five slots beside whoever was touching just before.
      A run in the language can only ever throw for capacity. */
  lemma {:induction false} AcceptedRuns(round: Rounding, inputs: seq<Input>)
    requires DeliversWellFormed(inputs)
    ensures var run := RunSession(round, inputs);
      && (run.error == None <==> InLanguage(Messages(inputs)) && Fits(inputs))
      && (run.error == None ==> Stands(run.state, Messages(inputs), GripAfter(inputs)))
      && (InLanguage(Messages(inputs)) && run.error != None ==> run.error == Some(TooManyContacts))
  {
    hide Process, OnTimeout, Synced, TipIds, FitsAt, KindAllowed, GripStep, InLanguage, Fits, WellFormed;
    if inputs == [] {
      NothingAccepted();
    } else {
      var n := |inputs| - 1;
      var early := inputs[..n];
      AcceptedRuns(round, early);
      FitsStep(inputs);
      var before := RunSession(round, early);
      match inputs[n]
      case Poll(now) =>
        assert Messages(inputs) == Messages(early);
        PollFits(inputs);
        if before.error == None {
          PollStands(round, before.state, Messages(early), GripAfter(early), now);
        }
      case Deliver(m, now) =>
        LanguageStep(Messages(early), m);
        DeliverFits(inputs);
        assert WellFormed(inputs[n].message);
        if before.error == None {
          DeliverStands(round, before.state, Messages(early), GripAfter(early), m, now);
        }
    }
  }

  /** What a session can throw is its own: never an objection of the decoder. */
  lemma {:induction false} SessionThrows(round: Rounding, inputs: seq<Input>)
    ensures var error := RunSession(round, inputs).error;
      error.Some? ==> OwnError(error.value)
  {
    hide StepInput, OwnError;
    if inputs != [] {
      var n := |inputs| - 1;
      SessionThrows(round, inputs[..n]);
      StepThrows(round, RunSession(round, inputs[..n]).state, inputs[n]);
    }
  }

  predicate OwnError(error: ProtocolError) {
    error in {SequenceDiscontinuity, UnexpectedHello, BeforeHello, FrameBeforeReset, TooManyContacts, NoFreeSlot}
  }

  lemma {:induction false} StepThrows(round: Rounding, st: SessionState, input: Input)
    ensures var outcome := StepInput(round, st, input).outcome;
      outcome.Throw? ==> OwnError(outcome.error)
  {
    hide FrameOf, TipIds, AssignSlots;
    if input.Deliver? {
      AssignThrows(st.slots, input.message.contacts);
    }
  }

  lemma {:induction false} AssignThrows(slots: map<U32, nat>, contacts: seq<Contact>)
    ensures AssignSlots(slots, contacts).error in {None, Some(TooManyContacts), Some(NoFreeSlot)}
  {
    hide LeastFree, HasTip;
    if contacts != [] {
      AssignThrows(slots, contacts[..|contacts| - 1]);
    }
  }

  /** A throw ends the run for good. */
  lemma {:induction false} ThrownStays(round: Rounding, early: seq<Input>, inputs: seq<Input>)
    requires early <= inputs && RunSession(round, early).error.Some?
    ensures RunSession(round, inputs) == RunSession(round, early)
  {
    hide StepInput;
    if |early| < |inputs| {
      ThrownStays(round, early, inputs[..|inputs| - 1]);
    } else {
      assert early == inputs;
    }
  }

  lemma {:induction false} NothingAccepted()
    ensures InLanguage([]) && Fits([]) && Stands(INITIAL, [], Grip({}, false, 0))
  {
    NobodyMatched();
  }

  lemma {:induction false} PollFits(inputs: seq<Input>)
    requires inputs != [] && inputs[|inputs| - 1].Poll?
    ensures FitsAt(inputs, |inputs| - 1)
  {
  }

  lemma {:induction false} DeliverFits(inputs: seq<Input>)
    requires inputs != [] && inputs[|inputs| - 1].Deliver?
    ensures var n := |inputs| - 1;
      FitsAt(inputs, n) <==>
        (inputs[n].message.kind == Frame ==>
          |GripAfter(inputs[..n]).held + TipIds(inputs[n].message.contacts)| <= SLOTS)
  {
  }

  /** A poll releases exactly when something is held and 200 ms have passed
      since the last FRAME; it leaves nothing held, a second poll is silent, and
      the lifecycle and sequence are untouched, so the next FRAME in sequence
      with at most five tips is accepted. */
  lemma {:induction false} TimeoutRelease(round: Rounding, st: SessionState, now: int, later: int, m: Message)
    ensures var step := OnTimeout(round, st, now);
      && (step.outcome != Silent <==> (st.slots != map[] || st.buttonDown) && now - st.lastFrameTime >= 200)
      && (step.outcome == Silent ==> step.state == st)
      && (step.outcome != Silent ==>
           && step.state == st.(slots := map[], previous := NOBODY, buttonDown := false)
           && OnTimeout(round, step.state, later) == Step(step.state, Silent)
           && (st.helloSeen && st.resetSeen && st.sequenceSeen
               && m.kind == Frame && m.sequence == Wrap32(st.previousSequence + 1)
               && |TipIds(m.contacts)| <= SLOTS
               ==> Process(round, step.state, m, later).outcome.Report?))
  {
    hide FrameOf, TipIds, LiftAll, Process;
    var step := OnTimeout(round, st, now);
    if step.outcome != Silent && step.state.helloSeen && step.state.resetSeen && step.state.sequenceSeen
       && m.kind == Frame && m.sequence == Wrap32(step.state.previousSequence + 1) {
      EmptyAccepts(round, step.state, m, later);
    }
  }

  /** A session with nothing held accepts the next FRAME exactly if its own tips fit. */
  lemma {:induction false} EmptyAccepts(round: Rounding, st: SessionState, m: Message, now: int)
    requires st.slots == map[] && st.previous == NOBODY
    requires st.helloSeen && st.resetSeen && st.sequenceSeen
    requires m.kind == Frame && m.sequence == Wrap32(st.previousSequence + 1)
    ensures Process(round, st, m, now).outcome.Report? <==> |TipIds(m.contacts)| <= SLOTS
  {
    hide Process, TipIds, Matched, Remembered;
    NobodyMatched();
    CapacityLaw(round, st, m, now);
    FrameNotSilent(round, st, m, now);
    assert st.slots.Keys + TipIds(m.contacts) == TipIds(m.contacts);
  }

  lemma {:induction false} FrameNotSilent(round: Rounding, st: SessionState, m: Message, now: int)
    requires m.kind == Frame
    ensures Process(round, st, m, now).outcome != Silent
  {
    hide FrameOf, TipIds, AssignSlots, Tips, NextContacts;
  }
}
