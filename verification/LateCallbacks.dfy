/** Callbacks that tested `connected` some time before they enqueue, and then enqueue
    without being interrupted: exactly in which states of the sender such a frame can
    put a gap on the wire. Module HeldLock interrupts them. */
module LateCallbacks {
  import opened Words
  import opened Wire
  import opened TouchFrame
  import opened MessageQueue
  import opened PressureLatch
  import opened Agent
  import opened AgentLaws

  /** A late frame does no harm now: not once the queue has been cleared for an
      epoch whose RESET is not out, unless the agent stops before it streams; not
      with 256 late frames already pushed while the request to reconnect it makes is
      about to be withdrawn; and not while a thread of a given-up epoch may still pop. */
  predicate Harmless(s: AgentState) {
    match s.phase
    case SendHello => !s.running
    case SendReset => false
    case ClearRequest => |s.queue| < QUEUE_CAPACITY || !s.running
    case PopNext => s.connected
    case _ => true
  }

  /** The whole stream is contiguous up to the last number allocated. */
  ghost predicate InLine(s: AgentState) {
    Contiguous(Stream(s)) && EndsAt(Stream(s), s.sequence)
  }

  /** The thread will not pop again before it closes the connection. */
  predicate Closing(s: AgentState) { s.reconnectRequested || !s.running }

  /** What holds at every step as long as no late frame came at a harmful moment;
      the queue may hold frames of no epoch, but never where they can be popped. */
  ghost predicate WireInv(s: AgentState) { Shape(s) && LineInv(s) }

  ghost predicate Shape(s: AgentState) {
    && Contiguous(s.wire + s.inFlight) && |s.queue| <= QUEUE_CAPACITY
    && (s.connected ==> Streaming(s.phase))
    && s.latest.contactCount <= MAX_CONTACTS && s.latest.flags <= FRAME_BUTTON
    && (s.phase.SendNext? || s.inFlight == [] || s.phase.Unpublish? || s.phase.Drain? || s.phase.CloseSocket?
        || s.phase.Connect?)
    && (Greeting(s.phase) ==> |s.wire| == Greeted(s.phase))
    && (Streaming(s.phase) ==> |s.wire| >= 2)
  }

  ghost predicate LineInv(s: AgentState) {
    match s.phase
    case SendHello => s.queue == [] || !s.running
    case SendReset => EndsAt(s.wire, s.sequence) && (s.queue == [] || !s.running)
    case ClearRequest => InLine(s) || !s.running
    case ClearSnapshot => InLine(s) || Closing(s)
    case Publish => InLine(s) || Closing(s)
    case CheckLoop => (InLine(s) && s.connected) || Closing(s)
    case SendNext => |s.inFlight| == 1 && ((InLine(s) && s.connected) || Closing(s))
    case PopNext =>
      if s.connected then InLine(s)
      else s.queue == [] && Contiguous(s.wire) && !EndsAt(s.wire, s.sequence)
    case _ => true
  }

  lemma {:induction false} EnqueueSplits(s: AgentState, frame: TPFrame, clock: U64)
    requires frame.contactCount <= MAX_CONTACTS && frame.flags <= FRAME_BUTTON
    ensures var later, sequence := Enqueue(s, frame, clock), Wrap32(s.sequence + 1);
      if |s.queue| < QUEUE_CAPACITY then
        && |later.queue| == |s.queue| + 1 && later.queue[..|s.queue|] == s.queue
        && later == s.(sequence := sequence, queue := later.queue)
        && Spells(later.queue[|s.queue|], Frame, sequence)
        && Stream(later) == Stream(s) + [later.queue[|s.queue|]]
      else
        later == s.(sequence := sequence, connected := false, reconnectRequested := true, queue := [])
  {
    hide MessageBytes, Spells, NumberOf;
    EncodedSpells(Frame, frame.(sequence := Wrap32(s.sequence + 1), captureTimeUs := clock));
  }

  /** With room in the queue, one more frame keeps a greeted stream contiguous
      exactly when the stream is in line, and in line it stays. */
  lemma {:induction false} InLineMore(s: AgentState, frame: TPFrame, clock: U64)
    requires Contiguous(Stream(s)) && |Stream(s)| >= 2 && |s.queue| < QUEUE_CAPACITY
    requires frame.contactCount <= MAX_CONTACTS && frame.flags <= FRAME_BUTTON
    ensures Contiguous(Stream(Enqueue(s, frame, clock))) <==> InLine(s)
    ensures InLine(s) ==> InLine(Enqueue(s, frame, clock))
  {
    hide Contiguous, EndsAt, Spells, Enqueue;
    EnqueueSplits(s, frame, clock);
    ContiguousAppend(Stream(s), Enqueue(s, frame, clock).queue[|s.queue|], Wrap32(s.sequence + 1));
    WrapBack(s.sequence, Wrap32(s.sequence + 1));
  }

  /** An overflow leaves the wire behind the numbers allocated. */
  lemma {:induction false} OverflowBehind(s: AgentState)
    requires InLine(s) && s.inFlight == [] && |s.wire| >= 2 && |s.queue| == QUEUE_CAPACITY
    ensures Contiguous(s.wire) && !EndsAt(s.wire, Wrap32(s.sequence + 1))
  {
    hide Spells, NumberOf;
    var stream, n := Stream(s), |s.wire|;
    assert stream[..n] == s.wire;
    ContiguousPrefix(stream, n);
    Apart(stream, n - 1, |stream| - 1);
  }

  /** In a contiguous stream, numbers are as far apart as their places. */
  lemma {:induction false} Apart(stream: seq<seq<Byte>>, i: nat, j: nat)
    requires Contiguous(stream) && i <= j < |stream|
    ensures NumberOf(stream[j]) == Wrap32(NumberOf(stream[i]) + (j - i))
    decreases j
  {
    hide Spells, NumberOf;
    if i < j {
      Apart(stream, i, j - 1);
    }
  }

  /** Enqueueing a frame in a harmless state, connected or late. */
  lemma {:induction false} HarmlessEnqueue(s: AgentState, frame: TPFrame, clock: U64)
    requires WireInv(s) && Harmless(s)
    requires frame.contactCount <= MAX_CONTACTS && frame.flags <= FRAME_BUTTON
    ensures WireInv(Enqueue(s, frame, clock))
  {
    hide Contiguous, EndsAt, Spells, Enqueue;
    EnqueueSplits(s, frame, clock);
    var later := Enqueue(s, frame, clock);
    if InLine(s) && |s.wire| >= 2 {
      if |s.queue| < QUEUE_CAPACITY {
        InLineMore(s, frame, clock);
      } else if s.inFlight == [] {
        OverflowBehind(s);
      }
    }
  }

  /** Nothing the epoch depends on differs. */
  ghost predicate SameEpoch(s: AgentState, later: AgentState) {
    && later.latest.contactCount <= MAX_CONTACTS && later.latest.flags <= FRAME_BUTTON
    && later == s.(physicalDown := later.physicalDown, latch := later.latch, latest := later.latest,
                   processed := later.processed)
  }

  lemma {:induction false} SameEpochInv(s: AgentState, later: AgentState)
    requires WireInv(s) && SameEpoch(s, later)
    ensures WireInv(later) && (Harmless(later) <==> Harmless(s))
  {
    hide Contiguous, EndsAt;
  }

  /** The callback gets as far as the frame lock. */
  predicate Enqueues(s: AgentState, action: Action) {
    match action
    case ButtonEdge(_, _, _) => s.connected
    case ContactFrame(touches, _, _) => s.connected && !Refused(touches)
    case _ => Late(action)
  }

  /** Every callback, late or not, is at most one frame enqueued on an agent whose
      epoch is the same. */
  lemma {:induction false} CallbackEnqueues(s: AgentState, action: Action)
    returns (noted: AgentState, frame: TPFrame, clock: U64)
    requires s.latest.contactCount <= MAX_CONTACTS && s.latest.flags <= FRAME_BUTTON
    requires Late(action) || action.ButtonEdge? || action.ContactFrame?
    ensures SameEpoch(s, noted) && frame.contactCount <= MAX_CONTACTS && frame.flags <= FRAME_BUTTON
    ensures Act(s, action) == if Enqueues(s, action) then Enqueue(noted, frame, clock) else noted
  {
    hide Enqueue, LatchStep, SampleOf, Zeros, ContactsOf;
    noted, frame, clock := s, ZERO_FRAME, 0;
    match action {
      case ButtonEdge(pressed, released, at) =>
        noted := NoteEdge(s, pressed, released);
        if s.connected {
          frame, clock := noted.latest.(flags := ButtonFlags(noted), deviceTimeUs := 0), at;
          noted := noted.(latest := frame);
        }
      case LateButton(at) =>
        frame, clock := s.latest.(flags := ButtonFlags(s), deviceTimeUs := 0), at;
        noted := s.(latest := frame);
      case ContactFrame(touches, deviceTimeUs, at) =>
        if s.connected && !Refused(touches) {
          noted, frame := Sampled(s, ListOf(touches), deviceTimeUs);
          clock := at;
        }
      case LateContact(list, deviceTimeUs, at) =>
        noted, frame := Sampled(s, list, deviceTimeUs);
        clock := at;
    }
  }

  lemma {:induction false} Sampled(s: AgentState, list: seq<Touch>, deviceTimeUs: U64)
    returns (noted: AgentState, frame: TPFrame)
    requires |list| <= MAX_CONTACTS
    ensures SameEpoch(s, noted) && frame.contactCount <= MAX_CONTACTS && frame.flags <= FRAME_BUTTON
    ensures forall clock :: ContactLocked(s, list, deviceTimeUs, clock) == Enqueue(noted, frame, clock)
  {
    hide Enqueue, LatchStep, SampleOf, Zeros, ContactsOf;
    var sample := SampleOf(list);
    var latched := s.(latch := LatchStep(s.latch, sample, s.threshold), processed := s.processed + [sample]);
    frame := FrameFrom(list, deviceTimeUs, ButtonFlags(latched));
    noted := latched.(latest := frame);
  }

  lemma {:induction false} CallbackHarmless(s: AgentState, action: Action)
    requires WireInv(s) && (Late(action) || action.ButtonEdge? || action.ContactFrame?)
    requires Late(action) ==> Harmless(s)
    ensures WireInv(Act(s, action))
  {
    hide Enqueue, Act, LineInv, Contiguous;
    var noted, frame, clock := CallbackEnqueues(s, action);
    SameEpochInv(s, noted);
    if Late(action) || s.connected {
      HarmlessEnqueue(noted, frame, clock);
    }
  }

  lemma {:induction false} TickWire(s: AgentState, fate: Fate)
    requires WireInv(s)
    ensures WireInv(Tick(s, fate))
  {
    hide WireInv, Tick;
    match s.phase {
      case SendHello => GreetWire(s, fate);
      case SendReset => GreetWire(s, fate);
      case PopNext => PopWire(s, fate);
      case SendNext => SendWire(s, fate);
      case _ => QuietWire(s, fate);
    }
  }

  lemma {:induction false} GreetWire(s: AgentState, fate: Fate)
    requires WireInv(s) && (s.phase.SendHello? || s.phase.SendReset?)
    ensures WireInv(Tick(s, fate))
  {
    hide Contiguous, ControlBytes, Spells, NumberOf;
    var kind := if s.phase.SendHello? then Hello else Reset;
    var sequence := Wrap32(s.sequence + 1);
    var bytes := ControlBytes(kind, sequence, fate.clock);
    ControlSpells(kind, sequence, fate.clock);
    assert s.wire + s.inFlight == s.wire;
    ContiguousAppend(s.wire, bytes, sequence);
    WrapBack(s.sequence, sequence);
    assert s.wire + [bytes] + [] == s.wire + [bytes] && s.wire + [bytes] + [] + [] == s.wire + [bytes];
  }

  lemma {:induction false} PopWire(s: AgentState, fate: Fate)
    requires WireInv(s) && s.phase.PopNext?
    ensures WireInv(Tick(s, fate))
  {
    hide Contiguous, EndsAt;
    if s.queue != [] {
      assert s.wire + [] + s.queue == s.wire + [s.queue[0]] + s.queue[1..];
      var n := |s.wire| + 1;
      assert Stream(s)[..n] == s.wire + [s.queue[0]];
      ContiguousPrefix(Stream(s), n);
    }
  }

  lemma {:induction false} SendWire(s: AgentState, fate: Fate)
    requires WireInv(s) && s.phase.SendNext?
    ensures WireInv(Tick(s, fate))
  {
    hide Contiguous, EndsAt;
    assert (s.wire + s.inFlight) + [] + s.queue == s.wire + s.inFlight + s.queue;
    assert (s.wire + s.inFlight) + [] == s.wire + s.inFlight;
  }

  lemma {:induction false} QuietWire(s: AgentState, fate: Fate)
    requires WireInv(s)
    requires !s.phase.SendHello? && !s.phase.SendReset? && !s.phase.PopNext? && !s.phase.SendNext?
    ensures WireInv(Tick(s, fate))
  {
    hide WireInv;
    if Greeting(s.phase) || s.phase.CheckLoop? {
      LineWire(s, fate);
    } else {
      EndWire(s, fate);
    }
  }

  lemma {:induction false} LineWire(s: AgentState, fate: Fate)
    requires WireInv(s)
    requires s.phase.ClearStale? || s.phase.ClearRequest? || s.phase.ClearSnapshot? || s.phase.Publish?
      || s.phase.CheckLoop?
    ensures WireInv(Tick(s, fate))
  {
    hide Contiguous, EndsAt, SendControl, Cut;
    assert s.wire + [] == s.wire;
  }

  lemma {:induction false} EndWire(s: AgentState, fate: Fate)
    requires WireInv(s)
    requires s.phase.Connect? || s.phase.Unpublish? || s.phase.Drain? || s.phase.CloseSocket?
    ensures WireInv(Tick(s, fate))
  {
    hide Contiguous, EndsAt, SendControl, Cut;
    ContiguousNone();
    var nothing: seq<seq<Byte>> := [];
    assert nothing + [] == [];
  }

  lemma {:induction false} ContiguousNone()
    ensures Contiguous([])
  {
  }

  predicate AnyLate(action: Action) { action.LateButton? || action.LateContact? }

  /** Every late frame of the run came at a harmless moment. */
  ghost predicate HarmlessRun(s: AgentState, actions: seq<Action>) {
    forall k :: 0 <= k < |actions| && AnyLate(actions[k]) ==> Harmless(RunFrom(s, actions[..k]))
  }

  /** As long as every late frame comes at a harmless moment, no connection ever
      carries a gap, not even in a message cut off. */
  lemma {:induction false} WireKept(s: AgentState, actions: seq<Action>)
    requires WireInv(s) && HarmlessRun(s, actions)
    ensures WireInv(RunFrom(s, actions))
  {
    hide WireInv, Harmless, Act;
    if actions != [] {
      var n := |actions| - 1;
      assert forall k :: 0 <= k < n ==> actions[..n][..k] == actions[..k];
      WireKept(s, actions[..n]);
      ActWire(RunFrom(s, actions[..n]), actions[n]);
    }
  }

  lemma {:induction false} ActWire(s: AgentState, action: Action)
    requires WireInv(s) && (AnyLate(action) ==> Harmless(s))
    ensures WireInv(Act(s, action))
  {
    hide WireInv, Tick, ContactLocked, ButtonLocked;
    match action {
      case SenderStep(fate) => TickWire(s, fate);
      case Stop => StopWire(s);
      case LateContact(list, _, _) =>
        if |list| <= MAX_CONTACTS {
          CallbackHarmless(s, action);
        }
      case _ => CallbackHarmless(s, action);
    }
  }

  lemma {:induction false} StopWire(s: AgentState)
    requires WireInv(s)
    ensures WireInv(s.(running := false))
  {
    hide Contiguous, EndsAt;
  }

  lemma {:induction false} LateRuns(threshold: U32, actions: seq<Action>)
    requires HarmlessRun(Started(threshold), actions)
    ensures var s := RunAgent(threshold, actions);
      WireInv(s) && Contiguous(s.wire + s.inFlight)
  {
    ContiguousNone();
    StartWire(threshold);
    hide WireInv, HarmlessRun, RunFrom;
    WireKept(Started(threshold), actions);
    WireOf(RunAgent(threshold, actions));
  }

  lemma {:induction false} StartWire(threshold: U32)
    ensures WireInv(Started(threshold))
  {
    ContiguousNone();
    assert Started(threshold).wire + [] == [];
  }

  lemma {:induction false} WireOf(s: AgentState)
    requires WireInv(s)
    ensures Contiguous(s.wire + s.inFlight) && Contiguous(s.wire)
  {
    hide Contiguous;
    assert (s.wire + s.inFlight)[..|s.wire|] == s.wire;
    ContiguousPrefix(s.wire + s.inFlight, |s.wire|);
  }

  /** However it goes on, if no more late frames come, every wire is contiguous. */
  ghost predicate StaysContiguous(s: AgentState) {
    forall actions :: AllAtomic(actions) ==> Contiguous(RunFrom(s, actions).wire)
  }

  predicate AllAtomic(actions: seq<Action>) {
    forall k :: 0 <= k < |actions| ==> Atomic(actions[k])
  }

  /** A late frame, of either callback, keeps every later wire contiguous exactly
      when it comes at a harmless moment. */
  lemma {:induction false} LateExactly(s: AgentState, late: Action)
    requires WireInv(s) && Late(late)
    ensures Harmless(s) <==> StaysContiguous(Act(s, late))
  {
    hide WireInv, Harmless, Act, Contiguous, RunFrom;
    if Harmless(s) {
      ActWire(s, late);
      forall actions | AllAtomic(actions)
        ensures Contiguous(RunFrom(Act(s, late), actions).wire)
      {
        WireKept(Act(s, late), actions);
        WireOf(RunFrom(Act(s, late), actions));
      }
    } else if StaysContiguous(Act(s, late)) {
      LateBreaks(s, late);
    }
  }

  lemma {:induction false} RunFirst(s: AgentState, action: Action, actions: seq<Action>)
    ensures RunFrom(s, [action] + actions) == RunFrom(Act(s, action), actions)
  {
    hide Act;
    if actions == [] {
      assert [action] + actions == [action] && [action][..0] == [];
    } else {
      var n := |actions| - 1;
      RunFirst(s, action, actions[..n]);
      assert ([action] + actions)[..n + 1] == [action] + actions[..n];
    }
  }

  lemma {:induction false} StaysNext(s: AgentState, action: Action)
    requires StaysContiguous(s) && Atomic(action)
    ensures StaysContiguous(Act(s, action))
  {
    hide Act, RunFrom, Contiguous, Atomic;
    forall actions | AllAtomic(actions)
      ensures Contiguous(RunFrom(Act(s, action), actions).wire)
    {
      RunFirst(s, action, actions);
    }
  }

  lemma {:induction false} StaysNow(s: AgentState)
    requires StaysContiguous(s)
    ensures Contiguous(s.wire)
  {
    hide Contiguous;
    assert RunFrom(s, []) == s;
  }

  const OK: Fate := Fate(true, 0, 0)

  /** At each harmful moment the sender thread alone can go on to break the wire,
      or with one button edge after an overflow. */
  lemma {:induction false} LateBreaks(s: AgentState, late: Action)
    requires WireInv(s) && Late(late) && !Harmless(s)
    ensures !StaysContiguous(Act(s, late))
  {
    hide Enqueue, Act, Contiguous, EndsAt, StaysContiguous, Spells;
    var noted, frame, clock := CallbackEnqueues(s, late);
    SameEpochInv(s, noted);
    EnqueueSplits(noted, frame, clock);
    var later := Act(s, late);
    match s.phase {
      case SendReset => GapAtReset(s, late);
      case PopNext => GapAtPop(later, s.sequence);
      case SendHello => GapAtHello(later);
      case ClearRequest =>
        OverflowBehind(noted);
        GapAfterOverflow(later);
    }
  }

  /** A number taken between the HELLO and the RESET: the RESET no longer follows
      the HELLO. */
  lemma {:induction false} ResetAfterGap(s: AgentState, later: AgentState, fate: Fate)
    requires WireInv(s) && s.phase.SendReset? && fate.ok
    requires later.wire == s.wire && later.phase.SendReset? && later.sequence == Wrap32(s.sequence + 1)
    ensures |Tick(later, fate).wire| == 2 && !Contiguous(Tick(later, fate).wire)
  {
    hide Contiguous, Spells, NumberOf, ControlBytes;
    var sequence := Wrap32(later.sequence + 1);
    ControlSpells(Reset, sequence, fate.clock);
    WireOf(s);
    ContiguousAppend(s.wire, ControlBytes(Reset, sequence, fate.clock), sequence);
  }

  /** A late frame of either callback between HELLO and RESET leaves a hole in the
      wire as soon as the RESET is out. */
  lemma {:induction false} LateFrameBreaksGreeting(s: AgentState, late: Action, fate: Fate)
    requires WireInv(s) && s.phase.SendReset? && Late(late) && fate.ok
    ensures var later := Tick(Act(s, late), fate);
      |later.wire| == 2 && !Contiguous(later.wire)
  {
    hide Enqueue, Act, Tick, Contiguous, EndsAt, Spells;
    var noted, frame, clock := CallbackEnqueues(s, late);
    EnqueueSplits(noted, frame, clock);
    ResetAfterGap(s, Act(s, late), fate);
  }

  lemma {:induction false} GapAtReset(s: AgentState, late: Action)
    requires WireInv(s) && s.phase.SendReset? && Late(late)
    ensures !StaysContiguous(Act(s, late))
  {
    hide WireInv, Act, Contiguous, StaysContiguous;
    LateFrameBreaksGreeting(s, late, OK);
    ActTicks(Act(s, late), OK);
    if StaysContiguous(Act(s, late)) {
      StaysNext(Act(s, late), SenderStep(OK));
      StaysNow(Act(Act(s, late), SenderStep(OK)));
    }
  }

  lemma {:induction false} ActTicks(s: AgentState, fate: Fate)
    ensures Act(s, SenderStep(fate)) == Tick(s, fate)
  {
  }

  /** The next frame to be popped does not follow the wire. */
  lemma {:induction false} GapAtPop(s: AgentState, sequence: U32)
    requires s.phase.PopNext? && |s.wire| >= 2 && s.queue != []
    requires Spells(s.queue[0], Frame, Wrap32(sequence + 1)) && !EndsAt(s.wire, sequence)
    ensures !StaysContiguous(s)
  {
    hide Contiguous, StaysContiguous, Spells, EndsAt;
    if StaysContiguous(s) {
      StaysNow(s);
      StaysNext(s, SenderStep(OK));
      var popped := Tick(s, OK);
      StaysNext(popped, SenderStep(OK));
      StaysNow(Tick(popped, OK));
      ContiguousAppend(s.wire, s.queue[0], Wrap32(sequence + 1));
      WrapBack(sequence, Wrap32(sequence + 1));
    }
  }

  /** A streaming thread that is not disturbed sends all that is queued. */
  lemma {:induction false} DrainAll(s: AgentState)
    requires StaysContiguous(s) && s.phase.PopNext? && s.running && !s.reconnectRequested
    ensures Contiguous(s.wire + s.queue)
    decreases |s.queue|
  {
    hide Contiguous, StaysContiguous, SendControl, Cut;
    if s.queue == [] {
      StaysNow(s);
      assert s.wire + [] == s.wire;
    } else {
      var popped := Tick(s, OK);
      var sent := Tick(popped, OK);
      StaysNext(s, SenderStep(OK));
      StaysNext(popped, SenderStep(OK));
      StaysNext(sent, SenderStep(OK));
      DrainAll(Tick(sent, OK));
      assert s.wire + [s.queue[0]] + s.queue[1..] == s.wire + s.queue;
    }
  }

  /** One button edge more, and the stream must have been in line. */
  lemma {:induction false} StaysInLine(s: AgentState)
    requires StaysContiguous(s) && s.phase.PopNext? && s.running && !s.reconnectRequested && s.connected
    requires s.inFlight == [] && |s.queue| < QUEUE_CAPACITY && |s.wire| >= 2
    requires s.latest.contactCount <= MAX_CONTACTS
    ensures InLine(s)
  {
    hide Contiguous, StaysContiguous, EndsAt, Spells, Enqueue;
    var edge := ButtonEdge(0, 0, 0);
    var p := PrepareButton(s, 0);
    EnqueueSplits(p.agent, p.frame, 0);
    var later := Act(s, edge);
    StaysNext(s, edge);
    DrainAll(later);
    assert s.wire + later.queue == Stream(s) + [later.queue[|s.queue|]];
    assert (Stream(s) + [later.queue[|s.queue|]])[..|Stream(s)|] == Stream(s);
    ContiguousPrefix(Stream(s) + [later.queue[|s.queue|]], |Stream(s)|);
    ContiguousAppend(Stream(s), later.queue[|s.queue|], Wrap32(s.sequence + 1));
    WrapBack(s.sequence, Wrap32(s.sequence + 1));
  }

  /** Undisturbed steps take a greeted thread to its first pop. */
  lemma {:induction false} ToFirstPop(s: AgentState) returns (ready: AgentState)
    requires s.phase.ClearRequest? || (s.phase.ClearSnapshot? && !s.reconnectRequested)
    requires s.running
    ensures ready == s.(reconnectRequested := false, latest := ZERO_FRAME, connected := true, phase := PopNext)
    ensures StaysContiguous(s) ==> StaysContiguous(ready)
  {
    hide StaysContiguous, Zeros, SendControl, Cut;
    var a := if s.phase.ClearRequest? then Tick(s, OK) else s;
    var b := Tick(a, OK);
    var c := Tick(b, OK);
    ready := Tick(c, OK);
    if StaysContiguous(s) {
      if s.phase.ClearRequest? {
        StaysNext(s, SenderStep(OK));
      }
      StaysNext(a, SenderStep(OK));
      StaysNext(b, SenderStep(OK));
      StaysNext(c, SenderStep(OK));
    }
  }

  /** A greeted thread that will stream must be in line before it starts. */
  lemma {:induction false} GreetedInLine(s: AgentState)
    requires StaysContiguous(s) && s.running && s.inFlight == [] && |s.queue| < QUEUE_CAPACITY && |s.wire| >= 2
    requires s.phase.ClearRequest? || (s.phase.ClearSnapshot? && !s.reconnectRequested)
    ensures InLine(s)
  {
    hide Contiguous, StaysContiguous, EndsAt;
    var ready := ToFirstPop(s);
    StaysInLine(ready);
    assert Stream(ready) == Stream(s);
  }

  /** A frame right behind the greeting cannot carry the number of the RESET. */
  lemma {:induction false} OlderFrame(wire: seq<seq<Byte>>, message: seq<Byte>, sequence: U32)
    requires wire != [] && EndsAt(wire, sequence)
    ensures !(Contiguous(wire + [message]) && EndsAt(wire + [message], sequence))
  {
    hide Spells, NumberOf;
    var n := |wire|;
    assert (wire + [message])[n] == message && (wire + [message])[n - 1] == wire[n - 1];
  }

  /** The frame was numbered before the HELLO and is queued behind the RESET. */
  lemma {:induction false} GapAtHello(later: AgentState)
    requires later.phase.SendHello? && later.running && later.wire == [] && later.inFlight == []
    requires |later.queue| == 1
    ensures !StaysContiguous(later)
  {
    hide Contiguous, StaysContiguous, EndsAt, ControlBytes, Cut;
    if StaysContiguous(later) {
      StaysNext(later, SenderStep(OK));
      GapBeforeReset(Tick(later, OK));
    }
  }

  lemma {:induction false} GapBeforeReset(s: AgentState)
    requires s.phase.SendReset? && s.running && s.inFlight == [] && |s.wire| == 1 && |s.queue| == 1
    ensures !StaysContiguous(s)
  {
    hide Contiguous, StaysContiguous, Spells, NumberOf, ControlBytes, Cut;
    if StaysContiguous(s) {
      var sequence := Wrap32(s.sequence + 1);
      var bytes := ControlBytes(Reset, sequence, 0);
      ControlSpells(Reset, sequence, 0);
      SpelledNumber(bytes, Reset, sequence);
      var reset := Tick(s, OK);
      StaysNext(s, SenderStep(OK));
      assert Stream(reset) == reset.wire + [s.queue[0]];
      OlderFrame(reset.wire, s.queue[0], sequence);
      GreetedInLine(reset);
    }
  }

  /** The overflow's request to reconnect is withdrawn, its numbers are not. */
  lemma {:induction false} GapAfterOverflow(s: AgentState)
    requires s.phase.ClearRequest? && s.running && s.queue == [] && s.inFlight == []
    requires |s.wire| >= 2 && !EndsAt(s.wire, s.sequence)
    ensures !StaysContiguous(s)
  {
    hide Contiguous, StaysContiguous, EndsAt;
    if StaysContiguous(s) {
      assert Stream(s) == s.wire;
      GreetedInLine(s);
    }
  }

  /** `n` undisturbed steps of the sender thread. */
  function Steps(n: nat): (actions: seq<Action>)
    ensures |actions| == n && forall k :: 0 <= k < n ==> actions[k] == SenderStep(OK)
  {
    if n == 0 then [] else Steps(n - 1) + [SenderStep(OK)]
  }

  function Ticks(s: AgentState, n: nat): AgentState {
    if n == 0 then s else Tick(Ticks(s, n - 1), OK)
  }

  lemma {:induction false} RunSteps(s: AgentState, n: nat)
    ensures RunFrom(s, Steps(n)) == Ticks(s, n)
  {
    hide Tick;
    if n > 0 {
      RunSteps(s, n - 1);
      assert Steps(n)[..n - 1] == Steps(n - 1);
    }
  }

  lemma {:induction false} RunJoin(s: AgentState, actions: seq<Action>, more: seq<Action>)
    ensures RunFrom(s, actions + more) == RunFrom(RunFrom(s, actions), more)
  {
    hide Act;
    if more == [] {
      assert actions + more == actions;
    } else {
      var n := |more| - 1;
      RunJoin(s, actions, more[..n]);
      assert (actions + more)[..|actions| + n] == actions + more[..n];
    }
  }

  lemma {:induction false} RunAction(s: AgentState, actions: seq<Action>, action: Action)
    ensures RunFrom(s, actions + [action]) == Act(RunFrom(s, actions), action)
  {
    hide Act;
    assert (actions + [action])[..|actions|] == actions;
  }

  const CUT: Fate := Fate(false, 0, 0)

  /** An epoch that connects and sends one frame, which is cut off; then the next
      epoch up to its HELLO. */
  function Reconnecting(): seq<Action> {
    Steps(7) + [ButtonEdge(1, 0, 0)] + Steps(2) + [SenderStep(CUT)] + Steps(6)
  }

  /** The race from the start of the agent. After seven steps it is connected, which
      is when the callback made its test; it enqueues after the next epoch's HELLO.
      The wire then reads HELLO 4, RESET 6. */
  lemma {:induction false} LateRace(threshold: U32, late: Action)
    requires Late(late)
    ensures RunAgent(threshold, Reconnecting()[..7]).connected
    ensures var s := RunAgent(threshold, Reconnecting() + [late] + Steps(1));
      && |s.wire| == 2 && NumberOf(s.wire[0]) == 4 && NumberOf(s.wire[1]) == 6 && !Contiguous(s.wire)
    ensures AllAtomic(Reconnecting())
  {
    hide Contiguous, Spells, NumberOf, Steps, Ticks, RunFrom, Zeros;
    var up := FirstEpoch(threshold);
    assert Reconnecting()[..7] == Steps(7);
    var again := SecondEpoch(threshold, up);
    RunAction(Started(threshold), Reconnecting(), late);
    RunJoin(Started(threshold), Reconnecting() + [late], Steps(1));
    RunSteps(Act(again, late), 1);
    LateAtReset(again, late);
  }

  lemma {:induction false} TicksJoin(s: AgentState, m: nat, n: nat)
    ensures Ticks(s, m + n) == Ticks(Ticks(s, m), n)
  {
    hide Tick;
    if n > 0 {
      TicksJoin(s, m, n - 1);
    }
  }

  lemma {:induction false} TicksThree(s: AgentState)
    ensures Ticks(s, 1) == Tick(s, OK) && Ticks(s, 2) == Tick(Tick(s, OK), OK)
    ensures Ticks(s, 3) == Tick(Tick(Tick(s, OK), OK), OK)
  {
    hide Tick;
    assert Ticks(s, 1) == Tick(Ticks(s, 0), OK);
    assert Ticks(s, 2) == Tick(Ticks(s, 1), OK);
    assert Ticks(s, 3) == Tick(Ticks(s, 2), OK);
  }

  /** Connecting, clearing and sending the HELLO. */
  lemma {:induction false} ThreeToHello(s: AgentState)
    requires s.phase.Connect? && s.running
    ensures var sequence := Wrap32(s.sequence + 1);
      Ticks(s, 3) == s.(wire := [ControlBytes(Hello, sequence, 0)], inFlight := [], partial := 0, queue := [],
                        sequence := sequence, phase := SendReset)
  {
    hide ControlBytes, Cut, Ticks;
    TicksThree(s);
  }

  /** The rest of the greeting. */
  lemma {:induction false} FourToConnected(s: AgentState)
    requires s.phase.SendReset?
    ensures var sequence := Wrap32(s.sequence + 1);
      Ticks(s, 4) == s.(wire := s.wire + [ControlBytes(Reset, sequence, 0)], sequence := sequence,
                        reconnectRequested := false, latest := ZERO_FRAME, connected := true, phase := CheckLoop)
  {
    hide ControlBytes, Cut, Ticks, Zeros;
    TicksJoin(s, 1, 3);
    TicksThree(s);
    TicksThree(Ticks(s, 1));
  }

  /** With the network willing, seven steps of a running agent make a fresh connection,
      greeted and published, whatever came before. */
  lemma {:induction false} ConnectsInSeven(s: AgentState)
    requires s.phase.Connect? && s.running
    ensures var later, hello, reset := Ticks(s, 7), Wrap32(s.sequence + 1), Wrap32(s.sequence + 2);
      && later.phase.CheckLoop? && later.connected && !later.reconnectRequested
      && later.queue == [] && later.latest == ZERO_FRAME && later.sequence == reset
      && later.wire == [ControlBytes(Hello, hello, 0), ControlBytes(Reset, reset, 0)]
  {
    hide Ticks, Tick, ControlBytes, Zeros;
    TicksJoin(s, 3, 4);
    ThreeToHello(s);
    FourToConnected(Ticks(s, 3));
  }

  /** With the network willing, a streaming thread sends all that is queued, in order. */
  lemma {:induction false} SendsAll(s: AgentState)
    requires s.phase.CheckLoop? && s.running && !s.reconnectRequested && s.inFlight == []
    ensures Ticks(s, 3 * |s.queue|) == s.(wire := s.wire + s.queue, queue := [])
    decreases |s.queue|
  {
    hide Ticks, Tick;
    if s.queue == [] {
      assert Ticks(s, 0) == s by { TicksNone(s); }
      assert s.wire + [] == s.wire;
    } else {
      OneSent(s);
      SendsAll(Ticks(s, 3));
      TicksJoin(s, 3, 3 * |s.queue| - 3);
      assert s.wire + [s.queue[0]] + s.queue[1..] == s.wire + s.queue;
    }
  }

  lemma {:induction false} TicksNone(s: AgentState)
    ensures Ticks(s, 0) == s
  {
  }

  lemma {:induction false} OneSent(s: AgentState)
    requires s.phase.CheckLoop? && s.running && !s.reconnectRequested && s.inFlight == [] && s.queue != []
    ensures Ticks(s, 3) == s.(wire := s.wire + [s.queue[0]], queue := s.queue[1..])
  {
    hide Ticks, SendControl, Cut;
    TicksThree(s);
  }

  /** How many steps at most until a closing thread has closed the connection. */
  function StepsLeft(phase: Phase): nat {
    match phase
    case PopNext => 6
    case SendNext => 5
    case CheckLoop => 4
    case Unpublish => 3
    case Drain => 2
    case CloseSocket => 1
    case _ => 0
  }

  /** A thread told to reconnect, or stopped, comes closer to closing with every step,
      whatever the network does, and has nothing queued when it is there. */
  lemma {:induction false} ClosingStep(s: AgentState, fate: Fate)
    requires Closing(s) && StepsLeft(s.phase) > 0
    ensures Closing(Tick(s, fate)) && StepsLeft(Tick(s, fate).phase) < StepsLeft(s.phase)
    ensures s.phase.CloseSocket? <==> Tick(s, fate).phase.Connect?
    ensures s.phase.Drain? ==> Tick(s, fate).queue == []
    ensures s.phase.Unpublish? ==> !Tick(s, fate).connected
    ensures Tick(s, fate).phase.CloseSocket? ==> s.phase.Drain?
    ensures Tick(s, fate).phase.Drain? ==> s.phase.Unpublish?
  {
    hide SendControl, Cut, Zeros;
  }

  /** A thread that waits for a frame, neither stopped nor told to reconnect, waits on. */
  lemma {:induction false} WaitingStays(s: AgentState, fate: Fate)
    requires s.phase.PopNext? && s.queue == [] && !Closing(s)
    ensures Tick(s, fate) == s
  {
  }

  lemma {:induction false} FirstEpoch(threshold: U32) returns (up: AgentState)
    ensures up == RunAgent(threshold, Steps(7)) == RunAgent(threshold, Reconnecting()[..7])
    ensures up.phase.CheckLoop? && up.connected && up.running && !up.reconnectRequested && up.queue == []
    ensures up.sequence == 2 && up.latest == ZERO_FRAME && up.inFlight == []
  {
    hide ControlBytes, Zeros, Steps, Ticks, Tick, RunFrom;
    RunSteps(Started(threshold), 7);
    assert Reconnecting()[..7] == Steps(7);
    up := Ticks(Started(threshold), 7);
    TicksJoin(Started(threshold), 3, 4);
    ThreeToHello(Started(threshold));
    FourToConnected(Ticks(Started(threshold), 3));
  }

  lemma {:induction false} SecondEpoch(threshold: U32, up: AgentState) returns (again: AgentState)
    requires up == RunAgent(threshold, Steps(7))
    requires up.phase.CheckLoop? && up.connected && up.running && !up.reconnectRequested && up.queue == []
    requires up.sequence == 2 && up.latest == ZERO_FRAME && up.inFlight == []
    ensures again == RunAgent(threshold, Reconnecting())
    ensures again.phase.SendReset? && again.sequence == 4
    ensures again.wire == [ControlBytes(Hello, 4, 0)] && again.latest.contactCount == 0 && again.latest.flags == 1
  {
    hide ControlBytes, Zeros, Steps, Enqueue, Ticks, RunFrom, Spells;
    var start := Started(threshold);
    var edge := ButtonEdge(1, 0, 0);
    RunAction(start, Steps(7), edge);
    var pressed := Act(up, edge);
    var frame := ZERO_FRAME.(flags := 1);
    EnqueueSplits(up.(physicalDown := true, latest := frame), frame, 0);
    RunJoin(start, Steps(7) + [edge], Steps(2));
    RunSteps(pressed, 2);
    var sending := TwoSteps(pressed);
    RunAction(start, Steps(7) + [edge] + Steps(2), SenderStep(CUT));
    RunJoin(start, Steps(7) + [edge] + Steps(2) + [SenderStep(CUT)], Steps(6));
    RunSteps(Tick(sending, CUT), 6);
    again := SixSteps(Tick(sending, CUT));
  }

  lemma {:induction false} TwoSteps(s: AgentState) returns (later: AgentState)
    requires s.phase.CheckLoop? && s.running && !s.reconnectRequested && |s.queue| == 1
    ensures later == Ticks(s, 2) == s.(inFlight := [s.queue[0]], queue := [], phase := SendNext)
  {
    hide SendControl, Cut, Ticks;
    later := Ticks(s, 2);
    TicksThree(s);
  }

  lemma {:induction false} SixSteps(s: AgentState) returns (later: AgentState)
    requires s.phase.Unpublish? && s.running && s.sequence == 3
    ensures later == Ticks(s, 6)
    ensures later.phase.SendReset? && later.sequence == 4 && later.latest == s.latest
    ensures later.wire == [ControlBytes(Hello, 4, 0)]
  {
    hide ControlBytes, Cut, Ticks;
    later := Ticks(s, 6);
    TicksJoin(s, 3, 3);
    TicksThree(s);
    ThreeToHello(Ticks(s, 3));
  }

  lemma {:induction false} LateAtReset(s: AgentState, late: Action)
    requires s.phase.SendReset? && s.sequence == 4 && s.wire == [ControlBytes(Hello, 4, 0)]
    requires s.latest.contactCount <= MAX_CONTACTS && s.latest.flags <= FRAME_BUTTON && Late(late)
    ensures var later := Ticks(Act(s, late), 1);
      |later.wire| == 2 && NumberOf(later.wire[0]) == 4 && NumberOf(later.wire[1]) == 6 && !Contiguous(later.wire)
  {
    hide ControlBytes, Enqueue, Act, Spells, NumberOf;
    var noted, frame, clock := CallbackEnqueues(s, late);
    EnqueueSplits(noted, frame, clock);
    assert Ticks(Act(s, late), 0) == Act(s, late);
    ControlSpells(Hello, 4, 0);
    SpelledNumber(ControlBytes(Hello, 4, 0), Hello, 4);
    ControlSpells(Reset, 6, 0);
    SpelledNumber(ControlBytes(Reset, 6, 0), Reset, 6);
    var wire := Ticks(Act(s, late), 1).wire;
    assert wire == [ControlBytes(Hello, 4, 0), ControlBytes(Reset, 6, 0)];
    assert NumberOf(wire[1]) != Wrap32(NumberOf(wire[0]) + 1);
  }
}
