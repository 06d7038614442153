/** What the callbacks put on the wire, said of the framework's touches and edges: the
    contacts of each frame, its times, and when its button is down. */
module CallbackLaws {
  import opened Words
  import opened Wire
  import opened TouchFrame
  import opened PressureLatch
  import opened Agent
  import opened AgentLaws
  import opened LateCallbacks
  import opened Snapshot
  import CodecLaws

  /** Not more than ten touches, and no null list with a count. */
  predicate Accepts(touches: TouchList) {
    match touches
    case Null(count) => count == 0
    case Touches(list) => |list| <= 10
  }

  /** The touches of every contact frame processed: those that found the agent connected
      and were accepted, and the late ones. */
  function Frames(threshold: U32, actions: seq<Action>): seq<seq<Touch>> {
    if actions == [] then []
    else
      var n := |actions| - 1;
      Frames(threshold, actions[..n]) + Processed(RunAgent(threshold, actions[..n]).connected, actions[n])
  }

  function Processed(connected: bool, action: Action): seq<seq<Touch>> {
    match action
    case ContactFrame(touches, _, _) => if connected && Accepts(touches) then [ListOf(touches)] else []
    case LateContact(list, _, _) => if |list| <= 10 then [list] else []
    case _ => []
  }

  ghost predicate SingleTip(touches: seq<Touch>) { exists i :: OnlyTip(touches, i) }

  /** One finger, and its own pressure reaches an enabled threshold. */
  ghost predicate Pressing(touches: seq<Touch>, threshold: U32) {
    && FloatGreater(threshold, 0)
    && exists i :: OnlyTip(touches, i) && FloatAtLeast(touches[i].pressure, threshold)
  }

  /** Three consecutive pressing frames from `i`, and one finger ever since. */
  ghost predicate ClickedSince(frames: seq<seq<Touch>>, threshold: U32, i: nat) {
    && i + 3 <= |frames|
    && (forall k :: i <= k < i + 3 ==> Pressing(frames[k], threshold))
    && (forall k :: i <= k < |frames| ==> SingleTip(frames[k]))
  }

  ghost predicate Clicked(frames: seq<seq<Touch>>, threshold: U32) {
    exists i :: ClickedSince(frames, threshold, i)
  }

  /** The last button edge that said anything did not say `released`. */
  predicate PhysicallyDown(actions: seq<Action>) {
    actions != [] &&
      var n := |actions| - 1;
      match actions[n]
      case ButtonEdge(pressed, released, _) =>
        if pressed == 0 && released == 0 then PhysicallyDown(actions[..n]) else released == 0
      case _ => PhysicallyDown(actions[..n])
  }

  /** The button as the Mac's user holds it. */
  ghost predicate ButtonHeld(threshold: U32, actions: seq<Action>) {
    Clicked(Frames(threshold, actions), threshold) || PhysicallyDown(actions)
  }

  function Samples(frames: seq<seq<Touch>>): (samples: seq<Sample>)
    ensures |samples| == |frames| && forall k :: 0 <= k < |frames| ==> samples[k] == SampleOf(frames[k])
  {
    if frames == [] then []
    else Samples(frames[..|frames| - 1]) + [SampleOf(frames[|frames| - 1])]
  }

  lemma {:induction false} SamplesMore(frames: seq<seq<Touch>>, touches: seq<Touch>)
    ensures Samples(frames + [touches]) == Samples(frames) + [SampleOf(touches)]
  {
    hide SampleOf;
    assert (frames + [touches])[..|frames|] == frames;
  }

  /** The agent has sampled exactly the frames processed, and holds the last edge. */
  lemma {:induction false} HistoryKept(threshold: U32, actions: seq<Action>)
    ensures var s := RunAgent(threshold, actions);
      s.processed == Samples(Frames(threshold, actions)) && s.physicalDown == PhysicallyDown(actions)
  {
    hide SampleOf, Act, Processed, Samples;
    if actions == [] {
      NoSamples();
    } else {
      var n := |actions| - 1;
      HistoryKept(threshold, actions[..n]);
      var frames := Frames(threshold, actions[..n]);
      var s, last := RunAgent(threshold, actions[..n]), actions[n];
      ActHistory(s, last);
      assert frames + [] == frames;
      if Processed(s.connected, last) != [] {
        SamplesMore(frames, Processed(s.connected, last)[0]);
        OneProcessed(s.connected, last);
      }
    }
  }

  lemma {:induction false} NoSamples()
    ensures Samples([]) == []
  {
  }

  lemma {:induction false} OneProcessed(connected: bool, action: Action)
    ensures var some := Processed(connected, action);
      some != [] ==> some == [some[0]]
  {
  }

  lemma {:induction false} ActHistory(s: AgentState, action: Action)
    ensures var later, some := Act(s, action), Processed(s.connected, action);
      && later.processed == (if some == [] then s.processed else s.processed + [SampleOf(some[0])])
      && later.physicalDown == match action
           case ButtonEdge(pressed, released, _) =>
             if pressed == 0 && released == 0 then s.physicalDown else released == 0
           case _ => s.physicalDown
  {
    hide SampleOf, Tick, Enqueue, LatchStep, FrameFrom;
    match action {
      case SenderStep(fate) => TickLatch(s, fate);
      case ButtonEdge(_, _, clock) => EnqueueLatch();
      case LateButton(clock) => EnqueueLatch();
      case ContactFrame(_, _, _) => EnqueueLatch();
      case LateContact(_, _, _) => EnqueueLatch();
      case Stop =>
    }
  }

  /** In every run, late callbacks included, the latch is down exactly when three
      consecutive frames pressed with one finger and every frame since the first of them
      had one finger, said of the touches themselves. */
  lemma {:induction false} ClickMeans(threshold: U32, actions: seq<Action>)
    ensures RunAgent(threshold, actions).latch.down <==> Clicked(Frames(threshold, actions), threshold)
  {
    hide RunAgent, Frames, Samples, LatchAfter;
    HistoryKept(threshold, actions);
    LatchFollowsHistory(threshold, actions);
    LatchedAsClicked(Frames(threshold, actions), threshold);
  }

  lemma {:induction false} LatchedAsClicked(frames: seq<seq<Touch>>, threshold: U32)
    ensures Latched(Samples(frames), threshold) <==> Clicked(frames, threshold)
  {
    hide SampleOf, Presses, Pressing, SingleTip, Samples;
    var samples := Samples(frames);
    forall k | 0 <= k < |frames|
      ensures Presses(samples[k], threshold) <==> Pressing(frames[k], threshold)
      ensures samples[k].tips == 1 <==> SingleTip(frames[k])
    {
      TouchesPress(frames[k], threshold);
    }
    forall i: nat
      ensures LatchedSince(samples, threshold, i) <==> ClickedSince(frames, threshold, i)
    {
    }
  }

  lemma {:induction false} TouchesPress(touches: seq<Touch>, threshold: U32)
    ensures Presses(SampleOf(touches), threshold) <==> Pressing(touches, threshold)
    ensures SampleOf(touches).tips == 1 <==> SingleTip(touches)
  {
    hide SampleOf, Presses, FloatGreater, FloatAtLeast, OnlyTip;
    PressMeans(touches, threshold);
    ScanMeans(touches);
  }

  ghost predicate AreTouches(contacts: seq<Contact>, touches: seq<Touch>) {
    && |contacts| == |touches|
    && forall i :: 0 <= i < |touches| ==> IsTouch(contacts[i], touches[i])
  }

  /** A callback that finds the agent connected and is accepted. */
  predicate Queues(connected: bool, action: Action) {
    match action
    case ButtonEdge(_, _, _) => connected
    case ContactFrame(touches, _, _) => connected && Accepts(touches)
    case _ => false
  }

  /** The touches a callback's frame carries: its own, or, for a button edge, those of
      the last contact frame of the connection. */
  function Carried(threshold: U32, actions: seq<Action>): seq<Touch>
    requires actions != []
  {
    var n := |actions| - 1;
    match actions[n]
    case ContactFrame(touches, _, _) => ListOf(touches)
    case _ => EpochTouches(threshold, actions[..n])
  }

  /** The message is the frame of the callback the actions end with. */
  ghost predicate Reports(m: Message, threshold: U32, actions: seq<Action>) {
    && actions != [] && m.kind == Frame
    && m.sequence == RunAgent(threshold, actions).sequence
    && m.flags <= 1 && (m.flags == 1 <==> ButtonHeld(threshold, actions))
    && AreTouches(m.contacts, Carried(threshold, actions))
    && match actions[|actions| - 1]
       case ContactFrame(_, deviceTimeUs, clock) => m.deviceTimeUs == deviceTimeUs && m.captureTimeUs == clock
       case ButtonEdge(_, _, clock) => m.deviceTimeUs == 0 && m.captureTimeUs == clock
       case _ => false
  }

  lemma {:induction false} ContactsAreTouches(touches: seq<Touch>)
    ensures AreTouches(ContactsOf(touches), touches)
  {
    hide IsTouch, ContactOf, ContactsOf;
    forall i | 0 <= i < |touches|
      ensures IsTouch(ContactsOf(touches)[i], touches[i])
    {
      ContactIsTouch(touches[i]);
    }
  }

  /** Every callback of a run with atomic callbacks: if it queues, and there is room, one
      message more is queued, the frame it should be; with a full queue the queue is
      emptied; else nothing is queued. */
  lemma {:induction false} CallbackReports(threshold: U32, actions: seq<Action>, action: Action)
    requires AllAtomic(actions) && (action.ButtonEdge? || action.ContactFrame?)
    ensures var s, later := RunAgent(threshold, actions), RunAgent(threshold, actions + [action]);
      if !Queues(s.connected, action) then later.queue == s.queue && later.sequence == s.sequence
      else if |s.queue| < 256 then
        && |later.queue| == |s.queue| + 1 && later.queue[..|s.queue|] == s.queue
        && LenientAccepts(later.queue[|s.queue|])
        && Reports(LenientMessage(later.queue[|s.queue|]), threshold, actions + [action])
      else later.queue == []
  {
    hide RunAgent, Act, LenientAccepts, LenientMessage, ButtonHeld, EpochTouches, AreTouches, CallbackFrame, Enqueue;
    var s := RunAgent(threshold, actions);
    var all := actions + [action];
    RunMore(threshold, actions, action);
    assert all[|all| - 1] == action && all[..|all| - 1] == actions;
    if !Queues(s.connected, action) {
      NotQueued(s, action);
    } else {
      var p := CallbackFrame(s, action);
      QueuedFrame(s, action);
      FrameFlags(threshold, all, p);
      FrameTouches(threshold, actions, action);
      QueuedMessage(p.agent, p.frame, p.clock);
    }
  }

  /** What a callback that queues has under the lock. */
  function CallbackFrame(s: AgentState, action: Action): Prepared
    requires Queues(s.connected, action)
  {
    match action
    case ButtonEdge(pressed, released, clock) => PrepareButton(NoteEdge(s, pressed, released), clock)
    case ContactFrame(touches, deviceTimeUs, clock) => PrepareContact(s, ListOf(touches), deviceTimeUs, clock)
  }

  lemma {:induction false} QueuedFrame(s: AgentState, action: Action)
    requires Queues(s.connected, action)
    ensures var p := CallbackFrame(s, action);
      && Act(s, action) == Enqueue(p.agent, p.frame, p.clock)
      && p.agent.queue == s.queue && p.agent.sequence == s.sequence
      && p.frame.flags == ButtonFlags(p.agent)
      && match action
         case ButtonEdge(_, _, clock) => p.clock == clock && p.frame.deviceTimeUs == 0
         case ContactFrame(_, deviceTimeUs, clock) => p.clock == clock && p.frame.deviceTimeUs == deviceTimeUs
  {
    hide Enqueue, LatchStep, SampleOf, Zeros, ContactsOf;
  }

  /** The button bit a callback writes. */
  lemma {:induction false} FrameFlags(threshold: U32, all: seq<Action>, p: Prepared)
    requires RunAgent(threshold, all) == Enqueue(p.agent, p.frame, p.clock) && p.frame.flags == ButtonFlags(p.agent)
    ensures p.frame.flags <= 1 && (p.frame.flags == 1 <==> ButtonHeld(threshold, all))
  {
    hide Enqueue, RunAgent, Clicked, Frames, PhysicallyDown;
    EnqueueLatch();
    ClickMeans(threshold, all);
    HistoryKept(threshold, all);
    assert SameLatch(p.agent, Enqueue(p.agent, p.frame, p.clock));
  }

  /** The contacts a callback writes. */
  lemma {:induction false} FrameTouches(threshold: U32, actions: seq<Action>, action: Action)
    requires AllAtomic(actions) && Queues(RunAgent(threshold, actions).connected, action)
    ensures var frame := CallbackFrame(RunAgent(threshold, actions), action).frame;
      && frame.contactCount <= MAX_CONTACTS
      && AreTouches(frame.contacts[..frame.contactCount], Carried(threshold, actions + [action]))
  {
    hide RunAgent, EpochTouches, AreTouches, EpochInv, SampleOf, LatchStep, FrameFrom;
    var s, all := RunAgent(threshold, actions), actions + [action];
    assert all[|all| - 1] == action && all[..|all| - 1] == actions;
    ContactsAreTouches(Carried(threshold, all));
    match action {
      case ContactFrame(touches, deviceTimeUs, clock) =>
        FrameShows(ListOf(touches), deviceTimeUs, CallbackFrame(s, action).frame.flags);
        ButtonIrrelevant(s, ListOf(touches), deviceTimeUs, clock);
      case ButtonEdge(_, _, _) =>
        SnapshotRun(threshold, actions);
        EpochsContiguous(threshold, actions);
        ConnectedStreams(s);
    }
  }

  lemma {:induction false} ButtonIrrelevant(s: AgentState, touches: seq<Touch>, deviceTimeUs: U64, clock: U64)
    requires |touches| <= MAX_CONTACTS
    ensures var frame := PrepareContact(s, touches, deviceTimeUs, clock).frame;
      frame == FrameFrom(touches, deviceTimeUs, frame.flags)
  {
    hide SampleOf, LatchStep, Zeros, ContactsOf;
  }

  lemma {:induction false} QueuedMessage(s: AgentState, frame: TPFrame, clock: U64)
    requires frame.contactCount <= MAX_CONTACTS && frame.flags <= FRAME_BUTTON
    ensures var later, n := Enqueue(s, frame, clock), |s.queue|;
      if n < 256 then
        && |later.queue| == n + 1 && later.queue[..n] == s.queue && LenientAccepts(later.queue[n])
        && LenientMessage(later.queue[n])
          == Message(Frame, later.sequence, clock, frame.deviceTimeUs, frame.flags,
                     frame.contacts[..frame.contactCount])
      else later.queue == []
  {
    hide LenientAccepts, LenientMessage, MessageBytes;
    CodecLaws.LenientRoundTrip(Frame, frame.(sequence := Wrap32(s.sequence + 1), captureTimeUs := clock));
  }

  lemma {:induction false} RunMore(threshold: U32, actions: seq<Action>, action: Action)
    ensures RunAgent(threshold, actions + [action]) == Act(RunAgent(threshold, actions), action)
  {
    hide Act;
    assert (actions + [action])[..|actions|] == actions;
  }

  lemma {:induction false} NotQueued(s: AgentState, action: Action)
    requires (action.ButtonEdge? || action.ContactFrame?) && !Queues(s.connected, action)
    ensures Act(s, action).queue == s.queue && Act(s, action).sequence == s.sequence
  {
    hide ContactLocked, ButtonLocked;
  }

  /** A control message carries its number, its time and nothing else. */
  lemma {:induction false} ControlCarries(kind: MessageType, sequence: U32, clock: U64)
    requires kind != Frame
    ensures LenientAccepts(ControlBytes(kind, sequence, clock))
    ensures LenientMessage(ControlBytes(kind, sequence, clock)) == Message(kind, sequence, clock, 0, 0, [])
  {
    hide LenientAccepts, LenientMessage, MessageBytes;
    CodecLaws.LenientRoundTrip(kind, ZERO_FRAME.(sequence := sequence, captureTimeUs := clock));
  }

  /** A failed send may have got any part of the message out but all of it. */
  lemma {:induction false} AnyCut(message: seq<Byte>, bytes: nat)
    requires message != []
    ensures Cut(bytes, message) < |message| && (bytes < |message| ==> Cut(bytes, message) == bytes)
  {
  }

  /** A message of the stream is a control message, or the frame of a callback the run
      has made. */
  ghost predicate Known(threshold: U32, actions: seq<Action>, bytes: seq<Byte>) {
    && LenientAccepts(bytes)
    && (LenientMessage(bytes).kind == Frame ==>
         exists j :: 0 < j <= |actions| && Reports(LenientMessage(bytes), threshold, actions[..j]))
  }

  ghost predicate AllKnown(threshold: U32, actions: seq<Action>, stream: seq<seq<Byte>>) {
    forall i :: 0 <= i < |stream| ==> Known(threshold, actions, stream[i])
  }

  ghost predicate StreamKnown(threshold: U32, actions: seq<Action>, s: AgentState) {
    && AllKnown(threshold, actions, s.wire) && AllKnown(threshold, actions, s.inFlight)
    && AllKnown(threshold, actions, s.queue)
  }

  lemma {:induction false} KnownLater(threshold: U32, actions: seq<Action>, action: Action, s: AgentState)
    requires StreamKnown(threshold, actions, s)
    ensures StreamKnown(threshold, actions + [action], s)
  {
    hide LenientAccepts, LenientMessage, Reports;
    var all := actions + [action];
    forall bytes | Known(threshold, actions, bytes)
      ensures Known(threshold, all, bytes)
    {
      if LenientMessage(bytes).kind == Frame {
        var j :| 0 < j <= |actions| && Reports(LenientMessage(bytes), threshold, actions[..j]);
        assert all[..j] == actions[..j];
      }
    }
  }

  lemma {:induction false} NothingKnown(threshold: U32, actions: seq<Action>)
    ensures AllKnown(threshold, actions, [])
  {
  }

  lemma {:induction false} KnownTick(threshold: U32, actions: seq<Action>, s: AgentState, fate: Fate)
    requires StreamKnown(threshold, actions, s)
    ensures StreamKnown(threshold, actions, Tick(s, fate))
  {
    hide StreamKnown, Tick;
    if s.phase.SendHello? || s.phase.SendReset? {
      KnownControl(threshold, actions, s, fate);
    } else if s.phase.PopNext? || s.phase.SendNext? {
      KnownSend(threshold, actions, s, fate);
    } else if Greeting(s.phase) || s.phase.CheckLoop? {
      KnownGreeting(threshold, actions, s, fate);
    } else {
      KnownEnd(threshold, actions, s, fate);
    }
  }

  lemma {:induction false} KnownControl(threshold: U32, actions: seq<Action>, s: AgentState, fate: Fate)
    requires StreamKnown(threshold, actions, s) && (s.phase.SendHello? || s.phase.SendReset?)
    ensures StreamKnown(threshold, actions, Tick(s, fate))
  {
    hide LenientAccepts, LenientMessage, Reports, ControlBytes, Cut;
    var kind := if s.phase.SendHello? then Hello else Reset;
    ControlCarries(kind, Wrap32(s.sequence + 1), fate.clock);
    assert Known(threshold, actions, ControlBytes(kind, Wrap32(s.sequence + 1), fate.clock));
  }

  lemma {:induction false} KnownSend(threshold: U32, actions: seq<Action>, s: AgentState, fate: Fate)
    requires StreamKnown(threshold, actions, s) && (s.phase.PopNext? || s.phase.SendNext?)
    ensures StreamKnown(threshold, actions, Tick(s, fate))
  {
    hide Known, SendControl, Cut;
  }

  lemma {:induction false} KnownGreeting(threshold: U32, actions: seq<Action>, s: AgentState, fate: Fate)
    requires StreamKnown(threshold, actions, s)
    requires s.phase.CheckLoop? || (Greeting(s.phase) && !s.phase.SendHello? && !s.phase.SendReset?)
    ensures StreamKnown(threshold, actions, Tick(s, fate))
  {
    hide AllKnown, SendControl, Cut, Zeros;
    NothingKnown(threshold, actions);
  }

  lemma {:induction false} KnownEnd(threshold: U32, actions: seq<Action>, s: AgentState, fate: Fate)
    requires StreamKnown(threshold, actions, s)
    requires s.phase.Connect? || s.phase.Unpublish? || s.phase.Drain? || s.phase.CloseSocket?
    ensures StreamKnown(threshold, actions, Tick(s, fate))
  {
    hide AllKnown, SendControl, Cut, Zeros;
    NothingKnown(threshold, actions);
  }

  lemma {:induction false} KnownCallback(threshold: U32, actions: seq<Action>, action: Action)
    requires AllAtomic(actions) && (action.ButtonEdge? || action.ContactFrame?)
    requires StreamKnown(threshold, actions + [action], RunAgent(threshold, actions))
    ensures StreamKnown(threshold, actions + [action], RunAgent(threshold, actions + [action]))
  {
    hide RunAgent, LenientAccepts, LenientMessage, Reports;
    var s, all := RunAgent(threshold, actions), actions + [action];
    var later := RunAgent(threshold, all);
    CallbackReports(threshold, actions, action);
    CallbackSends(threshold, actions, action);
    assert all[..|all|] == all;
    forall i | 0 <= i < |later.queue|
      ensures Known(threshold, all, later.queue[i])
    {
      if later.queue != s.queue && i < |s.queue| {
        assert later.queue[i] == later.queue[..|s.queue|][i] == s.queue[i];
      }
    }
  }

  lemma {:induction false} CallbackSends(threshold: U32, actions: seq<Action>, action: Action)
    requires action.ButtonEdge? || action.ContactFrame?
    ensures var s, later := RunAgent(threshold, actions), RunAgent(threshold, actions + [action]);
      later.wire == s.wire && later.inFlight == s.inFlight
  {
    hide RunAgent, Enqueue, LatchStep, SampleOf, FrameFrom;
    RunMore(threshold, actions, action);
    EnqueueSends();
  }

  lemma {:induction false} EnqueueSends()
    ensures forall s: AgentState, frame: TPFrame, clock: U64 ::
      Enqueue(s, frame, clock).wire == s.wire && Enqueue(s, frame, clock).inFlight == s.inFlight
  {
    hide Encodable, MessageBytes;
  }

  /** In every run with atomic callbacks, every frame that is sent, in flight or queued is
      the frame of some callback of the run, at that callback's moment: its contacts, its
      number, its times, and its button exactly as held then. */
  lemma {:induction false} EveryFrameReports(threshold: U32, actions: seq<Action>)
    requires AllAtomic(actions)
    ensures StreamKnown(threshold, actions, RunAgent(threshold, actions))
  {
    hide StreamKnown, RunAgent, Tick, ButtonLocked, ContactLocked;
    if actions == [] {
      StartKnown(threshold);
    } else {
      var n := |actions| - 1;
      var early, last := actions[..n], actions[n];
      assert actions == early + [last];
      EveryFrameReports(threshold, early);
      var s := RunAgent(threshold, early);
      KnownLater(threshold, early, last, s);
      RunMore(threshold, early, last);
      match last {
        case SenderStep(fate) => KnownTick(threshold, actions, s, fate);
        case Stop => KnownStop(threshold, actions, s);
        case _ => KnownCallback(threshold, early, last);
      }
    }
  }

  lemma {:induction false} StartKnown(threshold: U32)
    ensures StreamKnown(threshold, [], RunAgent(threshold, []))
  {
    NothingKnown(threshold, []);
  }

  lemma {:induction false} KnownStop(threshold: U32, actions: seq<Action>, s: AgentState)
    requires StreamKnown(threshold, actions, s)
    ensures StreamKnown(threshold, actions, s.(running := false))
  {
    hide AllKnown;
  }
}
