/** The epoch protocol of the sender: what a connection carries, in order and
    without a gap; and what the pressure latch and the button have seen. */
module AgentLaws {
  import opened Words
  import opened Wire
  import opened TouchFrame
  import opened MessageQueue
  import opened PressureLatch
  import opened Agent
  import CodecLaws

  function EpochKind(index: nat): MessageType {
    if index == 0 then Hello else if index == 1 then Reset else Frame
  }

  /** The bytes are one message of that kind and number, to any decoder. */
  ghost predicate Spells(bytes: seq<Byte>, kind: MessageType, sequence: U32) {
    && LenientAccepts(bytes)
    && LenientMessage(bytes).kind == kind && LenientMessage(bytes).sequence == sequence
  }

  function NumberOf(bytes: seq<Byte>): U32 {
    if LenientAccepts(bytes) then LenientMessage(bytes).sequence else 0
  }

  /** HELLO n, RESET n+1, FRAME n+2, FRAME n+3, ... modulo 2^32. */
  ghost predicate Contiguous(stream: seq<seq<Byte>>) {
    && (forall i :: 0 <= i < |stream| ==> Spells(stream[i], EpochKind(i), NumberOf(stream[i])))
    && (forall i :: 0 < i < |stream| ==> NumberOf(stream[i]) == Wrap32(NumberOf(stream[i - 1]) + 1))
  }

  /** Everything of the current epoch: sent, being sent, and queued. */
  function Stream(s: AgentState): seq<seq<Byte>> { s.wire + s.inFlight + s.queue }

  predicate EndsAt(stream: seq<seq<Byte>>, sequence: U32) {
    stream != [] && NumberOf(stream[|stream| - 1]) == sequence
  }

  predicate Greeting(phase: Phase) {
    phase.ClearStale? || phase.SendHello? || phase.SendReset? || phase.ClearRequest? || phase.ClearSnapshot?
    || phase.Publish?
  }

  predicate Streaming(phase: Phase) {
    phase.CheckLoop? || phase.PopNext? || phase.SendNext? || phase.Unpublish?
  }

  /** How much of the greeting has been sent. */
  function Greeted(phase: Phase): nat {
    match phase
    case SendReset => 1
    case ClearRequest => 2
    case ClearSnapshot => 2
    case Publish => 2
    case _ => 0
  }

  /** What holds at every step of the epoch protocol. Only a streaming thread can
      find the agent connected, and then the stream ends at the last number
      allocated; while it is not connected nothing is queued, except what a
      closing epoch is about to drain. */
  ghost predicate EpochInv(s: AgentState) {
    Contiguous(Stream(s)) && PhaseInv(s)
  }

  ghost predicate PhaseInv(s: AgentState) {
    && |s.inFlight| <= 1 && (s.inFlight != [] ==> s.partial <= |s.inFlight[0]|)
    && (s.connected ==> Streaming(s.phase) && EndsAt(Stream(s), s.sequence))
    && (!s.connected && !s.phase.Drain? ==> s.queue == [])
    && (Streaming(s.phase) || s.phase.Drain? ==> |s.wire| >= 2)
    && (s.phase.CheckLoop? || s.phase.PopNext? ==> s.inFlight == [])
    && (s.phase.SendNext? ==> |s.inFlight| == 1)
    && (s.phase.CheckLoop? || s.phase.PopNext? || s.phase.SendNext? ==> s.partial == 0)
    && (Greeting(s.phase) ==>
         s.inFlight == [] && s.partial == 0
         && |s.wire| == Greeted(s.phase) && (s.wire != [] ==> EndsAt(s.wire, s.sequence)))
    && s.latest.contactCount <= MAX_CONTACTS && s.latest.flags <= FRAME_BUTTON
  }

  predicate Atomic(action: Action) { !action.LateButton? && !action.LateContact? }

  lemma {:induction false} EncodedSpells(kind: MessageType, frame: TPFrame)
    requires frame.contactCount <= MAX_CONTACTS && (kind == Frame ==> frame.flags <= FRAME_BUTTON)
    ensures var bytes := MessageBytes(MessageOf(kind, frame));
      Spells(bytes, kind, frame.sequence) && NumberOf(bytes) == frame.sequence
  {
    hide LenientAccepts, LenientMessage, MessageBytes;
    CodecLaws.LenientRoundTrip(kind, frame);
  }

  lemma {:induction false} ContiguousAppend(stream: seq<seq<Byte>>, bytes: seq<Byte>, sequence: U32)
    requires Contiguous(stream) && Spells(bytes, EpochKind(|stream|), sequence)
    ensures Contiguous(stream + [bytes]) <==> stream == [] || EndsAt(stream, Wrap32(sequence - 1))
    ensures EndsAt(stream + [bytes], sequence)
  {
    hide NumberOf, Spells;
    SpelledNumber(bytes, EpochKind(|stream|), sequence);
    var all, n := stream + [bytes], |stream|;
    assert all[n] == bytes && forall i :: 0 <= i < n ==> all[i] == stream[i];
    if n > 0 {
      WrapBack(NumberOf(stream[n - 1]), sequence);
      if NumberOf(all[n]) != Wrap32(NumberOf(all[n - 1]) + 1) {
        assert !Contiguous(all);
      }
    }
  }

  lemma {:induction false} WrapBack(before: U32, sequence: U32)
    ensures sequence == Wrap32(before + 1) <==> before == Wrap32(sequence - 1)
  {
  }

  lemma {:induction false} SpelledNumber(bytes: seq<Byte>, kind: MessageType, sequence: U32)
    requires Spells(bytes, kind, sequence)
    ensures NumberOf(bytes) == sequence
  {
  }

  lemma {:induction false} ContiguousPrefix(stream: seq<seq<Byte>>, n: nat)
    requires Contiguous(stream) && n <= |stream|
    ensures Contiguous(stream[..n])
  {
    hide Spells, NumberOf;
  }

  /** Numbering and queueing one frame. On a connected agent the stream stays
      contiguous, also when the queue overflows and the epoch is given up. */
  lemma {:induction false} EnqueueKeeps(s: AgentState, frame: TPFrame, clock: U64)
    requires EpochInv(s) && s.connected
    requires frame.contactCount <= MAX_CONTACTS && frame.flags <= FRAME_BUTTON
    ensures EpochInv(Enqueue(s, frame, clock))
  {
    hide Spells, MessageBytes, NumberOf, Contiguous;
    var sequence := Wrap32(s.sequence + 1);
    var stamped := frame.(sequence := sequence, captureTimeUs := clock);
    var bytes := MessageBytes(MessageOf(Frame, stamped));
    var later := Enqueue(s, frame, clock);
    EncodedSpells(Frame, stamped);
    if |s.queue| < QUEUE_CAPACITY {
      ContiguousAppend(Stream(s), bytes, sequence);
      assert Stream(later) == Stream(s) + [bytes];
    } else {
      ContiguousPrefix(Stream(s), |s.wire + s.inFlight|);
      assert Stream(later) == Stream(s)[..|s.wire + s.inFlight|];
    }
  }

  /** The encoder never refuses what a callback hands it, so the queue is the
      only reason a frame is not accepted. */
  lemma {:induction false} CallbackFramesEncode(s: AgentState, touches: seq<Touch>, deviceTimeUs: U64, flags: U16)
    requires |touches| <= MAX_CONTACTS && flags <= FRAME_BUTTON
    ensures Encodable(FRAME_CODE, FrameFrom(touches, deviceTimeUs, flags), MAX_MESSAGE_SIZE)
    ensures ButtonFlags(s) <= FRAME_BUTTON
  {
  }

  lemma {:induction false} CallbackKeeps(s: AgentState, action: Action)
    requires EpochInv(s) && (action.ButtonEdge? || action.ContactFrame?)
    ensures EpochInv(Act(s, action))
  {
    hide Contiguous, NumberOf, Enqueue, LatchStep, SampleOf, EndsAt;
    match action {
      case ButtonEdge(pressed, released, clock) =>
        var noted := NoteEdge(s, pressed, released);
        if s.connected {
          var frame := noted.latest.(flags := ButtonFlags(noted), deviceTimeUs := 0);
          EnqueueKeeps(noted.(latest := frame), frame, clock);
        }
      case ContactFrame(touches, deviceTimeUs, clock) =>
        if s.connected && !Refused(touches) {
          var sample := SampleOf(ListOf(touches));
          var latched := s.(latch := LatchStep(s.latch, sample, s.threshold),
                            processed := s.processed + [sample]);
          var frame := FrameFrom(ListOf(touches), deviceTimeUs, ButtonFlags(latched));
          EnqueueKeeps(latched.(latest := frame), frame, clock);
        }
    }
  }

  lemma {:induction false} ControlKeeps(s: AgentState, fate: Fate)
    requires EpochInv(s) && (s.phase.SendHello? || s.phase.SendReset?)
    ensures EpochInv(Tick(s, fate))
  {
    hide Spells, ControlBytes, NumberOf, Contiguous, EpochInv, SendControl;
    GreetingStream(s);
    if s.phase.SendHello? {
      ControlStep(s, Hello, SendReset, fate);
    } else {
      ControlStep(s, Reset, ClearRequest, fate);
    }
  }

  lemma {:induction false} GreetingStream(s: AgentState)
    requires EpochInv(s) && Greeting(s.phase)
    ensures Contiguous(s.wire) && PhaseInv(s)
  {
    hide Spells, NumberOf;
    assert Stream(s) == s.wire;
  }

  lemma {:induction false} ControlStep(s: AgentState, kind: MessageType, next: Phase, fate: Fate)
    requires PhaseInv(s) && Contiguous(s.wire) && Greeting(s.phase) && Greeted(next) == |s.wire| + 1
    requires kind == EpochKind(|s.wire|) && kind != Frame && Greeting(next)
    ensures EpochInv(SendControl(s, kind, next, fate))
  {
    hide Spells, ControlBytes, NumberOf, Contiguous;
    var sequence := Wrap32(s.sequence + 1);
    var bytes := ControlBytes(kind, sequence, fate.clock);
    ControlSpells(kind, sequence, fate.clock);
    ContiguousAppend(s.wire, bytes, sequence);
    assert Stream(SendControl(s, kind, next, fate)) == s.wire + [bytes];
  }

  lemma {:induction false} PopKeeps(s: AgentState, fate: Fate)
    requires EpochInv(s) && s.phase.PopNext?
    ensures EpochInv(Tick(s, fate))
  {
    hide Contiguous, EndsAt;
    if s.queue != [] {
      assert s.wire + [] + s.queue == s.wire + [s.queue[0]] + s.queue[1..];
    }
  }

  lemma {:induction false} SendKeeps(s: AgentState, fate: Fate)
    requires EpochInv(s) && s.phase.SendNext?
    ensures EpochInv(Tick(s, fate))
  {
    hide Contiguous, EndsAt;
    assert (s.wire + s.inFlight) + [] + s.queue == s.wire + s.inFlight + s.queue;
  }

  /** Clearing the queue leaves a prefix of the stream. */
  lemma {:induction false} ClearKeeps(s: AgentState, fate: Fate)
    requires EpochInv(s) && (s.phase.ClearStale? || s.phase.Drain?)
    ensures EpochInv(Tick(s, fate))
  {
    hide Contiguous, EndsAt;
    ContiguousPrefix(Stream(s), |s.wire + s.inFlight|);
    assert Stream(s)[..|s.wire + s.inFlight|] == s.wire + s.inFlight + [];
  }

  lemma {:induction false} ConnectKeeps(s: AgentState, fate: Fate)
    requires EpochInv(s) && s.phase.Connect?
    ensures EpochInv(Tick(s, fate))
  {
    hide Contiguous, EndsAt;
    ContiguousPrefix(Stream(s), 0);
    assert Stream(s)[..0] == [] + [] + [];
  }

  /** The remaining steps leave the stream alone. */
  lemma {:induction false} QuietKeeps(s: AgentState, fate: Fate)
    requires EpochInv(s)
    requires s.phase.ClearRequest? || s.phase.ClearSnapshot? || s.phase.Publish?
      || s.phase.CheckLoop? || s.phase.Unpublish? || s.phase.CloseSocket?
    ensures EpochInv(Tick(s, fate))
  {
    hide Contiguous, EndsAt, SendControl, Cut, Zeros;
    assert s.phase.Publish? ==> s.wire + [] + [] == s.wire;
  }

  lemma {:induction false} TickKeeps(s: AgentState, fate: Fate)
    requires EpochInv(s)
    ensures EpochInv(Tick(s, fate))
  {
    hide EpochInv, Tick;
    match s.phase {
      case SendHello => ControlKeeps(s, fate);
      case SendReset => ControlKeeps(s, fate);
      case PopNext => PopKeeps(s, fate);
      case SendNext => SendKeeps(s, fate);
      case ClearStale => ClearKeeps(s, fate);
      case Drain => ClearKeeps(s, fate);
      case Connect => ConnectKeeps(s, fate);
      case _ => QuietKeeps(s, fate);
    }
  }

  /** Over every run in which each callback's test and enqueue are one step, and
      through overflow, failed sends and reconnects, the epoch protocol holds: a
      connection carries HELLO n, RESET n+1, FRAME n+2, ... without a gap. */
  lemma {:induction false} EpochsContiguous(threshold: U32, actions: seq<Action>)
    requires forall i :: 0 <= i < |actions| ==> Atomic(actions[i])
    ensures EpochInv(RunAgent(threshold, actions))
  {
    hide EpochInv, Tick, ButtonCallback, ContactCallback;
    if actions == [] {
      StartInv(threshold);
    } else {
      var early, last := actions[..|actions| - 1], actions[|actions| - 1];
      EpochsContiguous(threshold, early);
      var s := RunAgent(threshold, early);
      match last {
        case SenderStep(fate) => TickKeeps(s, fate);
        case ButtonEdge(_, _, _) => CallbackKeeps(s, last);
        case ContactFrame(_, _, _) => CallbackKeeps(s, last);
        case Stop => StopKeeps(s);
      }
    }
  }

  lemma {:induction false} StartInv(threshold: U32)
    ensures EpochInv(Started(threshold))
  {
  }

  lemma {:induction false} StopKeeps(s: AgentState)
    requires EpochInv(s)
    ensures EpochInv(s.(running := false))
  {
    hide Contiguous, EndsAt;
  }

  lemma {:induction false} ControlSpells(kind: MessageType, sequence: U32, clock: U64)
    requires kind != Frame
    ensures Spells(ControlBytes(kind, sequence, clock), kind, sequence)
  {
    hide Spells, MessageBytes;
    EncodedSpells(kind, ZERO_FRAME.(sequence := sequence, captureTimeUs := clock));
  }

  /** The framework's states for a finger on the surface: make touch and touching. */
  predicate OnSurface(t: Touch) { t.state == 3 || t.state == 4 }

  /** The contact is the touch: its nine floats each in its own field, its identifier and
      state as wide as the wire, and its flags by its state. */
  ghost predicate IsTouch(c: Contact, t: Touch) {
    && c.identifier == t.identifier % 4294967296 && c.state == t.state % 256
    && (HasBit(c.flags, 2) <==> OnSurface(t)) && (HasBit(c.flags, 1) <==> 1 <= t.state <= 6)
    && HasBit(c.flags, 4) && c.flags <= 7
    && c.x == t.x && c.y == t.y && c.velocityX == t.velocityX && c.velocityY == t.velocityY
    && c.size == t.size && c.angle == t.angle && c.majorAxis == t.majorAxis && c.minorAxis == t.minorAxis
    && c.density == t.density
  }

  lemma {:induction false} ContactIsTouch(t: Touch)
    ensures IsTouch(ContactOf(t), t) && (Touching(t) <==> OnSurface(t))
  {
    SmallBits();
    hide HasBit;
  }

  ghost predicate NoTip(touches: seq<Touch>) {
    forall j :: 0 <= j < |touches| ==> !OnSurface(touches[j])
  }

  /** The touch is the only one whose tip is down. */
  ghost predicate OnlyTip(touches: seq<Touch>, i: int) {
    && 0 <= i < |touches| && OnSurface(touches[i])
    && forall j :: 0 <= j < |touches| && j != i ==> !OnSurface(touches[j])
  }

  /** The scan over the touches sees a press exactly when one finger is down and
      its own pressure reaches the enabled threshold. */
  lemma {:induction false} PressMeans(touches: seq<Touch>, threshold: U32)
    ensures Presses(SampleOf(touches), threshold) <==>
      && FloatGreater(threshold, 0)
      && exists i :: OnlyTip(touches, i) && FloatAtLeast(touches[i].pressure, threshold)
  {
    hide OnSurface, FloatGreater, FloatAtLeast;
    ScanMeans(touches);
    forall i | OnlyTip(touches, i)
      ensures SampleOf(touches).maximum == Highest(touches[i].pressure)
      ensures FloatGreater(threshold, 0) ==>
        (FloatAtLeast(SampleOf(touches).maximum, threshold) <==> FloatAtLeast(touches[i].pressure, threshold))
    {
      HighestMeans(touches[i].pressure, threshold);
    }
  }

  function Highest(pressure: U32): U32 { if FloatGreater(pressure, 0) then pressure else 0 }

  lemma {:induction false} HighestMeans(pressure: U32, threshold: U32)
    ensures FloatGreater(threshold, 0) ==>
      (FloatAtLeast(Highest(pressure), threshold) <==> FloatAtLeast(pressure, threshold))
  {
  }

  /** No tip, one tip with its pressure, or more. */
  lemma {:induction false} ScanMeans(touches: seq<Touch>)
    ensures SampleOf(touches).tips == 0 <==> NoTip(touches)
    ensures SampleOf(touches).tips == 0 ==> SampleOf(touches).maximum == 0
    ensures SampleOf(touches).tips == 1 <==> exists i :: OnlyTip(touches, i)
    ensures forall i :: OnlyTip(touches, i) ==> SampleOf(touches).maximum == Highest(touches[i].pressure)
  {
    hide Touching, OnSurface, FloatGreater;
    if touches != [] {
      var n := |touches| - 1;
      var early := touches[..n];
      ScanMeans(early);
      ContactIsTouch(touches[n]);
      assert forall j :: 0 <= j < n ==> early[j] == touches[j];
      if !OnSurface(touches[n]) {
        assert forall i :: OnlyTip(touches, i) <==> OnlyTip(early, i);
        assert NoTip(touches) <==> NoTip(early);
      } else if NoTip(early) {
        assert OnlyTip(touches, n);
        assert forall i :: OnlyTip(touches, i) ==> i == n;
      } else {
        assert forall i :: !OnlyTip(touches, i);
      }
    }
  }

  /** The latch after any run is the latch of the frames processed, which are
      the contact frames that found the agent connected. */
  lemma {:induction false} LatchFollowsHistory(threshold: U32, actions: seq<Action>)
    ensures var s := RunAgent(threshold, actions);
      && s.threshold == threshold && s.latch == LatchAfter(s.processed, threshold)
      && (s.latch.down <==> Latched(s.processed, threshold))
  {
    hide LatchStep, SampleOf, Encodable, Latched;
    LatchMeans(RunAgent(threshold, actions).processed, threshold);
    if actions != [] {
      var early, last := actions[..|actions| - 1], actions[|actions| - 1];
      LatchFollowsHistory(threshold, early);
      ActLatch(RunAgent(threshold, early), last);
    }
  }

  lemma {:induction false} ActLatch(s: AgentState, action: Action)
    requires s.latch == LatchAfter(s.processed, s.threshold)
    ensures var later := Act(s, action);
      later.threshold == s.threshold && later.latch == LatchAfter(later.processed, later.threshold)
  {
    hide LatchStep, SampleOf, LatchAfter, Enqueue, Tick, FrameFrom;
    match action {
      case SenderStep(fate) => TickLatch(s, fate);
      case ButtonEdge(pressed, released, clock) =>
        EnqueueLatch();
      case LateButton(clock) =>
        EnqueueLatch();
      case ContactFrame(touches, _, _) =>
        EnqueueLatch();
        OneMoreSample(s, SampleOf(ListOf(touches)));
      case LateContact(list, _, _) =>
        EnqueueLatch();
        OneMoreSample(s, SampleOf(list));
      case Stop =>
    }
  }

  lemma {:induction false} TickLatch(s: AgentState, fate: Fate)
    ensures SameLatch(s, Tick(s, fate))
  {
    hide SendControl, Cut, SameLatch;
    if Greeting(s.phase) || s.phase.Connect? {
      GreetingLatch(s, fate);
    } else {
      StreamingLatch(s, fate);
    }
  }

  ghost predicate SameLatch(s: AgentState, later: AgentState) {
    && later.threshold == s.threshold && later.latch == s.latch && later.processed == s.processed
    && later.physicalDown == s.physicalDown
  }

  lemma {:induction false} GreetingLatch(s: AgentState, fate: Fate)
    requires Greeting(s.phase) || s.phase.Connect?
    ensures SameLatch(s, Tick(s, fate))
  {
    hide SendControl;
    ControlLatch(s, Hello, SendReset, fate);
    ControlLatch(s, Reset, ClearRequest, fate);
  }

  lemma {:induction false} StreamingLatch(s: AgentState, fate: Fate)
    requires !Greeting(s.phase) && !s.phase.Connect?
    ensures SameLatch(s, Tick(s, fate))
  {
    hide SendControl, Cut;
  }

  lemma {:induction false} ControlLatch(s: AgentState, kind: MessageType, next: Phase, fate: Fate)
    ensures SameLatch(s, SendControl(s, kind, next, fate))
  {
    hide ControlBytes, Cut;
  }

  lemma {:induction false} EnqueueLatch()
    ensures forall s: AgentState, frame: TPFrame, clock: U64 ::
      SameLatch(s, Enqueue(s, frame, clock))
  {
    hide Encodable, MessageBytes;
  }

  lemma {:induction false} OneMoreSample(s: AgentState, sample: Sample)
    requires s.latch == LatchAfter(s.processed, s.threshold)
    ensures LatchStep(s.latch, sample, s.threshold) == LatchAfter(s.processed + [sample], s.threshold)
  {
    hide LatchStep;
    assert (s.processed + [sample])[..|s.processed|] == s.processed;
  }
}
