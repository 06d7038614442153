/** The agent object: the callbacks and the sender thread's steps on shared
    fields and the ring buffer. Each method is one action of module Agent. */
module MacAgent {
  import opened Words
  import opened Wire
  import opened TouchFrame
  import opened MessageQueue
  import opened PressureLatch
  import A = Agent
  import opened Agent

  class MacAgent {
    var running: bool
    var connected: bool
    var reconnectRequested: bool
    var sequence: U32
    var physicalButtonDown: bool
    var pressureButtonDown: bool
    var pressurePressFrames: nat
    var pressureButtonEvents: nat
    const pressureThreshold: U32
    var latestFrame: TPFrame
    const queue: MessageQueue<seq<Byte>>
    var phase: Phase
    var wire: seq<seq<Byte>>
    var inFlight: seq<seq<Byte>>
    var partial: nat
    ghost var processed: seq<Sample>

    ghost predicate Valid()
      reads this, queue, queue.items
    {
      queue.Valid()
    }

    ghost function State(): AgentState
      requires Valid()
      reads this, queue, queue.items
    {
      AgentState(running, connected, reconnectRequested, sequence, physicalButtonDown,
                 Latch(pressureButtonDown, pressurePressFrames, pressureButtonEvents), pressureThreshold,
                 latestFrame, queue.Contents(), phase, wire, inFlight, partial, processed)
    }

    constructor (threshold: U32)
      ensures Valid() && fresh(queue) && fresh(queue.items) && State() == Started(threshold)
    {
      running, connected, reconnectRequested, sequence := true, false, false, 0;
      physicalButtonDown, pressureButtonDown, pressurePressFrames, pressureButtonEvents := false, false, 0, 0;
      pressureThreshold, latestFrame := threshold, ZERO_FRAME;
      queue := new MessageQueue<seq<Byte>>();
      phase, wire, inFlight, partial, processed := Connect, [], [], 0, [];
    }

    predicate EffectiveButtonDown()
      reads this
    {
      pressureButtonDown || physicalButtonDown
    }

    /** The wire form of a frame, or nothing if the encoder refuses it. */
    method EncodeFrame(code: int, frame: TPFrame) returns (message: seq<Byte>)
      ensures Encodable(code, frame, MAX_MESSAGE_SIZE) ==>
        message == MessageBytes(MessageOf(KindOfCode(code).value, frame)) != []
      ensures !Encodable(code, frame, MAX_MESSAGE_SIZE) ==> message == []
    {
      hide HeaderBytes, ContactsBytes;
      var buffer := new Byte[MAX_MESSAGE_SIZE];
      var length := EncodeMessage(code, frame, buffer, MAX_MESSAGE_SIZE);
      message := buffer[..length];
    }

    /** Numbers, encodes and queues one frame; if the queue is full the epoch is
        given up, since its number can no longer be skipped. */
    method EnqueueFrameLocked(frame: TPFrame, clock: U64)
      requires Valid()
      modifies this, queue, queue.items
      ensures Valid() && State() == Enqueue(old(State()), frame, clock)
    {
      hide MessageBytes, Window, Encodable;
      sequence := Wrap32(sequence + 1);
      var stamped := frame.(sequence := sequence, captureTimeUs := clock);
      var message := EncodeFrame(FRAME_CODE, stamped);
      var accepted := false;
      if message != [] {
        accepted := queue.Push(message);
      }
      if !accepted {
        connected := false;
        reconnectRequested := true;
        queue.Clear();
      }
    }

    method ButtonCallback(pressed: int, released: int, clock: U64)
      requires Valid()
      modifies this, queue, queue.items
      ensures Valid() && State() == A.ButtonCallback(old(State()), pressed, released, clock)
    {
      hide Enqueue, Window;
      if pressed != 0 {
        physicalButtonDown := true;
      }
      if released != 0 {
        physicalButtonDown := false;
      }
      if !connected {
        return;
      }
      var frame := latestFrame;
      frame := frame.(flags := if EffectiveButtonDown() then FRAME_BUTTON else 0, deviceTimeUs := 0);
      latestFrame := frame;
      EnqueueFrameLocked(frame, clock);
    }

    /** Counts the tips and finds the highest pressure above zero among them. */
    method ScanTouches(touches: seq<Touch>) returns (tipCount: nat, maximumPressure: U32)
      ensures Sample(tipCount, maximumPressure) == SampleOf(touches)
    {
      hide Touching, FloatGreater;
      tipCount, maximumPressure := 0, 0;
      for index := 0 to |touches|
        invariant Sample(tipCount, maximumPressure) == SampleOf(touches[..index])
      {
        var source := touches[index];
        assert touches[..index + 1][..index] == touches[..index];
        if Touching(source) {
          tipCount := tipCount + 1;
          if FloatGreater(source.pressure, maximumPressure) {
            maximumPressure := source.pressure;
          }
        }
      }
      assert touches[..|touches|] == touches;
    }

    /** Pressure clicking is single-finger only. */
    method UpdateLatch(tipCount: nat, maximumPressure: U32)
      modifies this`pressureButtonDown, this`pressurePressFrames, this`pressureButtonEvents
      ensures Latch(pressureButtonDown, pressurePressFrames, pressureButtonEvents)
        == LatchStep(old(Latch(pressureButtonDown, pressurePressFrames, pressureButtonEvents)),
                     Sample(tipCount, maximumPressure), pressureThreshold)
    {
      if tipCount != 1 {
        if pressureButtonDown {
          pressureButtonEvents := pressureButtonEvents + 1;
        }
        pressureButtonDown := false;
        pressurePressFrames := 0;
      } else if !pressureButtonDown && FloatGreater(pressureThreshold, 0) {
        if FloatAtLeast(maximumPressure, pressureThreshold) {
          pressurePressFrames := pressurePressFrames + 1;
          if pressurePressFrames >= 3 {
            pressureButtonDown := true;
            pressureButtonEvents := pressureButtonEvents + 1;
          }
        } else {
          pressurePressFrames := 0;
        }
      }
    }

    method FillContacts(touches: seq<Touch>) returns (contacts: seq<Contact>)
      requires |touches| <= MAX_CONTACTS
      ensures |contacts| == MAX_CONTACTS
      ensures forall i :: 0 <= i < |touches| ==> contacts[i] == ContactOf(touches[i])
      ensures forall i :: |touches| <= i < MAX_CONTACTS ==> contacts[i] == ZERO_CONTACT
    {
      hide ContactOf;
      contacts := Zeros(MAX_CONTACTS);
      for index := 0 to |touches|
        invariant |contacts| == MAX_CONTACTS
        invariant forall i :: 0 <= i < index ==> contacts[i] == ContactOf(touches[i])
        invariant forall i :: index <= i < MAX_CONTACTS ==> contacts[i] == ZERO_CONTACT
      {
        contacts := contacts[index := ContactOf(touches[index])];
      }
    }

    method ContactCallback(touches: TouchList, deviceTimeUs: U64, clock: U64)
      requires Valid()
      modifies this, queue, queue.items
      ensures Valid() && State() == A.ContactCallback(old(State()), touches, deviceTimeUs, clock)
    {
      hide A.ContactLocked, Window;
      if !connected {
        return;
      }
      if Refused(touches) {
        return;
      }
      ContactLocked(ListOf(touches), deviceTimeUs, clock);
    }

    method ContactLocked(touches: seq<Touch>, deviceTimeUs: U64, clock: U64)
      requires Valid() && |touches| <= MAX_CONTACTS
      modifies this, queue, queue.items
      ensures Valid() && State() == A.ContactLocked(old(State()), touches, deviceTimeUs, clock)
    {
      hide Enqueue, LatchStep, SampleOf, Window, FrameFrom;
      var frame := TakeFrame(touches, deviceTimeUs);
      EnqueueFrameLocked(frame, clock);
    }

    /** One hardware frame: the latch, the button it implies, and the snapshot. */
    method TakeFrame(touches: seq<Touch>, deviceTimeUs: U64) returns (frame: TPFrame)
      requires Valid() && |touches| <= MAX_CONTACTS
      modifies this`pressureButtonDown, this`pressurePressFrames, this`pressureButtonEvents, this`processed,
        this`latestFrame
      ensures Valid()
      ensures var before, sample := old(State()), SampleOf(touches);
        var latched := before.(latch := LatchStep(before.latch, sample, before.threshold),
                               processed := before.processed + [sample]);
        && frame == FrameFrom(touches, deviceTimeUs, ButtonFlags(latched))
        && State() == latched.(latest := frame)
    {
      hide LatchStep, SampleOf, Window, FrameFrom, ContactOf;
      var tipCount, maximumPressure := ScanTouches(touches);
      UpdateLatch(tipCount, maximumPressure);
      processed := processed + [Sample(tipCount, maximumPressure)];
      var contacts := FillContacts(touches);
      var flags := if EffectiveButtonDown() then FRAME_BUTTON else 0;
      frame := FrameRecord(0, 0, deviceTimeUs, flags, |touches|, contacts);
      FilledFrame(touches, deviceTimeUs, flags, frame);
      latestFrame := frame;
    }

    method EncodeControl(kind: MessageType, number: U32, clock: U64) returns (message: seq<Byte>)
      requires kind != Frame
      ensures message == ControlBytes(kind, number, clock)
    {
      hide MessageBytes, Zeros, Encodable;
      var frame: TPFrame := ZERO_FRAME.(sequence := number, captureTimeUs := clock);
      message := EncodeFrame(TypeCode(kind), frame);
      ControlEncodes(kind, frame);
    }

    /** A control message: numbered, encoded and sent, or partly sent. */
    method SendControl(kind: MessageType, next: Phase, fate: Fate)
      requires Valid() && kind != Frame
      modifies this`sequence, this`wire, this`inFlight, this`partial, this`phase
      ensures Valid() && State() == A.SendControl(old(State()), kind, next, fate)
    {
      hide Window, ControlBytes, Cut, Zeros;
      ghost var s := State();
      sequence := Wrap32(sequence + 1);
      var bytes := EncodeControl(kind, sequence, fate.clock);
      if fate.ok {
        wire := wire + [bytes];
        phase := next;
        assert queue.Contents() == s.queue;
      } else {
        inFlight, partial, phase := [bytes], Cut(fate.bytes, bytes), CloseSocket;
        assert queue.Contents() == s.queue;
      }
    }

    /** The next step of the sender thread. */
    method SenderStep(fate: Fate)
      requires Valid()
      modifies this, queue, queue.items
      ensures Valid() && State() == Tick(old(State()), fate)
    {
      hide Tick, Window;
      if phase.Connect? || phase.ClearStale? || phase.SendHello? || phase.SendReset? {
        GreetStep(fate);
      } else if phase.ClearRequest? || phase.ClearSnapshot? || phase.Publish? {
        PublishStep(fate);
      } else if phase.CheckLoop? || phase.PopNext? || phase.SendNext? {
        StreamStep(fate);
      } else {
        CloseStep(fate);
      }
    }

    /** Connecting and greeting: a fresh queue, HELLO, RESET. */
    method GreetStep(fate: Fate)
      requires Valid() && (phase.Connect? || phase.ClearStale? || phase.SendHello? || phase.SendReset?)
      modifies this, queue, queue.items
      ensures Valid() && State() == Tick(old(State()), fate)
    {
      hide A.SendControl, Window, Zeros, Cut;
      match phase {
        case Connect =>
          if running && fate.ok {
            wire, inFlight, partial, phase := [], [], 0, ClearStale;
          }
        case ClearStale =>
          queue.Clear();
          phase := SendHello;
        case SendHello => SendControl(Hello, SendReset, fate);
        case SendReset => SendControl(Reset, ClearRequest, fate);
      }
    }

    /** Withdrawing the request to reconnect, forgetting the snapshot, and going public. */
    method PublishStep(fate: Fate)
      requires Valid() && (phase.ClearRequest? || phase.ClearSnapshot? || phase.Publish?)
      modifies this`reconnectRequested, this`latestFrame, this`connected, this`phase
      ensures Valid() && State() == Tick(old(State()), fate)
    {
      hide A.SendControl, Window, Zeros, Cut;
      match phase {
        case ClearRequest => reconnectRequested, phase := false, ClearSnapshot;
        case ClearSnapshot => latestFrame, phase := ZERO_FRAME, Publish;
        case Publish => connected, phase := true, CheckLoop;
      }
    }

    /** Streaming until stopped, told to reconnect or cut off. */
    method StreamStep(fate: Fate)
      requires Valid() && (phase.CheckLoop? || phase.PopNext? || phase.SendNext?)
      modifies this, queue, queue.items
      ensures Valid() && State() == Tick(old(State()), fate)
    {
      hide A.SendControl, Window, Cut, Zeros;
      match phase {
        case CheckLoop => phase := if running && !reconnectRequested then PopNext else Unpublish;
        case PopNext => PopMessage();
        case SendNext => SendMessage(fate);
      }
    }

    method CloseStep(fate: Fate)
      requires Valid() && (phase.Unpublish? || phase.Drain? || phase.CloseSocket?)
      modifies this, queue, queue.items
      ensures Valid() && State() == Tick(old(State()), fate)
    {
      hide A.SendControl, Window, Cut, Zeros;
      match phase {
        case Unpublish => connected, phase := false, Drain;
        case Drain =>
          queue.Clear();
          phase := CloseSocket;
        case CloseSocket => phase := Connect;
      }
    }

    method SendMessage(fate: Fate)
      requires Valid() && phase == SendNext
      modifies this
      ensures Valid() && State() == Tick(old(State()), fate)
    {
      hide A.SendControl, Window, Cut;
      if fate.ok {
        wire := wire + inFlight;
        inFlight, phase := [], CheckLoop;
      } else {
        partial := if inFlight == [] then 0 else Cut(fate.bytes, inFlight[0]);
        phase := Unpublish;
      }
    }

    method PopMessage()
      requires Valid() && phase == PopNext
      modifies this, queue
      ensures Valid() && State() == Tick(old(State()), Fate(true, 0, 0))
    {
      hide A.SendControl, Window;
      var message := queue.Pop();
      if message.Some? {
        inFlight, phase := [message.value], SendNext;
      } else if !running || reconnectRequested {
        phase := Unpublish;
      }
    }
  }

  lemma {:induction false} FilledFrame(touches: seq<Touch>, deviceTimeUs: U64, flags: U16, frame: TPFrame)
    requires |touches| <= MAX_CONTACTS
    requires frame == FrameRecord(0, 0, deviceTimeUs, flags, |touches|, frame.contacts)
    requires forall i :: 0 <= i < |touches| ==> frame.contacts[i] == ContactOf(touches[i])
    requires forall i :: |touches| <= i < MAX_CONTACTS ==> frame.contacts[i] == ZERO_CONTACT
    ensures frame == FrameFrom(touches, deviceTimeUs, flags)
  {
    assert frame.contacts == ContactsOf(touches) + Zeros(MAX_CONTACTS - |touches|);
  }

  lemma {:induction false} ControlEncodes(kind: MessageType, frame: TPFrame)
    requires kind != Frame && frame.contactCount == 0
    ensures Encodable(TypeCode(kind), frame, MAX_MESSAGE_SIZE) && KindOfCode(TypeCode(kind)) == Some(kind)
  {
  }
}
