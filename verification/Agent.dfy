/** The Mac sender as a state machine: what each callback and each step of the
    sender thread does to the shared agent. */
module Agent {
  import opened Words
  import opened Wire
  import opened TouchFrame
  import opened MessageQueue
  import opened PressureLatch

  /** The fields of a framework touch the agent reads. */
  datatype Touch = Touch(
    identifier: int, state: int, pressure: U32, x: U32, y: U32, velocityX: U32, velocityY: U32,
    size: U32, angle: U32, majorAxis: U32, minorAxis: U32, density: U32)

  /** The touch argument of the contact callback: a list, or a null pointer
      with a count. */
  datatype TouchList = Null(count: nat) | Touches(list: seq<Touch>)

  /** Where the sender thread stands. */
  datatype Phase =
    | Connect | ClearStale | SendHello | SendReset | ClearRequest | ClearSnapshot | Publish
    | CheckLoop | PopNext | SendNext | Unpublish | Drain | CloseSocket

  /** `wire` is what the current connection has fully sent, `inFlight` the message
      being sent or whose sending failed, `partial` how much of it went out. */
  datatype AgentState = AgentState(
    running: bool, connected: bool, reconnectRequested: bool,
    sequence: U32,
    physicalDown: bool, latch: Latch, threshold: U32,
    latest: TPFrame,
    queue: seq<seq<Byte>>,
    phase: Phase,
    wire: seq<seq<Byte>>, inFlight: seq<seq<Byte>>, partial: nat,
    processed: seq<Sample>)

  function Started(threshold: U32): AgentState {
    AgentState(true, false, false, 0, false, RELEASED, threshold,
               ZERO_FRAME, [], Connect, [], [], 0, [])
  }

  function FlagsForState(state: int): Byte {
    CONFIDENCE + (if 1 <= state <= 6 then IN_RANGE else 0) + (if state == 3 || state == 4 then TIP else 0)
  }

  predicate Touching(t: Touch) { HasBit(FlagsForState(t.state), TIP) }

  function ContactOf(t: Touch): Contact {
    Contact(Wrap32(t.identifier), Wrap8(t.state), FlagsForState(t.state), t.x, t.y, t.velocityX, t.velocityY,
            t.size, t.angle, t.majorAxis, t.minorAxis, t.density)
  }

  function ContactsOf(touches: seq<Touch>): (contacts: seq<Contact>)
    ensures |contacts| == |touches|
    ensures forall i :: 0 <= i < |touches| ==> contacts[i] == ContactOf(touches[i])
  {
    if touches == [] then []
    else ContactsOf(touches[..|touches| - 1]) + [ContactOf(touches[|touches| - 1])]
  }

  function SampleOf(touches: seq<Touch>): Sample {
    if touches == [] then Sample(0, 0)
    else
      var before, t := SampleOf(touches[..|touches| - 1]), touches[|touches| - 1];
      if !Touching(t) then before
      else Sample(before.tips + 1, if FloatGreater(t.pressure, before.maximum) then t.pressure else before.maximum)
  }

  function ButtonFlags(s: AgentState): U16 {
    if s.latch.down || s.physicalDown then FRAME_BUTTON else 0
  }

  const FRAME_CODE := 2

  /** The shared tail of both callbacks, under the frame lock: number the frame,
      encode it and queue it, or give the connection up. */
  function Enqueue(s: AgentState, frame: TPFrame, clock: U64): AgentState {
    var numbered := s.(sequence := Wrap32(s.sequence + 1));
    var stamped := frame.(sequence := numbered.sequence, captureTimeUs := clock);
    if Encodable(FRAME_CODE, stamped, MAX_MESSAGE_SIZE) && |s.queue| < QUEUE_CAPACITY
    then numbered.(queue := s.queue + [MessageBytes(MessageOf(Frame, stamped))])
    else numbered.(connected := false, reconnectRequested := true, queue := [])
  }

  /** What a callback has under the frame lock before it takes a number: the agent
      with its new snapshot and latch, the frame, and the clock it will read. */
  datatype Prepared = Prepared(agent: AgentState, frame: TPFrame, clock: U64)

  function PrepareButton(s: AgentState, clock: U64): Prepared {
    var frame := s.latest.(flags := ButtonFlags(s), deviceTimeUs := 0);
    Prepared(s.(latest := frame), frame, clock)
  }

  /** The locked half of the button callback. */
  function ButtonLocked(s: AgentState, clock: U64): AgentState {
    var p := PrepareButton(s, clock);
    Enqueue(p.agent, p.frame, p.clock)
  }

  /** What the button callback stores before it tests `connected`. */
  function NoteEdge(s: AgentState, pressed: int, released: int): AgentState {
    s.(physicalDown := if released != 0 then false else if pressed != 0 then true else s.physicalDown)
  }

  function ButtonCallback(s: AgentState, pressed: int, released: int, clock: U64): AgentState {
    var noted := NoteEdge(s, pressed, released);
    if !s.connected then noted else ButtonLocked(noted, clock)
  }

  function FrameFrom(touches: seq<Touch>, deviceTimeUs: U64, flags: U16): TPFrame
    requires |touches| <= MAX_CONTACTS
  {
    FrameRecord(0, 0, deviceTimeUs, flags, |touches|, ContactsOf(touches) + Zeros(MAX_CONTACTS - |touches|))
  }

  function PrepareContact(s: AgentState, touches: seq<Touch>, deviceTimeUs: U64, clock: U64): Prepared
    requires |touches| <= MAX_CONTACTS
  {
    var sample := SampleOf(touches);
    var latched := s.(latch := LatchStep(s.latch, sample, s.threshold), processed := s.processed + [sample]);
    var frame := FrameFrom(touches, deviceTimeUs, ButtonFlags(latched));
    Prepared(latched.(latest := frame), frame, clock)
  }

  /** The locked half of the contact callback. */
  function ContactLocked(s: AgentState, touches: seq<Touch>, deviceTimeUs: U64, clock: U64): AgentState
    requires |touches| <= MAX_CONTACTS
  {
    var p := PrepareContact(s, touches, deviceTimeUs, clock);
    Enqueue(p.agent, p.frame, p.clock)
  }

  function Refused(touches: TouchList): bool {
    match touches
    case Null(count) => count > 0
    case Touches(list) => |list| > MAX_CONTACTS
  }

  function ListOf(touches: TouchList): seq<Touch> {
    match touches case Null(_) => [] case Touches(list) => list
  }

  function ContactCallback(s: AgentState, touches: TouchList, deviceTimeUs: U64, clock: U64): AgentState {
    if !s.connected || Refused(touches) then s else ContactLocked(s, ListOf(touches), deviceTimeUs, clock)
  }

  function ControlBytes(kind: MessageType, sequence: U32, clock: U64): seq<Byte> {
    MessageBytes(MessageOf(kind, ZERO_FRAME.(sequence := sequence, captureTimeUs := clock)))
  }

  /** What the environment decides for one step of the sender thread: whether the
      connect or send succeeds, and how much of a failed send went out. */
  datatype Fate = Fate(ok: bool, bytes: nat, clock: U64)

  /** A failed send never got the whole message out. */
  function Cut(bytes: nat, message: seq<Byte>): nat {
    if bytes < |message| then bytes else if message == [] then 0 else |message| - 1
  }

  function SendControl(s: AgentState, kind: MessageType, next: Phase, fate: Fate): AgentState {
    var numbered := s.(sequence := Wrap32(s.sequence + 1));
    var bytes := ControlBytes(kind, numbered.sequence, fate.clock);
    if fate.ok then numbered.(wire := s.wire + [bytes], phase := next)
    else numbered.(inFlight := [bytes], partial := Cut(fate.bytes, bytes), phase := CloseSocket)
  }

  /** One step of the sender thread. A thread that finds the agent stopped, or
      that waits on an empty queue, stays where it is. */
  function Tick(s: AgentState, fate: Fate): AgentState {
    match s.phase
    case Connect =>
      if !s.running || !fate.ok then s
      else s.(wire := [], inFlight := [], partial := 0, phase := ClearStale)
    case ClearStale => s.(queue := [], phase := SendHello)
    case SendHello => SendControl(s, Hello, SendReset, fate)
    case SendReset => SendControl(s, Reset, ClearRequest, fate)
    case ClearRequest => s.(reconnectRequested := false, phase := ClearSnapshot)
    case ClearSnapshot => s.(latest := ZERO_FRAME, phase := Publish)
    case Publish => s.(connected := true, phase := CheckLoop)
    case CheckLoop => s.(phase := if s.running && !s.reconnectRequested then PopNext else Unpublish)
    case PopNext =>
      if s.queue != [] then s.(inFlight := [s.queue[0]], queue := s.queue[1..], phase := SendNext)
      else if s.running && !s.reconnectRequested then s
      else s.(phase := Unpublish)
    case SendNext =>
      if fate.ok then s.(wire := s.wire + s.inFlight, inFlight := [], phase := CheckLoop)
      else s.(partial := if s.inFlight == [] then 0 else Cut(fate.bytes, s.inFlight[0]), phase := Unpublish)
    case Unpublish => s.(connected := false, phase := Drain)
    case Drain => s.(queue := [], phase := CloseSocket)
    case CloseSocket => s.(phase := Connect)
  }

  /** Everything that can happen. A callback is one action, so its test of
      `connected` and its locked half are one step; a late action is the locked
      half alone, of a callback that made its test some time before. */
  datatype Action =
    | SenderStep(fate: Fate)
    | ButtonEdge(pressed: int, released: int, clock: U64)
    | ContactFrame(touches: TouchList, deviceTimeUs: U64, clock: U64)
    | LateButton(clock: U64)
    | LateContact(list: seq<Touch>, deviceTimeUs: U64, clock: U64)
    | Stop

  /** The locked half of a callback alone. A touch list is bounded before the lock
      is taken. */
  predicate Late(action: Action) {
    action.LateButton? || (action.LateContact? && |action.list| <= MAX_CONTACTS)
  }

  function Prepare(s: AgentState, late: Action): Prepared
    requires Late(late)
  {
    match late
    case LateButton(clock) => PrepareButton(s, clock)
    case LateContact(list, deviceTimeUs, clock) => PrepareContact(s, list, deviceTimeUs, clock)
  }

  function Act(s: AgentState, action: Action): AgentState {
    match action
    case SenderStep(fate) => Tick(s, fate)
    case ButtonEdge(pressed, released, clock) => ButtonCallback(s, pressed, released, clock)
    case ContactFrame(touches, deviceTimeUs, clock) => ContactCallback(s, touches, deviceTimeUs, clock)
    case LateButton(clock) => ButtonLocked(s, clock)
    case LateContact(list, deviceTimeUs, clock) =>
      if |list| <= MAX_CONTACTS then ContactLocked(s, list, deviceTimeUs, clock) else s
    case Stop => s.(running := false)
  }

  function RunFrom(s: AgentState, actions: seq<Action>): AgentState {
    if actions == [] then s
    else Act(RunFrom(s, actions[..|actions| - 1]), actions[|actions| - 1])
  }

  function RunAgent(threshold: U32, actions: seq<Action>): AgentState {
    RunFrom(Started(threshold), actions)
  }

  /** What a send has put on the socket of the current connection. */
  ghost function SocketBytes(s: AgentState): seq<Byte> {
    Concat(s.wire) + if s.inFlight != [] && s.partial <= |s.inFlight[0]| then s.inFlight[0][..s.partial] else []
  }
}
