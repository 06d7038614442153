/** The agent at the grain of its lock and its stores: a callback takes the frame
    lock and a number in one move and pushes in another, the give-up after a full
    queue is three stores, and the sender thread moves in between. */
module AgentSteps {
  import opened Words
  import opened Wire
  import opened TouchFrame
  import opened MessageQueue
  import opened PressureLatch
  import opened Agent

  /** Who holds the frame lock: nobody; a callback with a number it has not pushed;
      or one whose push was refused, before each of the three stores of the give-up.
      `stale` once a control message has been numbered since. */
  datatype Lock =
    | Free
    | Numbered(message: seq<Byte>, number: U32, stale: bool)
    | Refused(stale: bool) | Disowned(stale: bool) | Requested(stale: bool)

  datatype System = System(agent: AgentState, lock: Lock)

  /** `Whole` is any action of module Agent in one move; the others are the moves of
      a callback that made its test of `connected` some time before. Numbering and
      sending a control message is one move: the send commutes with all of these. */
  datatype Move = Whole(action: Action) | Take(late: Action) | Push | Disown | Request | Release

  function Aged(lock: Lock): Lock {
    if lock.Free? then lock else lock.(stale := true)
  }

  predicate Controls(s: AgentState) { s.phase.SendHello? || s.phase.SendReset? }

  /** While the lock is held the sender thread runs on, up to where it needs the lock
      itself; a callback only notes the button edge and waits, and its locked half
      is a later `Take`. */
  function Whenever(f: System, action: Action): System {
    match action
    case SenderStep(fate) =>
      if f.agent.phase.ClearSnapshot? && !f.lock.Free? then f
      else System(Tick(f.agent, fate), if Controls(f.agent) then Aged(f.lock) else f.lock)
    case Stop => f.(agent := Act(f.agent, action))
    case ButtonEdge(pressed, released, _) =>
      if f.lock.Free? then f.(agent := Act(f.agent, action))
      else f.(agent := NoteEdge(f.agent, pressed, released))
    case _ => if f.lock.Free? then f.(agent := Act(f.agent, action)) else f
  }

  /** Locking, building the frame, numbering and encoding it. */
  function TakeNumber(s: AgentState, late: Action): System
    requires Late(late)
  {
    var p := Prepare(s, late);
    var sequence := Wrap32(s.sequence + 1);
    System(p.agent.(sequence := sequence), Numbered(Encoding(p.frame, sequence, p.clock), sequence, false))
  }

  /** The wire form of the stamped frame, or nothing if the encoder refuses it. */
  function Encoding(frame: TPFrame, sequence: U32, clock: U64): seq<Byte> {
    var stamped := frame.(sequence := sequence, captureTimeUs := clock);
    if Encodable(FRAME_CODE, stamped, MAX_MESSAGE_SIZE) then MessageBytes(MessageOf(Frame, stamped)) else []
  }

  predicate Room(f: System) { f.lock.Numbered? && f.lock.message != [] && |f.agent.queue| < QUEUE_CAPACITY }

  predicate Enabled(f: System, move: Move) {
    match move
    case Whole(_) => true
    case Take(late) => f.lock.Free? && Late(late)
    case Push => f.lock.Numbered?
    case Disown => f.lock.Refused?
    case Request => f.lock.Disowned?
    case Release => f.lock.Requested?
  }

  function Do(f: System, move: Move): System {
    if !Enabled(f, move) then f
    else match move
      case Whole(action) => Whenever(f, action)
      case Take(late) => TakeNumber(f.agent, late)
      case Push =>
        if Room(f) then System(f.agent.(queue := f.agent.queue + [f.lock.message]), Free)
        else f.(lock := Refused(f.lock.stale))
      case Disown => System(f.agent.(connected := false), Disowned(f.lock.stale))
      case Request => System(f.agent.(reconnectRequested := true), Requested(f.lock.stale))
      case Release => System(f.agent.(queue := []), Free)
  }

  function DoAll(f: System, moves: seq<Move>): System {
    if moves == [] then f
    else Do(DoAll(f, moves[..|moves| - 1]), moves[|moves| - 1])
  }

  function Booted(threshold: U32): System { System(Started(threshold), Free) }

  /** The moves of a late callback one after another are the late action. */
  lemma {:induction false} UndisturbedCallback(s: AgentState, late: Action)
    requires Late(late)
    ensures var pushed := Do(Do(System(s, Free), Take(late)), Push);
      System(Act(s, late), Free) ==
        if pushed.lock.Free? then pushed else Do(Do(Do(pushed, Disown), Request), Release)
  {
    hide Prepare, Enqueue, Encoding, Act;
    PreparedLocked(s, late);
    PreparedKeeps(s, late);
    var p := Prepare(s, late);
    EnqueueEncoding(p.agent, p.frame, p.clock);
  }

  lemma {:induction false} EnqueueEncoding(s: AgentState, frame: TPFrame, clock: U64)
    ensures var sequence := Wrap32(s.sequence + 1);
      var message := Encoding(frame, sequence, clock);
      Enqueue(s, frame, clock) ==
        if message != [] && |s.queue| < QUEUE_CAPACITY then s.(sequence := sequence, queue := s.queue + [message])
        else s.(sequence := sequence, connected := false, reconnectRequested := true, queue := [])
  {
    hide HeaderBytes, ContactsBytes;
  }

  lemma {:induction false} PreparedLocked(s: AgentState, late: Action)
    requires Late(late)
    ensures var p := Prepare(s, late); Act(s, late) == Enqueue(p.agent, p.frame, p.clock)
  {
    hide Enqueue, LatchStep, SampleOf, FrameFrom;
  }

  lemma {:induction false} PreparedKeeps(s: AgentState, late: Action)
    requires Late(late)
    ensures var p := Prepare(s, late);
      p.agent == s.(latest := p.agent.latest, latch := p.agent.latch, processed := p.agent.processed)
  {
    hide LatchStep, SampleOf, FrameFrom;
  }

  lemma {:induction false} DoJoin(f: System, moves: seq<Move>, more: seq<Move>)
    ensures DoAll(f, moves + more) == DoAll(DoAll(f, moves), more)
  {
    hide Do;
    if more == [] {
      assert moves + more == moves;
    } else {
      var n := |more| - 1;
      DoJoin(f, moves, more[..n]);
      assert (moves + more)[..|moves| + n] == moves + more[..n];
    }
  }

  lemma {:induction false} DoOne(f: System, moves: seq<Move>, move: Move)
    ensures DoAll(f, moves + [move]) == Do(DoAll(f, moves), move)
  {
    hide Do;
    assert (moves + [move])[..|moves|] == moves;
  }

  lemma {:induction false} DoFirst(f: System, move: Move, moves: seq<Move>)
    ensures DoAll(f, [move] + moves) == DoAll(Do(f, move), moves)
  {
    hide Do;
    DoJoin(f, [move], moves);
    assert [move][..0] == [];
    assert DoAll(f, []) == f;
  }
}
