/** The sender at the grain of its lock and its stores: exactly which moves of a
    callback, begun at any time and interrupted anywhere, can put a gap on a wire. */
module HeldLock {
  import opened Words
  import opened Wire
  import opened TouchFrame
  import opened MessageQueue
  import opened Agent
  import opened AgentLaws
  import opened AgentSteps
  import opened LateCallbacks

  predicate Stale(lock: Lock) { !lock.Free? && lock.stale }

  /** A move of a callback does no harm now.
      A number may be taken at any time but between HELLO and RESET.
      A frame may be pushed unless a thread that is going to stream has cleared the
      queue for its epoch and numbered a control message since, or is just about to;
      nor where a thread of a given-up epoch may still pop.
      The give-up may end unless its own number belongs to the epoch that is about to
      stream and its request to reconnect is gone or about to be withdrawn; nor while
      a thread that believes it is connected may still pop. */
  predicate SafeMove(f: System, move: Move) {
    var s := f.agent;
    match move
    case Whole(action) => f.lock.Free? && Late(action) ==> Harmless(s)
    case Take(_) => !s.phase.SendReset?
    case Push => Room(f) ==> SafePush(s, Stale(f.lock))
    case Disown => true
    case Request => true
    case Release => SafeRelease(s, Stale(f.lock))
  }

  predicate SafePush(s: AgentState, stale: bool) {
    match s.phase
    case SendHello => !s.running
    case SendReset => !s.running
    case ClearRequest => !stale || !s.running
    case ClearSnapshot => !stale || Closing(s)
    case PopNext => s.connected
    case _ => true
  }

  predicate SafeRelease(s: AgentState, stale: bool) {
    match s.phase
    case ClearRequest => stale || !s.running
    case ClearSnapshot => stale || Closing(s)
    case PopNext => !s.connected
    case _ => true
  }

  /** The stream lacks only the number the callback holds or has lost. */
  ghost predicate Behind(s: AgentState) {
    Contiguous(Stream(s)) && EndsAt(Stream(s), Wrap32(s.sequence - 1))
  }

  ghost predicate HeldLine(s: AgentState, lock: Lock) {
    match s.phase
    case SendHello => s.queue == [] || !s.running
    case SendReset => EndsAt(s.wire, s.sequence) && (s.queue == [] || !s.running)
    case ClearRequest =>
      if Stale(lock) then EndsAt(s.wire, s.sequence) && (s.queue == [] || !s.running) else Behind(s) || !s.running
    case ClearSnapshot =>
      if Stale(lock) then EndsAt(s.wire, s.sequence) && (s.queue == [] || Closing(s)) else Behind(s) || Closing(s)
    case Publish => HeldStreaming(s, lock) && (Behind(s) || Closing(s))
    case CheckLoop => HeldStreaming(s, lock) && ((Behind(s) && (lock.Numbered? ==> s.connected)) || Closing(s))
    case SendNext =>
      && HeldStreaming(s, lock) && |s.inFlight| == 1
      && ((Behind(s) && (lock.Numbered? ==> s.connected)) || Closing(s))
    case PopNext =>
      && HeldStreaming(s, lock)
      && if lock.Numbered? && !s.connected
         then s.queue == [] && Contiguous(s.wire) && !EndsAt(s.wire, Wrap32(s.sequence - 1))
         else Behind(s)
    case _ => true
  }

  /** A lock held past the greeting was taken in this epoch, and its request to
      reconnect stands. */
  predicate HeldStreaming(s: AgentState, lock: Lock) {
    !Stale(lock) && (lock.Requested? ==> s.reconnectRequested)
  }

  ghost predicate HeldMessage(s: AgentState, lock: Lock) {
    lock.Numbered? ==>
      && lock.message != [] && Spells(lock.message, Frame, lock.number)
      && (!lock.stale ==> lock.number == s.sequence)
  }

  /** What holds after any moves that were safe. */
  ghost predicate LockInv(f: System) {
    && Shape(f.agent) && HeldMessage(f.agent, f.lock)
    && if f.lock.Free? then LineInv(f.agent) else HeldLine(f.agent, f.lock)
  }

  lemma {:induction false} FreeInv(f: System)
    requires f.lock.Free?
    ensures LockInv(f) <==> WireInv(f.agent)
  {
    hide Shape, LineInv;
  }

  lemma {:induction false} TakeHolds(f: System, late: Action)
    requires LockInv(f) && Enabled(f, Take(late)) && !f.agent.phase.SendReset?
    ensures LockInv(Do(f, Take(late)))
  {
    hide Contiguous, EndsAt, Spells, Prepare, MessageBytes, Encodable;
    var s := f.agent;
    var p := Prepare(s, late);
    PreparedKeeps(s, late);
    PreparedFrame(s, late);
    var sequence := Wrap32(s.sequence + 1);
    WrapBack(s.sequence, sequence);
    var stamped := p.frame.(sequence := sequence, captureTimeUs := p.clock);
    StampedEncodes(stamped);
    var later := Do(f, Take(late)).agent;
    assert Stream(later) == Stream(s);
  }

  lemma {:induction false} PreparedFrame(s: AgentState, late: Action)
    requires Late(late) && s.latest.contactCount <= MAX_CONTACTS
    ensures var p := Prepare(s, late);
      && p.frame.contactCount <= MAX_CONTACTS && p.frame.flags <= FRAME_BUTTON && p.agent.latest == p.frame
  {
    hide Zeros, ContactsOf;
  }

  lemma {:induction false} StampedEncodes(frame: TPFrame)
    requires frame.contactCount <= MAX_CONTACTS && frame.flags <= FRAME_BUTTON
    ensures Encodable(FRAME_CODE, frame, MAX_MESSAGE_SIZE)
    ensures MessageBytes(MessageOf(Frame, frame)) != []
    ensures Spells(MessageBytes(MessageOf(Frame, frame)), Frame, frame.sequence)
  {
    hide Spells, NumberOf, HeaderBytes, ContactsBytes;
    EncodedSpells(Frame, frame);
  }

  lemma {:induction false} BehindPushed(s: AgentState, message: seq<Byte>)
    requires Behind(s) && |s.wire| >= 2 && Spells(message, Frame, s.sequence)
    ensures InLine(s.(queue := s.queue + [message]))
  {
    hide Contiguous, EndsAt, Spells;
    ContiguousAppend(Stream(s), message, s.sequence);
    assert Stream(s.(queue := s.queue + [message])) == Stream(s) + [message];
  }

  /** Clearing the queue leaves the wire behind the numbers allocated. */
  lemma {:induction false} BehindCleared(s: AgentState)
    requires Behind(s) && s.inFlight == [] && |s.wire| >= 2 && |s.queue| <= QUEUE_CAPACITY
    ensures Contiguous(s.wire) && !EndsAt(s.wire, s.sequence)
  {
    hide Spells, NumberOf;
    var stream, n := Stream(s), |s.wire|;
    assert stream[..n] == s.wire;
    ContiguousPrefix(stream, n);
    Apart(stream, n - 1, |stream| - 1);
  }

  lemma {:induction false} PushHolds(f: System)
    requires LockInv(f) && Enabled(f, Push) && SafeMove(f, Push)
    ensures LockInv(Do(f, Push))
  {
    hide Contiguous, EndsAt, Spells;
    var s := f.agent;
    if Room(f) && Behind(s) && |s.wire| >= 2 && !Stale(f.lock) {
      BehindPushed(s, f.lock.message);
    }
  }

  lemma {:induction false} GiveUpHolds(f: System, move: Move)
    requires LockInv(f) && Enabled(f, move) && (move.Disown? || move.Request?)
    ensures LockInv(Do(f, move))
  {
    hide Contiguous, EndsAt, Spells;
    assert Stream(Do(f, move).agent) == Stream(f.agent);
  }

  lemma {:induction false} ReleaseHolds(f: System)
    requires LockInv(f) && Enabled(f, Release) && SafeMove(f, Release)
    ensures LockInv(Do(f, Release))
  {
    hide Contiguous, EndsAt, Spells;
    var s := f.agent;
    assert s.inFlight == [] ==> s.wire + s.inFlight == s.wire && s.wire + s.inFlight + [] == s.wire;
    if Behind(s) && s.inFlight == [] && |s.wire| >= 2 {
      BehindCleared(s);
    }
  }

  /** The sender thread under a held lock. */
  lemma {:induction false} TickHeld(f: System, fate: Fate)
    requires LockInv(f) && !f.lock.Free?
    ensures LockInv(Do(f, Whole(SenderStep(fate))))
  {
    hide LockInv, Tick;
    match f.agent.phase {
      case SendHello => HelloHeld(f, fate);
      case SendReset => ResetHeld(f, fate);
      case PopNext => PopHeld(f, fate);
      case SendNext => SendHeld(f, fate);
      case ClearSnapshot =>
      case ClearRequest => LineHeld(f, fate);
      case Publish => LineHeld(f, fate);
      case CheckLoop => LineHeld(f, fate);
      case ClearStale => LineHeld(f, fate);
      case _ => EndHeld(f, fate);
    }
  }

  lemma {:induction false} HelloHeld(f: System, fate: Fate)
    requires LockInv(f) && !f.lock.Free? && f.agent.phase.SendHello?
    ensures LockInv(Do(f, Whole(SenderStep(fate))))
  {
    hide Contiguous, ControlBytes, Spells, NumberOf, Cut;
    ControlGoesOut(f.agent, Hello, fate);
  }

  lemma {:induction false} ResetHeld(f: System, fate: Fate)
    requires LockInv(f) && !f.lock.Free? && f.agent.phase.SendReset?
    ensures LockInv(Do(f, Whole(SenderStep(fate))))
  {
    hide Contiguous, ControlBytes, Spells, NumberOf, Cut;
    ControlGoesOut(f.agent, Reset, fate);
  }

  lemma {:induction false} ControlGoesOut(s: AgentState, kind: MessageType, fate: Fate)
    requires Contiguous(s.wire + s.inFlight) && s.inFlight == [] && kind != Frame && kind == EpochKind(|s.wire|)
    requires s.wire == [] || EndsAt(s.wire, s.sequence)
    ensures var sequence := Wrap32(s.sequence + 1);
      var sent := s.wire + [ControlBytes(kind, sequence, fate.clock)];
      && Contiguous(sent) && EndsAt(sent, sequence) && Contiguous(sent + [])
  {
    hide Contiguous, ControlBytes, Spells, NumberOf;
    var sequence := Wrap32(s.sequence + 1);
    var bytes := ControlBytes(kind, sequence, fate.clock);
    ControlSpells(kind, sequence, fate.clock);
    assert s.wire + s.inFlight == s.wire;
    ContiguousAppend(s.wire, bytes, sequence);
    WrapBack(s.sequence, sequence);
    assert s.wire + [bytes] + [] == s.wire + [bytes];
  }

  lemma {:induction false} PopHeld(f: System, fate: Fate)
    requires LockInv(f) && !f.lock.Free? && f.agent.phase.PopNext?
    ensures LockInv(Do(f, Whole(SenderStep(fate))))
  {
    hide Contiguous, EndsAt, Spells, SendControl, Cut;
    var s := f.agent;
    if s.queue != [] {
      assert s.wire + [] + s.queue == s.wire + [s.queue[0]] + s.queue[1..];
      var n := |s.wire| + 1;
      assert Stream(s)[..n] == s.wire + [s.queue[0]];
      ContiguousPrefix(Stream(s), n);
    }
  }

  lemma {:induction false} SendHeld(f: System, fate: Fate)
    requires LockInv(f) && !f.lock.Free? && f.agent.phase.SendNext?
    ensures LockInv(Do(f, Whole(SenderStep(fate))))
  {
    hide Contiguous, EndsAt, Spells, SendControl, Cut;
    var s := f.agent;
    assert (s.wire + s.inFlight) + [] + s.queue == s.wire + s.inFlight + s.queue;
    assert (s.wire + s.inFlight) + [] == s.wire + s.inFlight;
  }

  lemma {:induction false} LineHeld(f: System, fate: Fate)
    requires LockInv(f) && !f.lock.Free?
    requires f.agent.phase.ClearStale? || f.agent.phase.ClearRequest? || f.agent.phase.Publish?
      || f.agent.phase.CheckLoop?
    ensures LockInv(Do(f, Whole(SenderStep(fate))))
  {
    hide Contiguous, EndsAt, Spells, SendControl, Cut;
  }

  lemma {:induction false} EndHeld(f: System, fate: Fate)
    requires LockInv(f) && !f.lock.Free?
    requires f.agent.phase.Connect? || f.agent.phase.Unpublish? || f.agent.phase.Drain? || f.agent.phase.CloseSocket?
    ensures LockInv(Do(f, Whole(SenderStep(fate))))
  {
    hide Contiguous, EndsAt, Spells, SendControl, Cut;
    ContiguousNone();
    var nothing: seq<seq<Byte>> := [];
    assert nothing + [] == [];
  }

  lemma {:induction false} WholeHolds(f: System, action: Action)
    requires LockInv(f) && SafeMove(f, Whole(action))
    ensures LockInv(Do(f, Whole(action)))
  {
    hide LockInv, WireInv, Tick, ContactLocked, ButtonLocked;
    if f.lock.Free? {
      FreeInv(f);
      FreeInv(Do(f, Whole(action)));
      if AnyLate(action) && !Late(action) {
        assert Act(f.agent, action) == f.agent;
      } else {
        ActWire(f.agent, action);
      }
    } else {
      match action {
        case SenderStep(fate) => TickHeld(f, fate);
        case Stop => StopHeld(f);
        case ButtonEdge(pressed, released, _) => EdgeHeld(f, pressed, released);
        case _ =>
      }
    }
  }

  lemma {:induction false} StopHeld(f: System)
    requires LockInv(f) && !f.lock.Free?
    ensures LockInv(f.(agent := f.agent.(running := false)))
  {
    hide Contiguous, EndsAt, Spells;
    assert Stream(f.agent.(running := false)) == Stream(f.agent);
  }

  lemma {:induction false} EdgeHeld(f: System, pressed: int, released: int)
    requires LockInv(f) && !f.lock.Free?
    ensures LockInv(f.(agent := NoteEdge(f.agent, pressed, released)))
  {
    hide Contiguous, EndsAt, Spells;
    assert Stream(NoteEdge(f.agent, pressed, released)) == Stream(f.agent);
  }

  lemma {:induction false} MoveHolds(f: System, move: Move)
    requires LockInv(f) && SafeMove(f, move)
    ensures LockInv(Do(f, move))
  {
    hide LockInv, SafeMove, Do;
    if !Enabled(f, move) {
      NotEnabled(f, move);
    } else {
      match move {
        case Whole(action) => WholeHolds(f, action);
        case Take(late) =>
          TakeSafe(f, late);
          TakeHolds(f, late);
        case Push => PushHolds(f);
        case Disown => GiveUpHolds(f, move);
        case Request => GiveUpHolds(f, move);
        case Release => ReleaseHolds(f);
      }
    }
  }

  lemma {:induction false} NotEnabled(f: System, move: Move)
    requires !Enabled(f, move)
    ensures Do(f, move) == f
  {
  }

  lemma {:induction false} TakeSafe(f: System, late: Action)
    ensures SafeMove(f, Take(late)) <==> !f.agent.phase.SendReset?
  {
  }

  ghost predicate SafeRun(f: System, moves: seq<Move>) {
    forall k :: 0 <= k < |moves| ==> SafeMove(DoAll(f, moves[..k]), moves[k])
  }

  /** As long as every move of a callback comes at a safe moment, however callbacks and
      the sender thread interleave, no connection ever carries a gap. */
  lemma {:induction false} SafeKept(f: System, moves: seq<Move>)
    requires LockInv(f) && SafeRun(f, moves)
    ensures LockInv(DoAll(f, moves))
  {
    hide LockInv, SafeMove, Do;
    if moves != [] {
      var n := |moves| - 1;
      assert forall k :: 0 <= k < n ==> moves[..n][..k] == moves[..k];
      SafeKept(f, moves[..n]);
      MoveHolds(DoAll(f, moves[..n]), moves[n]);
    }
  }

  lemma {:induction false} LockRuns(threshold: U32, moves: seq<Move>)
    requires SafeRun(Booted(threshold), moves)
    ensures var f := DoAll(Booted(threshold), moves);
      LockInv(f) && Contiguous(f.agent.wire + f.agent.inFlight) && Contiguous(f.agent.wire)
  {
    hide LockInv, WireInv, SafeRun, DoAll;
    StartWire(threshold);
    FreeInv(Booted(threshold));
    SafeKept(Booted(threshold), moves);
    LockWire(DoAll(Booted(threshold), moves));
  }

  lemma {:induction false} LockWire(f: System)
    requires LockInv(f)
    ensures Contiguous(f.agent.wire + f.agent.inFlight) && Contiguous(f.agent.wire)
  {
    hide Contiguous;
    assert (f.agent.wire + f.agent.inFlight)[..|f.agent.wire|] == f.agent.wire;
    ContiguousPrefix(f.agent.wire + f.agent.inFlight, |f.agent.wire|);
  }

  /** From here on no callback is late: the holder, if there is one, does not move,
      and every other callback is one move. */
  predicate Calm(moves: seq<Move>) {
    forall k :: 0 <= k < |moves| ==> moves[k].Whole? && Atomic(moves[k].action)
  }

  ghost predicate StaysCalm(f: System) {
    forall moves :: Calm(moves) ==> Contiguous(DoAll(f, moves).agent.wire)
  }

  /** A move of a callback keeps every later wire contiguous exactly when it comes at a
      safe moment. */
  lemma {:induction false} LockExactly(f: System, move: Move)
    requires LockInv(f) && Enabled(f, move) && (move.Whole? ==> Late(move.action))
    ensures SafeMove(f, move) <==> StaysCalm(Do(f, move))
  {
    hide LockInv, SafeMove, Do, DoAll, Contiguous;
    if SafeMove(f, move) {
      MoveHolds(f, move);
      forall moves | Calm(moves)
        ensures Contiguous(DoAll(Do(f, move), moves).agent.wire)
      {
        CalmSafe(Do(f, move), moves);
        SafeKept(Do(f, move), moves);
        LockWire(DoAll(Do(f, move), moves));
      }
    } else {
      MoveBreaks(f, move);
    }
  }

  lemma {:induction false} CalmSafe(f: System, moves: seq<Move>)
    requires Calm(moves)
    ensures SafeRun(f, moves)
  {
    hide DoAll, Harmless;
  }

  function Wholes(actions: seq<Action>): (moves: seq<Move>)
    ensures |moves| == |actions| && forall k :: 0 <= k < |actions| ==> moves[k] == Whole(actions[k])
  {
    if actions == [] then []
    else Wholes(actions[..|actions| - 1]) + [Whole(actions[|actions| - 1])]
  }

  /** Every run whose late callbacks are not interrupted and come at harmless moments is
      a safe run; so is every run with atomic callbacks. */
  lemma {:induction false} AtomicRun(threshold: U32, actions: seq<Action>)
    requires HarmlessRun(Started(threshold), actions) || AllAtomic(actions)
    ensures SafeRun(Booted(threshold), Wholes(actions))
    ensures DoAll(Booted(threshold), Wholes(actions)) == System(RunAgent(threshold, actions), Free)
  {
    hide DoAll, RunFrom, Harmless;
    WholeRun(Started(threshold), actions);
    forall k | 0 <= k < |actions|
      ensures SafeMove(DoAll(Booted(threshold), Wholes(actions)[..k]), Whole(actions[k]))
    {
      WholeRun(Started(threshold), actions[..k]);
      WholesPrefix(actions, k);
    }
  }

  lemma {:induction false} WholesPrefix(actions: seq<Action>, k: nat)
    requires k <= |actions|
    ensures Wholes(actions)[..k] == Wholes(actions[..k])
  {
  }

  /** With the lock free, whole actions are the runs of the coarser agent. */
  lemma {:induction false} WholeRun(s: AgentState, actions: seq<Action>)
    ensures DoAll(System(s, Free), Wholes(actions)) == System(RunFrom(s, actions), Free)
  {
    hide Act, Tick;
    if actions != [] {
      var n := |actions| - 1;
      WholeRun(s, actions[..n]);
      assert Wholes(actions)[..n] == Wholes(actions[..n]);
      WholeAct(RunFrom(s, actions[..n]), actions[n]);
    }
  }

  lemma {:induction false} WholeAct(s: AgentState, action: Action)
    ensures Do(System(s, Free), Whole(action)) == System(Act(s, action), Free)
  {
    hide Tick, ContactLocked, ButtonLocked;
  }

  lemma {:induction false} CalmFree(f: System)
    requires StaysCalm(f) && f.lock.Free?
    ensures StaysContiguous(f.agent)
  {
    hide DoAll, RunFrom, Contiguous, Atomic;
    forall actions | AllAtomic(actions)
      ensures Contiguous(RunFrom(f.agent, actions).wire)
    {
      WholeRun(f.agent, actions);
      assert Calm(Wholes(actions));
    }
  }

  /** After each unsafe move the sender thread alone goes on to break the wire, or with
      one button edge. */
  lemma {:induction false} MoveBreaks(f: System, move: Move)
    requires LockInv(f) && Enabled(f, move) && (move.Whole? ==> Late(move.action)) && !SafeMove(f, move)
    ensures !StaysCalm(Do(f, move))
  {
    hide LockInv, WireInv, Contiguous, StaysCalm, StaysContiguous, SafePush, SafeRelease, Harmless;
    var later := Do(f, move);
    match move {
      case Whole(late) =>
        FreeInv(f);
        LateBreaks(f.agent, late);
        WholeAct(f.agent, late);
        if StaysCalm(later) {
          CalmFree(later);
        }
      case Take(late) => TakeBreaks(f, late);
      case Push =>
        PushBreaks(f);
        if StaysCalm(later) {
          CalmFree(later);
        }
      case Release =>
        ReleaseBreaks(f);
        if StaysCalm(later) {
          CalmFree(later);
        }
    }
  }

  lemma {:induction false} TakeBreaks(f: System, late: Action)
    requires LockInv(f) && Enabled(f, Take(late)) && f.agent.phase.SendReset?
    ensures !StaysCalm(Do(f, Take(late)))
  {
    hide Contiguous, Prepare, Tick, LineInv, DoAll;
    var later := Do(f, Take(late));
    PreparedKeeps(f.agent, late);
    FreeInv(f);
    ResetAfterGap(f.agent, later.agent, OK);
    var step := Whole(SenderStep(OK));
    NoMoves(later);
    DoOne(later, [], step);
    assert Calm([step]) && DoAll(later, [step]).agent == Tick(later.agent, OK);
  }

  lemma {:induction false} NoMoves(f: System)
    ensures DoAll(f, []) == f && forall move: Move :: [] + [move] == [move]
  {
  }

  lemma {:induction false} PushBreaks(f: System)
    requires LockInv(f) && Room(f) && !SafePush(f.agent, Stale(f.lock))
    ensures !StaysContiguous(Do(f, Push).agent)
  {
    hide Contiguous, StaysContiguous, EndsAt, Spells;
    var s, later := f.agent, Do(f, Push).agent;
    match s.phase {
      case SendHello => GapAtHello(later);
      case SendReset => GapBeforeReset(later);
      case PopNext =>
        WrapBack(Wrap32(s.sequence - 1), s.sequence);
        GapAtPop(later, Wrap32(s.sequence - 1));
      case ClearRequest =>
        OlderBehind(s, f.lock.message);
        GapGreeted(later);
      case ClearSnapshot =>
        OlderBehind(s, f.lock.message);
        GapGreeted(later);
    }
  }

  lemma {:induction false} ReleaseBreaks(f: System)
    requires LockInv(f) && f.lock.Requested? && !SafeRelease(f.agent, Stale(f.lock))
    ensures !StaysContiguous(Do(f, Release).agent)
  {
    hide Contiguous, StaysContiguous, EndsAt, Spells;
    var s, later := f.agent, Do(f, Release).agent;
    BehindCleared(s);
    assert later.wire + [] + [] == later.wire;
    match s.phase {
      case PopNext => GapAtEdge(later);
      case ClearRequest => GapGreeted(later);
      case ClearSnapshot => GapGreeted(later);
    }
  }

  lemma {:induction false} GapGreeted(s: AgentState)
    requires s.running && s.inFlight == [] && |s.queue| < QUEUE_CAPACITY && |s.wire| >= 2 && !InLine(s)
    requires s.phase.ClearRequest? || (s.phase.ClearSnapshot? && !s.reconnectRequested)
    ensures !StaysContiguous(s)
  {
    hide InLine, StaysContiguous;
    if StaysContiguous(s) {
      GreetedInLine(s);
    }
  }

  lemma {:induction false} OlderBehind(s: AgentState, message: seq<Byte>)
    requires s.wire != [] && s.inFlight == [] && s.queue == [] && EndsAt(s.wire, s.sequence)
    ensures !InLine(s.(queue := s.queue + [message]))
  {
    hide Contiguous, EndsAt;
    OlderFrame(s.wire, message, s.sequence);
    assert s.wire + [] + ([] + [message]) == s.wire + [message];
  }

  /** A thread that believes it is connected sends the next button edge. */
  lemma {:induction false} GapAtEdge(s: AgentState)
    requires s.phase.PopNext? && s.connected && s.queue == [] && |s.wire| >= 2 && !EndsAt(s.wire, s.sequence)
    requires s.latest.contactCount <= MAX_CONTACTS
    ensures !StaysContiguous(s)
  {
    hide Contiguous, StaysContiguous, EndsAt, Spells, Enqueue;
    var edge := ButtonEdge(0, 0, 0);
    var p := PrepareButton(s, 0);
    EnqueueSplits(p.agent, p.frame, 0);
    GapAtPop(Act(s, edge), s.sequence);
    if StaysContiguous(s) {
      StaysNext(s, edge);
    }
  }

  lemma {:induction false} SafeJoin(f: System, moves: seq<Move>, more: seq<Move>)
    requires SafeRun(f, moves) && SafeRun(DoAll(f, moves), more)
    ensures SafeRun(f, moves + more)
  {
    hide Do, SafeMove;
    var all := moves + more;
    forall k | 0 <= k < |all|
      ensures SafeMove(DoAll(f, all[..k]), all[k])
    {
      if k < |moves| {
        assert all[..k] == moves[..k];
      } else {
        assert all[..k] == moves + more[..k - |moves|];
        DoJoin(f, moves, more[..k - |moves|]);
        assert all[k] == more[k - |moves|];
      }
    }
  }

  /** An epoch that connects and is about to send its first frame. */
  function Connected(): seq<Action> { Steps(7) + [ButtonEdge(1, 0, 0)] + Steps(2) }

  /** The send fails, and the thread goes on up to the HELLO, and past the RESET. */
  function Overtaking(): seq<Action> { [SenderStep(CUT)] + Steps(8) }

  function Interrupted(late: Action): seq<Move> {
    Wholes(Connected()) + [Take(late)] + Wholes(Overtaking())
  }

  /** A race from the start of the agent with a callback that tests `connected`, locks
      and takes number 4 in one connected moment, and is then interrupted. The send in
      progress fails and the thread reconnects up to where it needs the lock. The frame
      is pushed, and the wire reads HELLO 5, RESET 6, FRAME 4. Every move before the
      push is safe, and a whole late frame in place of the push would be harmless. */
  lemma {:induction false} SplitRace(threshold: U32, late: Action)
    requires Late(late)
    ensures var f := DoAll(Booted(threshold), Wholes(Connected()));
      f.lock.Free? && f.agent.connected && f.agent.phase.SendNext? && f.agent.sequence == 3
    ensures var f := DoAll(Booted(threshold), Interrupted(late));
      && SafeRun(Booted(threshold), Interrupted(late))
      && Enabled(f, Push) && Harmless(f.agent) && !SafeMove(f, Push)
    ensures var wire := DoAll(Booted(threshold), Interrupted(late) + [Push] + Wholes(Steps(5))).agent.wire;
      && |wire| == 3 && NumberOf(wire[0]) == 5 && NumberOf(wire[1]) == 6 && NumberOf(wire[2]) == 4
      && !Contiguous(wire)
  {
    hide Contiguous, DoAll, RunFrom, SafeRun, SafeMove, Harmless, NumberOf, Spells, Connected, Overtaking, Steps, Do,
      Enabled, ControlBytes;
    var boot := Booted(threshold);
    var up := AboutToSend(threshold);
    WholeRun(Started(threshold), Connected());
    var taken := TakenInFlight(up, late);
    DoOne(boot, Wholes(Connected()), Take(late));
    DoJoin(boot, Wholes(Connected()) + [Take(late)], Wholes(Overtaking()));
    var f := Overtaken(taken);
    UnsafeThere(f);
    DoOne(boot, Interrupted(late), Push);
    DoJoin(boot, Interrupted(late) + [Push], Wholes(Steps(5)));
    PushedLate(f);
    InterruptedSafe(threshold, late, up);
  }

  lemma {:induction false} UnsafeThere(f: System)
    requires f.lock.Numbered? && f.lock.stale && f.lock.message != []
    requires f.agent.phase.ClearSnapshot? && f.agent.running && !f.agent.reconnectRequested && f.agent.queue == []
    ensures Enabled(f, Push) && Harmless(f.agent) && !SafeMove(f, Push)
  {
  }

  lemma {:induction false} InterruptedSafe(threshold: U32, late: Action, up: AgentState)
    requires Late(late) && up.phase.SendNext?
    requires DoAll(Booted(threshold), Wholes(Connected())) == System(up, Free)
    ensures SafeRun(Booted(threshold), Interrupted(late))
  {
    hide DoAll, Do, Steps;
    var boot := Booted(threshold);
    CalmSafe(boot, Wholes(Connected()));
    NoMoves(System(up, Free));
    assert SafeRun(System(up, Free), [Take(late)]) by { assert [Take(late)][..0] == []; }
    SafeJoin(boot, Wholes(Connected()), [Take(late)]);
    CalmSafe(DoAll(boot, Wholes(Connected()) + [Take(late)]), Wholes(Overtaking()));
    SafeJoin(boot, Wholes(Connected()) + [Take(late)], Wholes(Overtaking()));
  }

  lemma {:induction false} AboutToSend(threshold: U32) returns (up: AgentState)
    ensures up == RunAgent(threshold, Connected())
    ensures up.phase.SendNext? && up.connected && up.running && !up.reconnectRequested && up.sequence == 3
    ensures up.queue == [] && up.latest.contactCount == 0 && up.latest.flags == 1
  {
    hide ControlBytes, Zeros, Steps, Enqueue, Ticks, RunFrom, Spells;
    var first := FirstEpoch(threshold);
    var edge := ButtonEdge(1, 0, 0);
    RunAction(Started(threshold), Steps(7), edge);
    var pressed := Act(first, edge);
    var frame := ZERO_FRAME.(flags := 1);
    EnqueueSplits(first.(physicalDown := true, latest := frame), frame, 0);
    RunJoin(Started(threshold), Steps(7) + [edge], Steps(2));
    RunSteps(pressed, 2);
    up := TwoSteps(pressed);
  }

  lemma {:induction false} TakenInFlight(up: AgentState, late: Action) returns (taken: System)
    requires Late(late) && up.latest.contactCount == 0 && up.sequence == 3
    ensures taken == Do(System(up, Free), Take(late))
    ensures taken.lock.Numbered? && taken.lock.message != [] && Spells(taken.lock.message, Frame, 4)
    ensures taken.agent.sequence == 4 && taken.agent.phase == up.phase && taken.agent.running == up.running
    ensures taken.agent.reconnectRequested == up.reconnectRequested
  {
    hide Prepare, MessageBytes, Spells, Encodable;
    PreparedKeeps(up, late);
    PreparedFrame(up, late);
    var p := Prepare(up, late);
    StampedEncodes(p.frame.(sequence := 4, captureTimeUs := p.clock));
    taken := Do(System(up, Free), Take(late));
  }

  lemma {:induction false} HeldTick(f: System, fate: Fate)
    requires !f.lock.Free? && !f.agent.phase.ClearSnapshot?
    ensures Do(f, Whole(SenderStep(fate)))
      == System(Tick(f.agent, fate), if Controls(f.agent) then Aged(f.lock) else f.lock)
  {
    hide Tick;
  }

  lemma {:induction false} WholesFirst(action: Action, actions: seq<Action>)
    ensures Wholes([action] + actions) == [Whole(action)] + Wholes(actions)
  {
  }

  lemma {:induction false} Overtaken(taken: System) returns (f: System)
    requires taken.lock.Numbered? && taken.agent.phase.SendNext? && taken.agent.running
    requires taken.agent.sequence == 4
    ensures f == DoAll(taken, Wholes(Overtaking()))
    ensures f.lock.Numbered? && f.lock.stale
    ensures f.lock.message == taken.lock.message && f.lock.number == taken.lock.number
    ensures f.agent.phase.ClearSnapshot? && f.agent.running && !f.agent.reconnectRequested && f.agent.sequence == 6
    ensures f.agent.wire == [ControlBytes(Hello, 5, 0), ControlBytes(Reset, 6, 0)]
    ensures f.agent.inFlight == [] && f.agent.queue == []
  {
    hide ControlBytes, Cut, Ticks, Do, DoAll, Steps;
    WholesFirst(SenderStep(CUT), Steps(8));
    DoFirst(taken, Whole(SenderStep(CUT)), Wholes(Steps(8)));
    HeldTick(taken, CUT);
    var cut := Do(taken, Whole(SenderStep(CUT)));
    f := EightHeld(cut);
  }

  lemma {:induction false} ClosingTicks(s: AgentState)
    requires s.phase.Unpublish?
    ensures Ticks(s, 0) == s && Ticks(s, 1).phase.Drain? && Ticks(s, 2).phase.CloseSocket?
    ensures Ticks(s, 3) == s.(connected := false, queue := [], phase := Connect)
  {
    hide SendControl, Cut, Ticks;
    NoTicks(s);
    TicksThree(s);
  }

  lemma {:induction false} HelloTicks(s: AgentState)
    requires s.phase.Connect? && s.running && s.sequence == 4
    ensures Ticks(s, 1).phase.ClearStale? && Ticks(s, 2).phase.SendHello?
    ensures Ticks(s, 3) == s.(wire := [ControlBytes(Hello, 5, 0)], inFlight := [], partial := 0, queue := [],
                              sequence := 5, phase := SendReset)
  {
    hide ControlBytes, Cut, Ticks;
    TicksThree(s);
    ThreeToHello(s);
  }

  lemma {:induction false} ResetTicks(s: AgentState)
    requires s.phase.SendReset? && s.sequence == 5
    ensures Ticks(s, 1).phase.ClearRequest?
    ensures Ticks(s, 2) == s.(wire := s.wire + [ControlBytes(Reset, 6, 0)], sequence := 6,
                              reconnectRequested := false, phase := ClearSnapshot)
  {
    hide ControlBytes, Cut, Ticks;
    TicksThree(s);
  }

  lemma {:induction false} EightTicks(s: AgentState)
    requires s.phase.Unpublish? && s.running && s.sequence == 4
    ensures forall k: nat :: k < 8 ==> !Ticks(s, k).phase.ClearSnapshot?
    ensures Controls(Ticks(s, 5))
    ensures var later := Ticks(s, 8);
      && later.phase.ClearSnapshot? && later.running && !later.reconnectRequested && later.sequence == 6
      && later.wire == [ControlBytes(Hello, 5, 0), ControlBytes(Reset, 6, 0)]
      && later.inFlight == [] && later.queue == []
  {
    hide ControlBytes, Ticks, Tick;
    var closed := Ticks(s, 3);
    var greeting := Ticks(closed, 3);
    ClosingTicks(s);
    TicksJoin(s, 3, 1);
    TicksJoin(s, 3, 2);
    TicksJoin(s, 3, 3);
    HelloTicks(closed);
    TicksJoin(s, 6, 1);
    TicksJoin(s, 6, 2);
    ResetTicks(greeting);
    forall k: nat | k < 8
      ensures !Ticks(s, k).phase.ClearSnapshot?
    {
      assert k == 0 || k == 1 || k == 2 || k == 3 || k == 4 || k == 5 || k == 6 || k == 7;
    }
  }

  lemma {:induction false} NoTicks(s: AgentState)
    ensures Ticks(s, 0) == s
  {
  }

  lemma {:induction false} LastStep(s: AgentState, n: nat)
    requires n > 0
    ensures Ticks(s, n) == Tick(Ticks(s, n - 1), OK)
    ensures Wholes(Steps(n)) == Wholes(Steps(n - 1)) + [Whole(SenderStep(OK))]
  {
    hide Tick;
    assert Steps(n)[..n - 1] == Steps(n - 1);
  }

  /** The sender thread's own steps under a held lock. */
  lemma {:induction false} HeldSteps(f: System, n: nat)
    requires !f.lock.Free? && forall k: nat :: k < n ==> !Ticks(f.agent, k).phase.ClearSnapshot?
    ensures var later := DoAll(f, Wholes(Steps(n)));
      && later.agent == Ticks(f.agent, n)
      && (later.lock == f.lock || later.lock == Aged(f.lock))
      && ((exists k: nat :: k < n && Controls(Ticks(f.agent, k))) ==> later.lock == Aged(f.lock))
  {
    hide Tick, Ticks, Do, DoAll, Controls, Steps, Wholes;
    if n == 0 {
      NoTicks(f.agent);
      NoSteps(f);
    } else {
      HeldSteps(f, n - 1);
      LastStep(f.agent, n);
      DoOne(f, Wholes(Steps(n - 1)), Whole(SenderStep(OK)));
      HeldTick(DoAll(f, Wholes(Steps(n - 1))), OK);
    }
  }

  lemma {:induction false} NoSteps(f: System)
    ensures DoAll(f, Wholes(Steps(0))) == f
  {
  }

  lemma {:induction false} EightHeld(cut: System) returns (f: System)
    requires cut.lock.Numbered? && cut.agent.phase.Unpublish? && cut.agent.running && cut.agent.sequence == 4
    ensures f == DoAll(cut, Wholes(Steps(8))) && f.lock == Aged(cut.lock)
    ensures f.agent.phase.ClearSnapshot? && f.agent.running && !f.agent.reconnectRequested && f.agent.sequence == 6
    ensures f.agent.wire == [ControlBytes(Hello, 5, 0), ControlBytes(Reset, 6, 0)]
    ensures f.agent.inFlight == [] && f.agent.queue == []
  {
    hide ControlBytes, Ticks, DoAll, Steps, Controls;
    EightTicks(cut.agent);
    HeldSteps(cut, 8);
    f := DoAll(cut, Wholes(Steps(8)));
  }

  lemma {:induction false} PushedLate(f: System)
    requires f.lock.Numbered? && f.lock.message != [] && Spells(f.lock.message, Frame, 4)
    requires f.agent.phase.ClearSnapshot? && f.agent.running && !f.agent.reconnectRequested
    requires f.agent.wire == [ControlBytes(Hello, 5, 0), ControlBytes(Reset, 6, 0)]
    requires f.agent.inFlight == [] && f.agent.queue == []
    ensures var wire := DoAll(Do(f, Push), Wholes(Steps(5))).agent.wire;
      && |wire| == 3 && NumberOf(wire[0]) == 5 && NumberOf(wire[1]) == 6 && NumberOf(wire[2]) == 4
      && !Contiguous(wire)
  {
    hide ControlBytes, Ticks, DoAll, Steps, Spells, NumberOf;
    var s := Do(f, Push).agent;
    assert s.queue == [f.lock.message];
    WholeRun(s, Steps(5));
    RunSteps(s, 5);
    FiveTicks(s);
    ControlSpells(Hello, 5, 0);
    SpelledNumber(ControlBytes(Hello, 5, 0), Hello, 5);
    ControlSpells(Reset, 6, 0);
    SpelledNumber(ControlBytes(Reset, 6, 0), Reset, 6);
    SpelledNumber(f.lock.message, Frame, 4);
    var wire := Ticks(s, 5).wire;
    assert wire == [ControlBytes(Hello, 5, 0), ControlBytes(Reset, 6, 0), f.lock.message];
    assert NumberOf(wire[2]) != Wrap32(NumberOf(wire[1]) + 1);
  }

  lemma {:induction false} FiveTicks(s: AgentState)
    requires s.phase.ClearSnapshot? && s.running && !s.reconnectRequested && |s.queue| == 1 && s.inFlight == []
    ensures Ticks(s, 5).wire == s.wire + [s.queue[0]]
  {
    hide Ticks, SendControl, Cut, Zeros;
    TicksThree(s);
    TicksJoin(s, 3, 2);
    TicksThree(Ticks(s, 3));
  }
}
