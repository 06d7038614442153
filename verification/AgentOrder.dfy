/** The agent, with callbacks begun at any time and interrupted anywhere, as a run of
    the lock-level machine: the messages its ring holds and has given up spell numbers
    in allocation order. */
module AgentOrder {
  import opened Words
  import opened Wire
  import opened TouchFrame
  import opened MessageQueue
  import opened Agent
  import opened AgentLaws
  import opened AgentSteps
  import opened LateCallbacks
  import opened HeldLock
  import L = LockOrder

  /** What a move does to the locks, the ring and the counter. */
  function MovesOf(f: System, move: Move): seq<L.Move> {
    if !Enabled(f, move) then []
    else match move
      case Whole(action) => WholeMoves(f, action)
      case Take(_) => [L.TakeNumber]
      case Push => [L.Push]
      case Disown => []
      case Request => []
      case Release => [L.ClearRefused]
  }

  function WholeMoves(f: System, action: Action): seq<L.Move> {
    if action.SenderStep? then SenderMoves(f.agent)
    else if !f.lock.Free? || !Enqueues(f.agent, action) then []
    else if |f.agent.queue| < QUEUE_CAPACITY then [L.TakeNumber, L.Push]
    else [L.TakeNumber, L.Push, L.ClearRefused]
  }

  function SenderMoves(s: AgentState): seq<L.Move> {
    match s.phase
    case SendHello => [L.NumberControl]
    case SendReset => [L.NumberControl]
    case ClearStale => [L.ClearQueue]
    case Drain => [L.ClearQueue]
    case PopNext => if s.queue != [] then [L.Pop] else []
    case _ => []
  }

  function AllMoves(threshold: U32, moves: seq<Move>): seq<L.Move> {
    if moves == [] then []
    else
      var n := |moves| - 1;
      AllMoves(threshold, moves[..n]) + MovesOf(DoAll(Booted(threshold), moves[..n]), moves[n])
  }

  /** Every frame ever taken from the ring to be sent, across all reconnects. */
  function Popped(threshold: U32, moves: seq<Move>): seq<seq<Byte>> {
    if moves == [] then []
    else
      var n := |moves| - 1;
      Popped(threshold, moves[..n]) + PoppedBy(DoAll(Booted(threshold), moves[..n]), moves[n])
  }

  function PoppedBy(f: System, move: Move): seq<seq<Byte>> {
    if move.Whole? && move.action.SenderStep? && f.agent.phase.PopNext? && f.agent.queue != []
    then [f.agent.queue[0]] else []
  }

  /** Each message is a frame that spells its number modulo 2^32. */
  ghost predicate Carry(messages: seq<seq<Byte>>, numbers: seq<nat>) {
    && |messages| == |numbers|
    && forall i :: 0 <= i < |messages| ==> Spells(messages[i], Frame, Wrap32(numbers[i]))
  }

  ghost predicate SameHolder(lock: Lock, holder: L.Holder) {
    match lock
    case Free => holder == L.Unlocked
    case Numbered(message, _, _) =>
      holder.Numbered? && message != [] && Spells(message, Frame, Wrap32(holder.number))
    case _ => holder == L.Refused
  }

  ghost predicate Refines(f: System, popped: seq<seq<Byte>>, locks: L.Locks) {
    var s := f.agent;
    && s.sequence == Wrap32(locks.issued) && SameHolder(f.lock, locks.holder)
    && Carry(s.queue, locks.ring) && Carry(popped, locks.popped) && |s.queue| <= QUEUE_CAPACITY
    && s.latest.contactCount <= MAX_CONTACTS && s.latest.flags <= FRAME_BUTTON
  }

  lemma {:induction false} CarryMore(messages: seq<seq<Byte>>, numbers: seq<nat>, message: seq<Byte>, number: nat)
    requires Carry(messages, numbers) && Spells(message, Frame, Wrap32(number))
    ensures Carry(messages + [message], numbers + [number])
  {
    hide Spells;
  }

  lemma {:induction false} CarryFirst(messages: seq<seq<Byte>>, numbers: seq<nat>)
    requires Carry(messages, numbers) && messages != []
    ensures Carry(messages[1..], numbers[1..]) && Spells(messages[0], Frame, Wrap32(numbers[0]))
  {
    hide Spells;
  }

  lemma {:induction false} DoRefines(f: System, popped: seq<seq<Byte>>, locks: L.Locks, move: Move)
    requires Refines(f, popped, locks)
    ensures Refines(Do(f, move), popped + PoppedBy(f, move), L.RunOn(locks, MovesOf(f, move)))
  {
    hide Whenever, TakeNumber, Carry, Spells;
    assert popped + [] == popped;
    if Enabled(f, move) {
      match move {
        case Whole(action) => WholeRefines(f, popped, locks, action);
        case Take(late) => TakeRefines(f, popped, locks, late);
        case Push => PushRefines(f, popped, locks);
        case Disown =>
        case Request =>
        case Release =>
          One(locks, L.ClearRefused);
          NothingCarried();
      }
    }
  }

  lemma {:induction false} TakeRefines(f: System, popped: seq<seq<Byte>>, locks: L.Locks, late: Action)
    requires Refines(f, popped, locks) && Enabled(f, Take(late))
    ensures Refines(Do(f, Take(late)), popped, L.RunOn(locks, [L.TakeNumber]))
  {
    hide Prepare, MessageBytes, Encodable, Carry, Spells;
    One(locks, L.TakeNumber);
    PreparedKeeps(f.agent, late);
    PreparedFrame(f.agent, late);
    var p := Prepare(f.agent, late);
    NextNumber(f.agent.sequence, locks.issued);
    StampedEncodes(p.frame.(sequence := Wrap32(f.agent.sequence + 1), captureTimeUs := p.clock));
  }

  lemma {:induction false} NextNumber(sequence: U32, issued: nat)
    requires sequence == Wrap32(issued)
    ensures Wrap32(sequence + 1) == Wrap32(issued + 1)
  {
  }

  lemma {:induction false} PushRefines(f: System, popped: seq<seq<Byte>>, locks: L.Locks)
    requires Refines(f, popped, locks) && Enabled(f, Push)
    ensures Refines(Do(f, Push), popped, L.RunOn(locks, [L.Push]))
  {
    hide Spells;
    One(locks, L.Push);
    if Room(f) {
      CarryMore(f.agent.queue, locks.ring, f.lock.message, locks.holder.number);
    }
  }

  lemma {:induction false} WholeRefines(f: System, popped: seq<seq<Byte>>, locks: L.Locks, action: Action)
    requires Refines(f, popped, locks)
    ensures var move := Whole(action);
      Refines(Do(f, move), popped + PoppedBy(f, move), L.RunOn(locks, MovesOf(f, move)))
  {
    hide Tick, ContactLocked, ButtonLocked, Carry, Spells;
    assert popped + [] == popped;
    match action {
      case SenderStep(fate) => TickRefines(f, popped, locks, fate);
      case Stop =>
      case LateContact(list, _, _) =>
        if |list| <= MAX_CONTACTS && f.lock.Free? {
          CallbackRefines(f, popped, locks, action);
        }
      case _ =>
        if f.lock.Free? {
          CallbackRefines(f, popped, locks, action);
        }
    }
  }

  lemma {:induction false} CallbackRefines(f: System, popped: seq<seq<Byte>>, locks: L.Locks, action: Action)
    requires Refines(f, popped, locks) && f.lock.Free?
    requires Late(action) || action.ButtonEdge? || action.ContactFrame?
    ensures Refines(System(Act(f.agent, action), Free), popped, L.RunOn(locks, WholeMoves(f, action)))
  {
    hide Spells, Act, Enqueue;
    var s := f.agent;
    var noted, frame, clock := CallbackEnqueues(s, action);
    EnqueueSplits(noted, frame, clock);
    if Enqueues(s, action) {
      NextNumber(s.sequence, locks.issued);
      if |s.queue| < QUEUE_CAPACITY {
        Two(locks, L.TakeNumber, L.Push);
        var later := Enqueue(noted, frame, clock);
        CarryMore(s.queue, locks.ring, later.queue[|s.queue|], locks.issued + 1);
        assert later.queue == s.queue + [later.queue[|s.queue|]];
      } else {
        NothingCarried();
        Three(locks, L.TakeNumber, L.Push, L.ClearRefused);
      }
    }
  }

  lemma {:induction false} One(s: L.Locks, a: L.Move)
    ensures L.RunOn(s, [a]) == L.Step(s, a)
  {
    hide L.Step;
    assert [a][1..] == [];
  }

  lemma {:induction false} Two(s: L.Locks, a: L.Move, b: L.Move)
    ensures L.RunOn(s, [a, b]) == L.Step(L.Step(s, a), b)
  {
    hide L.Step;
    assert [a, b][1..] == [b];
    One(L.Step(s, a), b);
  }

  lemma {:induction false} Three(s: L.Locks, a: L.Move, b: L.Move, c: L.Move)
    ensures L.RunOn(s, [a, b, c]) == L.Step(L.Step(L.Step(s, a), b), c)
  {
    hide L.Step;
    assert [a, b, c][1..] == [b, c];
    Two(L.Step(s, a), b, c);
  }

  lemma {:induction false} TickRefines(f: System, popped: seq<seq<Byte>>, locks: L.Locks, fate: Fate)
    requires Refines(f, popped, locks)
    ensures var move := Whole(SenderStep(fate));
      Refines(Do(f, move), popped + PoppedBy(f, move), L.RunOn(locks, MovesOf(f, move)))
  {
    hide Spells, Tick, Carry;
    assert popped + [] == popped;
    var s := f.agent;
    match s.phase {
      case SendHello => ControlRefines(f, popped, locks, fate);
      case SendReset => ControlRefines(f, popped, locks, fate);
      case PopNext =>
        PopTick(s, fate);
        if s.queue != [] {
          PopRefines(s.queue, popped, locks);
        }
      case _ =>
        One(locks, L.ClearQueue);
        NothingCarried();
        OtherTick(s, fate);
    }
  }

  lemma {:induction false} PopRefines(queue: seq<seq<Byte>>, popped: seq<seq<Byte>>, locks: L.Locks)
    requires Carry(queue, locks.ring) && Carry(popped, locks.popped) && queue != []
    ensures var later := L.RunOn(locks, [L.Pop]);
      && Carry(queue[1..], later.ring) && Carry(popped + [queue[0]], later.popped)
      && later.issued == locks.issued && later.holder == locks.holder
  {
    hide Spells;
    One(locks, L.Pop);
    CarryFirst(queue, locks.ring);
    CarryMore(popped, locks.popped, queue[0], locks.ring[0]);
  }

  lemma {:induction false} ControlRefines(f: System, popped: seq<seq<Byte>>, locks: L.Locks, fate: Fate)
    requires Refines(f, popped, locks) && Controls(f.agent)
    ensures Refines(Do(f, Whole(SenderStep(fate))), popped, L.RunOn(locks, [L.NumberControl]))
  {
    hide Spells, ControlBytes, Cut, Carry;
    One(locks, L.NumberControl);
    NextNumber(f.agent.sequence, locks.issued);
  }

  lemma {:induction false} PopTick(s: AgentState, fate: Fate)
    requires s.phase.PopNext?
    ensures var later := Tick(s, fate);
      && later.sequence == s.sequence && later.latest == s.latest
      && later.queue == if s.queue != [] then s.queue[1..] else s.queue
  {
    hide SendControl, Cut;
  }

  lemma {:induction false} OtherTick(s: AgentState, fate: Fate)
    requires !s.phase.PopNext? && !s.phase.SendHello? && !s.phase.SendReset?
    ensures var later := Tick(s, fate);
      && later.sequence == s.sequence && (later.latest == s.latest || later.latest == ZERO_FRAME)
      && later.queue == if s.phase.ClearStale? || s.phase.Drain? then [] else s.queue
  {
    hide Tick;
    if Greeting(s.phase) {
      GreetingTick(s, fate);
    } else {
      ClosingTick(s, fate);
    }
  }

  lemma {:induction false} GreetingTick(s: AgentState, fate: Fate)
    requires Greeting(s.phase) && !s.phase.SendHello? && !s.phase.SendReset?
    ensures var later := Tick(s, fate);
      && later.sequence == s.sequence && (later.latest == s.latest || later.latest == ZERO_FRAME)
      && later.queue == if s.phase.ClearStale? then [] else s.queue
  {
    hide SendControl, Cut, Zeros;
  }

  lemma {:induction false} ClosingTick(s: AgentState, fate: Fate)
    requires !Greeting(s.phase) && !s.phase.PopNext?
    ensures var later := Tick(s, fate);
      && later.sequence == s.sequence && later.latest == s.latest
      && later.queue == if s.phase.Drain? then [] else s.queue
  {
    hide SendControl, Cut, Zeros;
  }

  /** For every run, with callbacks begun at any time and interrupted anywhere: the
      frames taken from the ring so far, across reconnects, then those it holds, then
      the one a callback has not pushed yet spell allocation numbers, modulo 2^32, that
      strictly increase and have all been issued. */
  lemma {:induction false} FramesInOrder(threshold: U32, moves: seq<Move>)
    ensures var f, locks := DoAll(Booted(threshold), moves), L.Run(AllMoves(threshold, moves));
      && f.agent.sequence == Wrap32(locks.issued)
      && Carry(Popped(threshold, moves) + f.agent.queue + Unpushed(f.lock), L.Line(locks))
      && L.UpTo(L.Line(locks), locks.issued)
  {
    hide DoAll, Popped, AllMoves, L.Run, L.UpTo, Carry, Spells;
    AgentRefines(threshold, moves);
    var f, locks := DoAll(Booted(threshold), moves), L.Run(AllMoves(threshold, moves));
    L.FramesStayOrdered(AllMoves(threshold, moves));
    CarryHeld(f.lock, locks.holder);
    CarryJoin(Popped(threshold, moves), locks.popped, f.agent.queue, locks.ring);
    CarryJoin(Popped(threshold, moves) + f.agent.queue, locks.popped + locks.ring,
              Unpushed(f.lock), L.Held(locks.holder));
  }

  lemma {:induction false} CarryHeld(lock: Lock, holder: L.Holder)
    requires SameHolder(lock, holder)
    ensures Carry(Unpushed(lock), L.Held(holder))
  {
    hide Spells;
  }

  lemma {:induction false} CarryJoin(messages: seq<seq<Byte>>, numbers: seq<nat>,
                                     more: seq<seq<Byte>>, others: seq<nat>)
    requires Carry(messages, numbers) && Carry(more, others)
    ensures Carry(messages + more, numbers + others)
  {
    hide Spells;
  }

  function Unpushed(lock: Lock): seq<seq<Byte>> {
    match lock case Numbered(message, _, _) => [message] case _ => []
  }

  /** The agent is a run of the lock-level machine. */
  lemma {:induction false} AgentRefines(threshold: U32, moves: seq<Move>)
    ensures Refines(DoAll(Booted(threshold), moves), Popped(threshold, moves), L.Run(AllMoves(threshold, moves)))
  {
    hide Do, MovesOf, PoppedBy, Spells, L.RunOn, Carry;
    if moves == [] {
      NothingCarried();
    } else {
      var n := |moves| - 1;
      AgentRefines(threshold, moves[..n]);
      var f, before := DoAll(Booted(threshold), moves[..n]), AllMoves(threshold, moves[..n]);
      DoRefines(f, Popped(threshold, moves[..n]), L.Run(before), moves[n]);
      L.RunJoin(before, MovesOf(f, moves[n]));
    }
  }

  lemma {:induction false} NothingCarried()
    ensures Carry([], [])
  {
  }
}
