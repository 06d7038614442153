/** The sender at the grain of its locks, with no assumption on when a callback
    tested `connected`. Numbers are counted without wrapping. */
module LockOrder {
  import opened MessageQueue

  /** The callback inside the frame lock: none, one that has taken a number and
      not pushed it yet, or one whose push was refused and that has not cleared
      the queue yet. */
  datatype Holder = Unlocked | Numbered(number: nat) | Refused

  /** `popped` is every frame ever taken from the ring, across all reconnects. */
  datatype Locks = Locks(issued: nat, holder: Holder, ring: seq<nat>, popped: seq<nat>)

  /** The smallest steps the two mutexes and the atomic counter allow: a callback
      takes the frame lock and a number, pushes it, or clears the queue after a
      refusal; the sender thread pops, clears, or takes a number for a control
      message, which needs no lock at all. */
  datatype Move = TakeNumber | Push | ClearRefused | Pop | ClearQueue | NumberControl

  function Step(s: Locks, move: Move): Locks {
    match move
    case TakeNumber =>
      if s.holder != Unlocked then s
      else s.(issued := s.issued + 1, holder := Numbered(s.issued + 1))
    case Push =>
      if !s.holder.Numbered? then s
      else if |s.ring| == QUEUE_CAPACITY then s.(holder := Refused)
      else s.(ring := s.ring + [s.holder.number], holder := Unlocked)
    case ClearRefused => if s.holder != Refused then s else s.(ring := [], holder := Unlocked)
    case Pop => if s.ring == [] then s else s.(ring := s.ring[1..], popped := s.popped + [s.ring[0]])
    case ClearQueue => s.(ring := [])
    case NumberControl => s.(issued := s.issued + 1)
  }

  function Run(moves: seq<Move>): Locks {
    if moves == [] then Locks(0, Unlocked, [], [])
    else Step(Run(moves[..|moves| - 1]), moves[|moves| - 1])
  }

  ghost predicate Increasing(numbers: seq<nat>) {
    forall i, j :: 0 <= i < j < |numbers| ==> numbers[i] < numbers[j]
  }

  function Held(holder: Holder): seq<nat> {
    match holder case Numbered(n) => [n] case _ => []
  }

  /** Every frame number that has been or may still be popped, in that order. */
  function Line(s: Locks): seq<nat> { s.popped + s.ring + Held(s.holder) }

  ghost predicate Ordered(s: Locks) { UpTo(Line(s), s.issued) && |s.ring| <= QUEUE_CAPACITY }

  /** Increasing, and nothing beyond what has been issued. */
  ghost predicate UpTo(numbers: seq<nat>, issued: nat) {
    Increasing(numbers) && forall i :: 0 <= i < |numbers| ==> numbers[i] <= issued
  }

  lemma {:induction false} NewNumber(numbers: seq<nat>, issued: nat)
    requires UpTo(numbers, issued)
    ensures UpTo(numbers + [issued + 1], issued + 1) && UpTo(numbers, issued + 1)
  {
  }

  /** Dropping a middle part of the line leaves it increasing. */
  lemma {:induction false} Dropped(front: seq<nat>, middle: seq<nat>, back: seq<nat>, issued: nat)
    requires UpTo(front + middle + back, issued)
    ensures UpTo(front + back, issued)
  {
    var all, left := front + middle + back, front + back;
    assert forall i :: 0 <= i < |front| ==> left[i] == all[i];
    assert forall i :: |front| <= i < |left| ==> left[i] == all[i + |middle|];
  }

  lemma {:induction false} StepOrdered(s: Locks, move: Move)
    requires Ordered(s)
    ensures Ordered(Step(s, move))
  {
    hide UpTo;
    var later := Step(s, move);
    var held := Held(s.holder);
    match move {
      case TakeNumber =>
        NewNumber(Line(s), s.issued);
        assert s.holder == Unlocked ==> Line(later) == Line(s) + [s.issued + 1];
      case Push =>
        Dropped(s.popped + s.ring, held, [], s.issued) by { assert s.popped + s.ring + held + [] == Line(s); }
        assert s.popped + s.ring + [] == s.popped + s.ring;
        assert s.holder.Numbered? && |s.ring| < QUEUE_CAPACITY ==> Line(later) == Line(s);
      case ClearRefused =>
        Dropped(s.popped, s.ring, held, s.issued);
        assert s.popped + [] + held == s.popped + held;
      case Pop =>
        if s.ring != [] {
          assert s.ring == [s.ring[0]] + s.ring[1..];
          assert Line(later) == Line(s);
        }
      case ClearQueue =>
        Dropped(s.popped, s.ring, held, s.issued);
        assert s.popped + [] + held == s.popped + held;
      case NumberControl =>
        NewNumber(Line(s), s.issued);
    }
  }

  /** For every interleaving of numbering, pushing, refusing, clearing, popping
      and control sends: the frames popped so far, across reconnects, then the
      ring's contents, then the number still held, strictly increase. */
  lemma {:induction false} FramesStayOrdered(moves: seq<Move>)
    ensures Ordered(Run(moves))
    ensures Increasing(Run(moves).popped) && Increasing(Run(moves).ring)
  {
    hide Step;
    if moves != [] {
      FramesStayOrdered(moves[..|moves| - 1]);
      StepOrdered(Run(moves[..|moves| - 1]), moves[|moves| - 1]);
    }
    Parts(Run(moves));
  }

  lemma {:induction false} Parts(s: Locks)
    requires Increasing(Line(s))
    ensures Increasing(s.popped) && Increasing(s.ring)
  {
    var line := Line(s);
    assert forall i :: 0 <= i < |s.popped| ==> s.popped[i] == line[i];
    assert forall i :: 0 <= i < |s.ring| ==> s.ring[i] == line[|s.popped| + i];
  }

  /** Another stretch of moves. */
  function RunOn(s: Locks, moves: seq<Move>): Locks
    decreases |moves|
  {
    if moves == [] then s else RunOn(Step(s, moves[0]), moves[1..])
  }

  lemma {:induction false} RunJoin(moves: seq<Move>, more: seq<Move>)
    ensures Run(moves + more) == RunOn(Run(moves), more)
    decreases |more|
  {
    hide Step;
    if more == [] {
      assert moves + more == moves;
    } else {
      var next := moves + [more[0]];
      assert next[..|moves|] == moves && next + more[1..] == moves + more;
      RunJoin(next, more[1..]);
    }
  }
}
