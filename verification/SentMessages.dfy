/** What the messages of the sender look like to either decoder, in every run. */
module SentMessages {
  import opened Words
  import opened Wire
  import opened Streams
  import opened TouchFrame
  import opened Agent
  import A = Agent
  import opened AgentLaws
  import opened AgentSteps
  import CodecLaws

  /** Contacts a framework may report without the receiver objecting: no repeated
      identifier, and nine finite floats each. */
  ghost predicate Sane(touches: seq<Touch>) {
    && DistinctIdentifiers(ContactsOf(touches))
    && forall i :: 0 <= i < |touches| ==> AllFinite(ContactOf(touches[i]))
  }

  ghost predicate SaneAction(action: Action) {
    match action
    case ContactFrame(touches, _, _) => Sane(ListOf(touches))
    case LateContact(list, _, _) => Sane(list)
    case _ => true
  }

  /** What the agent puts into a message, and, if its touches are sane, what the
      strict decoder asks of it. */
  ghost predicate Proper(m: Message, sane: bool) {
    && |m.contacts| <= MAX_CONTACTS
    && (forall i :: 0 <= i < |m.contacts| ==> m.contacts[i].flags <= CONTACT_FLAGS)
    && (sane ==> WellFormed(m))
  }

  /** The bytes are one message, exactly as the encoder writes it. */
  ghost predicate Encoded(bytes: seq<Byte>, sane: bool) {
    && LenientAccepts(bytes) && Proper(LenientMessage(bytes), sane)
    && MessageBytes(LenientMessage(bytes)) == bytes
  }

  ghost predicate AllEncoded(stream: seq<seq<Byte>>, sane: bool) {
    forall i :: 0 <= i < |stream| ==> Encoded(stream[i], sane)
  }

  ghost predicate ProperFrame(frame: TPFrame, sane: bool) {
    frame.contactCount <= MAX_CONTACTS && Proper(MessageOf(Frame, frame), sane)
  }

  ghost predicate EncodedInv(s: AgentState, sane: bool) {
    && ProperFrame(s.latest, sane)
    && AllEncoded(s.wire, sane) && AllEncoded(s.inFlight, sane) && AllEncoded(s.queue, sane)
  }

  lemma {:induction false} EncodedMessage(kind: MessageType, frame: TPFrame, sane: bool)
    requires frame.contactCount <= MAX_CONTACTS && Proper(MessageOf(kind, frame), sane)
    requires kind == Frame ==> frame.flags <= FRAME_BUTTON
    ensures Encoded(MessageBytes(MessageOf(kind, frame)), sane)
  {
    hide LenientAccepts, LenientMessage, MessageBytes, Proper;
    CodecLaws.LenientRoundTrip(kind, frame);
  }

  lemma {:induction false} EnqueueEncodes(s: AgentState, frame: TPFrame, clock: U64, sane: bool)
    requires EncodedInv(s, sane) && ProperFrame(frame, sane) && frame.flags <= FRAME_BUTTON
    ensures EncodedInv(Enqueue(s, frame, clock), sane)
  {
    hide Encoded, MessageBytes, KnownContact, DistinctIdentifiers, Encodable;
    EncodedMessage(Frame, frame.(sequence := Wrap32(s.sequence + 1), captureTimeUs := clock), sane);
  }

  lemma {:induction false} TouchesProper(touches: seq<Touch>, deviceTimeUs: U64, flags: U16, sane: bool)
    requires |touches| <= MAX_CONTACTS && (sane ==> Sane(touches)) && flags <= FRAME_BUTTON
    ensures ProperFrame(FrameFrom(touches, deviceTimeUs, flags), sane)
  {
    hide AllFinite, DistinctIdentifiers;
    var frame := FrameFrom(touches, deviceTimeUs, flags);
    assert frame.contacts[..|touches|] == ContactsOf(touches);
  }

  /** What a callback is about to number. */
  lemma {:induction false} PreparedProper(s: AgentState, late: Action, sane: bool)
    requires Late(late) && ProperFrame(s.latest, sane) && (sane ==> SaneAction(late))
    ensures var p := Prepare(s, late);
      && ProperFrame(p.frame, sane) && p.frame.flags <= FRAME_BUTTON && p.agent.latest == p.frame
  {
    hide ProperFrame, SampleOf, FrameFrom, Sane;
    match late {
      case LateButton(_) => ButtonProper(s.latest, ButtonFlags(s), sane);
      case LateContact(list, deviceTimeUs, _) =>
        var flags := Prepare(s, late).frame.flags;
        FrameFlags(list, deviceTimeUs, 0);
        FrameFlags(list, deviceTimeUs, 1);
        TouchesProper(list, deviceTimeUs, 0, sane);
        TouchesProper(list, deviceTimeUs, 1, sane);
    }
  }

  lemma {:induction false} FrameFlags(touches: seq<Touch>, deviceTimeUs: U64, flags: U16)
    requires |touches| <= MAX_CONTACTS
    ensures FrameFrom(touches, deviceTimeUs, flags).flags == flags
  {
  }

  lemma {:induction false} LateEncodes(s: AgentState, late: Action, sane: bool)
    requires EncodedInv(s, sane) && Late(late) && (sane ==> SaneAction(late))
    ensures EncodedInv(Act(s, late), sane)
  {
    hide AllEncoded, ProperFrame, Enqueue, Prepare, Act, Sane;
    PreparedLocked(s, late);
    PreparedKeeps(s, late);
    PreparedProper(s, late, sane);
    var p := Prepare(s, late);
    EnqueueEncodes(p.agent, p.frame, p.clock, sane);
  }

  lemma {:induction false} ButtonProper(frame: TPFrame, flags: U16, sane: bool)
    requires ProperFrame(frame, sane) && flags <= FRAME_BUTTON
    ensures ProperFrame(frame.(flags := flags, deviceTimeUs := 0), sane)
  {
    hide KnownContact, DistinctIdentifiers;
  }

  lemma {:induction false} ControlEncoded(s: AgentState, kind: MessageType, next: Phase, fate: Fate, sane: bool)
    requires EncodedInv(s, sane) && kind != Frame
    ensures EncodedInv(SendControl(s, kind, next, fate), sane)
  {
    hide Encoded, MessageBytes, KnownContact, DistinctIdentifiers, Cut, ProperFrame;
    var frame := ZERO_FRAME.(sequence := Wrap32(s.sequence + 1), captureTimeUs := fate.clock);
    NoContactsProper(kind, frame, sane);
    EncodedMessage(kind, frame, sane);
  }

  lemma {:induction false} NoContactsProper(kind: MessageType, frame: TPFrame, sane: bool)
    requires frame.contactCount == 0 && frame.flags == 0
    ensures Proper(MessageOf(kind, frame), sane)
  {
  }

  lemma {:induction false} NothingEncoded(sane: bool)
    ensures AllEncoded([], sane) && ProperFrame(ZERO_FRAME, sane)
  {
    NoContactsProper(Frame, ZERO_FRAME, sane);
  }

  lemma {:induction false} TickEncoded(s: AgentState, fate: Fate, sane: bool)
    requires EncodedInv(s, sane)
    ensures EncodedInv(Tick(s, fate), sane)
  {
    hide EncodedInv, Tick;
    if s.phase.PopNext? || s.phase.SendNext? {
      StreamEncoded(s, fate, sane);
    } else if Greeting(s.phase) {
      GreetEncoded(s, fate, sane);
    } else {
      OtherEncoded(s, fate, sane);
    }
  }

  lemma {:induction false} StreamEncoded(s: AgentState, fate: Fate, sane: bool)
    requires EncodedInv(s, sane) && (s.phase.PopNext? || s.phase.SendNext?)
    ensures EncodedInv(Tick(s, fate), sane)
  {
    hide SendControl, Cut, Encoded, ProperFrame;
  }

  lemma {:induction false} GreetEncoded(s: AgentState, fate: Fate, sane: bool)
    requires EncodedInv(s, sane) && Greeting(s.phase)
    ensures EncodedInv(Tick(s, fate), sane)
  {
    hide SendControl, Cut, AllEncoded, ProperFrame;
    ControlEncoded(s, Hello, SendReset, fate, sane);
    ControlEncoded(s, Reset, ClearRequest, fate, sane);
    NothingEncoded(sane);
  }

  lemma {:induction false} OtherEncoded(s: AgentState, fate: Fate, sane: bool)
    requires EncodedInv(s, sane) && !Greeting(s.phase) && !s.phase.PopNext? && !s.phase.SendNext?
    ensures EncodedInv(Tick(s, fate), sane)
  {
    hide SendControl, Cut, AllEncoded, ProperFrame;
    NothingEncoded(sane);
  }

  lemma {:induction false} ActEncoded(s: AgentState, action: Action, sane: bool)
    requires EncodedInv(s, sane) && (sane ==> SaneAction(action))
    ensures EncodedInv(Act(s, action), sane)
  {
    hide AllEncoded, ProperFrame, Tick, ContactLocked, ButtonLocked, Sane;
    match action {
      case SenderStep(fate) => TickEncoded(s, fate, sane);
      case ButtonEdge(pressed, released, clock) =>
        LateEncodes(NoteEdge(s, pressed, released), LateButton(clock), sane);
      case ContactFrame(touches, deviceTimeUs, clock) =>
        if !A.Refused(touches) {
          LateEncodes(s, LateContact(ListOf(touches), deviceTimeUs, clock), sane);
        }
      case LateButton(_) => LateEncodes(s, action, sane);
      case LateContact(list, _, _) =>
        if |list| <= MAX_CONTACTS {
          LateEncodes(s, action, sane);
        }
      case Stop =>
    }
  }

  /** Also the message a callback has numbered and not pushed. */
  ghost predicate SystemEncoded(f: System, sane: bool) {
    EncodedInv(f.agent, sane) && (f.lock.Numbered? ==> Encoded(f.lock.message, sane))
  }

  ghost predicate SaneMove(move: Move) {
    match move
    case Whole(action) => SaneAction(action)
    case Take(late) => SaneAction(late)
    case _ => true
  }

  lemma {:induction false} TakeEncoded(f: System, late: Action, sane: bool)
    requires SystemEncoded(f, sane) && Enabled(f, Take(late)) && (sane ==> SaneAction(late))
    ensures SystemEncoded(Do(f, Take(late)), sane)
  {
    hide AllEncoded, Encoded, Prepare, MessageBytes, KnownContact, DistinctIdentifiers, SaneAction;
    PreparedKeeps(f.agent, late);
    PreparedProper(f.agent, late, sane);
    var p := Prepare(f.agent, late);
    var frame := p.frame.(sequence := Wrap32(f.agent.sequence + 1), captureTimeUs := p.clock);
    EncodedMessage(Frame, frame, sane);
  }

  lemma {:induction false} PushEncoded(f: System, sane: bool)
    requires SystemEncoded(f, sane) && Room(f)
    ensures SystemEncoded(Do(f, Push), sane)
  {
    hide Encoded, ProperFrame;
  }

  lemma {:induction false} DoEncoded(f: System, move: Move, sane: bool)
    requires SystemEncoded(f, sane) && (sane ==> SaneMove(move))
    ensures SystemEncoded(Do(f, move), sane)
  {
    hide AllEncoded, Encoded, ProperFrame, Tick, Act, TakeNumber, SaneAction;
    NothingEncoded(sane);
    if Enabled(f, move) {
      match move {
        case Whole(action) => WholeEncoded(f, action, sane);
        case Take(late) => TakeEncoded(f, late, sane);
        case Push =>
          if Room(f) {
            PushEncoded(f, sane);
          }
        case _ =>
      }
    }
  }

  lemma {:induction false} WholeEncoded(f: System, action: Action, sane: bool)
    requires SystemEncoded(f, sane) && (sane ==> SaneAction(action))
    ensures SystemEncoded(Whenever(f, action), sane)
  {
    hide AllEncoded, Encoded, ProperFrame, Tick, Act, SaneAction;
    ActEncoded(f.agent, action, sane);
    if action.SenderStep? {
      TickEncoded(f.agent, action.fate, sane);
    }
  }

  /** In every run, with callbacks begun at any time and interrupted anywhere, each
      message sent, in flight or queued is exactly what the encoder writes, with no
      unknown flag; if all touches were sane the strict decoder accepts it. */
  lemma {:induction false} RunEncoded(threshold: U32, moves: seq<Move>, sane: bool)
    requires sane ==> forall i :: 0 <= i < |moves| ==> SaneMove(moves[i])
    ensures SystemEncoded(DoAll(Booted(threshold), moves), sane)
  {
    hide SystemEncoded, Do, SaneMove;
    if moves == [] {
      StartEncoded(threshold, sane);
    } else {
      var n := |moves| - 1;
      RunEncoded(threshold, moves[..n], sane);
      DoEncoded(DoAll(Booted(threshold), moves[..n]), moves[n], sane);
    }
  }

  lemma {:induction false} StartEncoded(threshold: U32, sane: bool)
    ensures SystemEncoded(Booted(threshold), sane)
  {
    hide AllEncoded, ProperFrame;
    NothingEncoded(sane);
  }

  /** A stream of wire messages as the messages they spell. */
  ghost function Spelled(stream: seq<seq<Byte>>): (messages: seq<Message>)
    requires AllEncoded(stream, false)
    ensures |messages| == |stream|
  {
    if stream == [] then [] else [LenientMessage(stream[0])] + Spelled(stream[1..])
  }

  lemma {:induction false} SpelledAt(stream: seq<seq<Byte>>)
    requires AllEncoded(stream, false)
    ensures forall i :: 0 <= i < |stream| ==>
      LenientAccepts(stream[i]) && Spelled(stream)[i] == LenientMessage(stream[i])
  {
    hide LenientAccepts, LenientMessage, MessageBytes, Proper;
    if stream != [] {
      SpelledAt(stream[1..]);
    }
  }

  lemma {:induction false} SpelledEncodes(stream: seq<seq<Byte>>)
    requires AllEncoded(stream, true) && AllEncoded(stream, false)
    ensures AllWellFormed(Spelled(stream)) && EncodeAll(Spelled(stream)) == Concat(stream)
  {
    hide LenientAccepts, LenientMessage, MessageBytes, WellFormed;
    if stream != [] {
      SpelledEncodes(stream[1..]);
      var tail := Spelled(stream[1..]);
      assert ([LenientMessage(stream[0])] + tail)[1..] == tail;
    }
  }

  lemma {:induction false} Relaxed(stream: seq<seq<Byte>>, sane: bool)
    requires AllEncoded(stream, sane)
    ensures AllEncoded(stream, false)
  {
    hide LenientAccepts, LenientMessage, MessageBytes, WellFormed;
  }
}
