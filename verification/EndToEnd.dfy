/** The sender's socket against the receiver's checks: what a connected epoch
    sends never trips the lifecycle or the sequence check, and what else can end
    the connection. */
module EndToEnd {
  import opened Words
  import opened Wire
  import opened Coordinates
  import opened SessionRuns
  import opened Streams
  import opened Receiver
  import opened Connections
  import opened TouchFrame
  import opened Agent
  import opened AgentLaws
  import opened AgentSteps
  import opened HeldLock
  import opened SentMessages
  import CodecLaws
  import Mtp1

  lemma {:induction false} LanguagePrefix(all: seq<Message>, some: seq<Message>)
    requires InLanguage(all) && some <= all
    ensures InLanguage(some)
  {
    hide KindAllowed;
    assert forall i :: 0 <= i < |some| ==> some[i] == all[i];
  }

  /** A receiver fed any part of a well-formed stream in the language, in chunks of
      any size with polls anywhere between them, stays on exactly when no chunk
      meets the buffer limit and every FRAME fits; nothing else can end it. */
  lemma {:induction false} LanguageReceived(round: Rounding, log: seq<Emission>, events: seq<Event>,
                                            messages: seq<Message>, outstanding: seq<Byte>)
    requires AllWellFormed(messages) && InLanguage(messages)
    requires Received(events) + outstanding == EncodeAll(messages)
    ensures var c := RunEvents(round, log, events);
      && Messages(c.inputs) <= messages
      && (c.closed == None <==> ChunksFit(events) && Fits(Offered(events)))
      && (c.closed.Some? ==> c.closed in {Some(TooManyContacts), Some(BufferLimit)})
  {
    hide RunEvents, Received, EncodeAll, Parse, InLanguage, Fits, RunSession, Messages, DeliversWellFormed,
      WellFormed, Stands, ChunksFit, Offered;
    PrefixParses(messages, Received(events), outstanding);
    StaysOpen(round, log, events);
    CallsOffered(round, log, events);
    var c := RunEvents(round, log, events);
    LanguagePrefix(messages, Parse(Received(events)).messages);
    LanguagePrefix(messages, Messages(c.inputs));
    AcceptedRuns(round, c.inputs);
  }

  lemma {:induction false} EpochInLanguage(stream: seq<seq<Byte>>)
    requires Contiguous(stream) && AllEncoded(stream, false)
    ensures InLanguage(Spelled(stream))
  {
    hide LenientAccepts, LenientMessage, MessageBytes, Proper;
    SpelledAt(stream);
    var messages := Spelled(stream);
    forall i | 0 <= i < |messages|
      ensures KindAllowed(i, messages[i].kind)
    {
      assert Spells(stream[i], EpochKind(i), NumberOf(stream[i]));
    }
    forall i | 0 < i < |messages|
      ensures messages[i].sequence == Wrap32(messages[i - 1].sequence + 1)
    {
      assert Spells(stream[i], EpochKind(i), NumberOf(stream[i]));
      assert Spells(stream[i - 1], EpochKind(i - 1), NumberOf(stream[i - 1]));
      assert NumberOf(stream[i]) == Wrap32(NumberOf(stream[i - 1]) + 1);
    }
  }

  /** The objections the strict decoder can still have to an encoded message. */
  predicate TouchObjection(error: ProtocolError) { error in {NotFinite, DuplicateIdentifier} }

  lemma {:induction false} ObjectionsLeft(bytes: seq<Byte>, n: nat)
    requires HEADER_SIZE + n * CONTACT_SIZE <= |bytes|
    requires forall i :: 0 <= i < n ==>
      Mtp1.Reserved(bytes, i) == 0 && ReadContact(bytes, HEADER_SIZE + i * CONTACT_SIZE).flags <= CONTACT_FLAGS
    ensures var error := Mtp1.ContactsError(bytes, n);
      error.Some? ==> TouchObjection(error.value)
  {
    hide ReadContact, Mtp1.Reserved, AllFinite, Identifiers;
    if n > 0 {
      ObjectionsLeft(bytes, n - 1);
      Mtp1.ReadNext(bytes, n - 1);
    }
  }

  /** One encoded message at the front: complete if the strict decoder accepts it,
      else malformed for a float or an identifier. */
  lemma {:induction false} EncodedFrontOf(bytes: seq<Byte>)
    requires Encoded(bytes, false)
    ensures HEADER_SIZE <= |bytes| && Mtp1.ValidateHeader(bytes) == Success(|bytes|)
    ensures if WellFormed(LenientMessage(bytes)) then FrontOf(bytes) == Complete(LenientMessage(bytes), |bytes|)
      else FrontOf(bytes).Malformed? && TouchObjection(FrontOf(bytes).error)
  {
    hide GetU16, GetU32, GetU64, ReadContact, Mtp1.ContactsError, MessageBytes, WellFormed, KnownContact,
      TouchObjection, DistinctIdentifiers;
    var m := LenientMessage(bytes);
    CodecLaws.LenientReencodes(bytes);
    CodecLaws.DecodersAgree(bytes);
    ObjectionsLeft(bytes, |m.contacts|);
    assert bytes[..|bytes|] == bytes;
    WellFormedKnown(m);
  }

  lemma {:induction false} WellFormedKnown(m: Message)
    ensures WellFormed(m) ==>
      DistinctIdentifiers(m.contacts) && forall i :: 0 <= i < |m.contacts| ==> KnownContact(m.contacts[i])
  {
  }

  /** Any front of an encoded stream parses to the first messages of the stream. An
      objection stops it exactly at the first message that has arrived whole and is
      not well-formed; otherwise every message that arrived whole is parsed. */
  lemma {:induction false} EncodedParse(stream: seq<seq<Byte>>, arrived: seq<Byte>)
    requires AllEncoded(stream, false) && arrived <= Concat(stream)
    ensures var p := Parse(arrived);
      var k := |p.messages|;
      && p.messages <= Spelled(stream) && AllWellFormed(p.messages)
      && (p.error.Some? <==> k < |stream| && |p.rest| >= |stream[k]|)
      && (p.error.Some? ==> TouchObjection(p.error.value) && !WellFormed(Spelled(stream)[k]))
  {
    hide Encoded, FrontOf, Parse, WellFormed, LenientAccepts, LenientMessage, TouchObjection;
    ParseStep(arrived);
    SpelledAt(stream);
    if stream == [] || |arrived| < |stream[0]| {
      UnfinishedFront(stream, arrived);
    } else {
      var first, tail := stream[0], arrived[|stream[0]|..];
      assert arrived == first + tail;
      assert tail <= Concat(stream[1..]);
      EncodedFrontOf(first);
      FrontExtends(first, tail);
      EncodedParse(stream[1..], tail);
    }
  }

  lemma {:induction false} UnfinishedFront(stream: seq<seq<Byte>>, arrived: seq<Byte>)
    requires AllEncoded(stream, false) && arrived <= Concat(stream)
    requires stream == [] || |arrived| < |stream[0]|
    ensures FrontOf(arrived) == Incomplete
  {
    hide Encoded, Mtp1.ValidateHeader, Mtp1.Decode, WellFormed, TouchObjection;
    if |arrived| >= HEADER_SIZE {
      var first := stream[0];
      EncodedFrontOf(first);
      assert arrived == first[..|arrived|];
      SameHeader(arrived, first[|arrived|..]);
      assert arrived + first[|arrived|..] == first;
    }
  }

  /** What has gone out on the socket is the front of the epoch's messages. */
  lemma {:induction false} SocketIsFront(s: AgentState)
    ensures SocketBytes(s) <= Concat(s.wire + s.inFlight)
  {
    ConcatAppend(s.wire, s.inFlight);
    if s.inFlight != [] {
      assert Concat(s.inFlight) == s.inFlight[0] + Concat(s.inFlight[1..]);
    }
  }

  /** Whatever the framework reports, however callbacks and the sender thread interleave
      at safe moments, and however the bytes of a connection are cut and polled, neither
      the lifecycle nor the sequence check ever fires. The calls made are the first
      messages sent, in order, and a session can only throw for capacity. */
  lemma {:induction false} NeverOutOfSequence(threshold: U32, moves: seq<Move>, round: Rounding,
                                              log: seq<Emission>, events: seq<Event>)
    requires SafeRun(Booted(threshold), moves)
    requires Received(events) <= SocketBytes(DoAll(Booted(threshold), moves).agent)
    ensures var s, c := DoAll(Booted(threshold), moves).agent, RunEvents(round, log, events);
      && AllEncoded(s.wire + s.inFlight, false)
      && Messages(c.inputs) <= Parse(Received(events)).messages <= Spelled(s.wire + s.inFlight)
      && RunSession(round, c.inputs).error in {None, Some(TooManyContacts)}
  {
    hide DoAll, RunEvents, Received, SocketBytes, AllEncoded, Messages, Spelled, InLanguage, Parse, SafeRun, LockInv,
      RunSession, DeliversWellFormed, Offered, Stands, Fits;
    var f, c := DoAll(Booted(threshold), moves), RunEvents(round, log, events);
    var sent := f.agent.wire + f.agent.inFlight;
    LockRuns(threshold, moves);
    RunEncoded(threshold, moves, false);
    SentStream(f.agent, false);
    EncodedParse(sent, Received(events));
    CallsOffered(round, log, events);
    LanguagePrefix(Spelled(sent), Messages(c.inputs));
    AcceptedRuns(round, c.inputs);
  }

  lemma {:induction false} SentStream(s: AgentState, sane: bool)
    requires Contiguous(s.wire + s.inFlight) && EncodedInv(s, sane)
    ensures var sent := s.wire + s.inFlight;
      && AllEncoded(sent, sane) && AllEncoded(sent, false) && InLanguage(Spelled(sent))
      && SocketBytes(s) <= Concat(sent)
  {
    hide SocketBytes, Contiguous, Encoded, Spelled, InLanguage;
    var sent := s.wire + s.inFlight;
    assert AllEncoded(sent, sane);
    Relaxed(sent, sane);
    EpochInLanguage(sent);
    SocketIsFront(s);
  }

  /** From the Mac to the HID session. Take any run of the sender whose callbacks move at
      safe moments, as all do whose callbacks are atomic, through overflows, failed sends
      and reconnects, and let any part of what its current connection has put on the
      socket arrive in chunks of any size with polls between them. The connection stays
      on exactly when no chunk meets the buffer limit, the bytes raise no objection, and
      every frame fits the five slots. It can be closed for capacity, at the limit, or by
      a float or identifier the framework should not have reported, and never by sane
      touches. */
  lemma {:induction false} SenderAccepted(threshold: U32, moves: seq<Move>, round: Rounding,
                                          log: seq<Emission>, events: seq<Event>)
    requires SafeRun(Booted(threshold), moves)
    requires Received(events) <= SocketBytes(DoAll(Booted(threshold), moves).agent)
    ensures var c, p := RunEvents(round, log, events), Parse(Received(events));
      && (c.closed == None <==> ChunksFit(events) && p.error == None && Fits(Offered(events)))
      && (c.closed == None ==> Messages(c.inputs) == p.messages)
      && (c.closed.Some? ==>
           c.closed in {Some(TooManyContacts), Some(BufferLimit), Some(NotFinite), Some(DuplicateIdentifier)})
      && (p.error.Some? ==> exists i :: 0 <= i < |moves| && !SaneMove(moves[i]))
  {
    hide DoAll, RunEvents, Received, SocketBytes, AllEncoded, Messages, Spelled, InLanguage, Parse, SafeRun, LockInv,
      RunSession, DeliversWellFormed, Offered, Fits, ChunksFit, SaneMove;
    var s := DoAll(Booted(threshold), moves).agent;
    var sent, p := s.wire + s.inFlight, Parse(Received(events));
    NeverOutOfSequence(threshold, moves, round, log, events);
    LockRuns(threshold, moves);
    RunEncoded(threshold, moves, false);
    SentStream(s, false);
    EncodedParse(sent, Received(events));
    CallsOffered(round, log, events);
    StaysOpen(round, log, events);
    LanguagePrefix(Spelled(sent), p.messages);
    if forall i :: 0 <= i < |moves| ==> SaneMove(moves[i]) {
      RunEncoded(threshold, moves, true);
      SaneParse(s, Received(events));
    }
  }

  lemma {:induction false} SaneParse(s: AgentState, arrived: seq<Byte>)
    requires Contiguous(s.wire + s.inFlight) && EncodedInv(s, true) && arrived <= SocketBytes(s)
    ensures Parse(arrived).error == None
  {
    hide SocketBytes, Contiguous, EncodedInv, AllEncoded, Spelled, InLanguage, Parse, EncodeAll, WellFormed;
    var sent := s.wire + s.inFlight;
    SentStream(s, true);
    SpelledEncodes(sent);
    assert arrived + Concat(sent)[|arrived|..] == Concat(sent);
    PrefixParses(Spelled(sent), arrived, Concat(sent)[|arrived|..]);
  }
}
