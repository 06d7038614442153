/** Concrete runs: inputs on which the code does not do what its documents, or a
    reader, would expect. */
module Witnesses {
  import opened Words
  import opened Wire
  import opened Ioctl
  import opened Coordinates
  import opened Session
  import opened SessionRuns
  import opened Streams
  import opened Receiver
  import opened Connections
  import opened Driver
  import opened EndToEnd
  import opened LastFrame
  import opened AgentLaws
  import TouchFrame
  import Mtp1
  import S = Session

  function Empty(kind: MessageType, sequence: U32): Message { Message(kind, sequence, 0, 0, 0, []) }

  /** A finger at the origin. */
  function Finger(id: U32): Contact { Contact(id, 4, 7, 0, 0, 0, 0, 0, 0, 0, 0, 0) }

  function Fingers(from: nat, count: nat): (contacts: seq<Contact>)
    requires from + count < 0x1_0000_0000
    ensures |contacts| == count && forall i :: 0 <= i < count ==> contacts[i] == Finger(from + i)
  {
    if count == 0 then [] else Fingers(from, count - 1) + [Finger(from + count - 1)]
  }

  function FrameWith(sequence: U32, contacts: seq<Contact>): Message { Message(Frame, sequence, 0, 0, 0, contacts) }

  lemma {:induction false} FingersWellFormed(from: nat, count: nat, sequence: U32)
    requires from + count < 0x1_0000_0000 && count <= MAX_CONTACTS
    ensures WellFormed(FrameWith(sequence, Fingers(from, count)))
  {
    assert forall id: U32 :: KnownContact(Finger(id));
  }

  lemma {:induction false} FingerTips(from: nat, count: nat)
    requires from + count < 0x1_0000_0000
    ensures |TipIds(Fingers(from, count))| == count
    ensures forall id :: id in TipIds(Fingers(from, count)) <==> from <= id < from + count
  {
    if count > 0 {
      var n := count - 1;
      FingerTips(from, n);
      assert Fingers(from, count)[..n] == Fingers(from, n);
      FingerTip(from + n);
      hide TipId, Fingers;
      assert TipIds(Fingers(from, count)) == TipIds(Fingers(from, n)) + {from + n};
    }
  }

  lemma {:induction false} FingerTip(id: U32)
    ensures TipId(Finger(id)) == {id}
  {
  }

  /** `n` messages with no contacts, as an epoch begins: HELLO, RESET, FRAME, FRAME... */
  function Idle(n: nat): (messages: seq<Message>)
    requires n < 0x1_0000_0000
    ensures |messages| == n && forall i :: 0 <= i < n ==> messages[i] == Empty(EpochKind(i), i)
  {
    if n == 0 then [] else Idle(n - 1) + [Empty(EpochKind(n - 1), n - 1)]
  }

  lemma {:induction false} IdleFits(inputs: seq<Input>)
    requires forall i :: 0 <= i < |inputs| && inputs[i].Deliver? ==> inputs[i].message.contacts == []
    ensures Fits(inputs) && GripAfter(inputs).held == {}
  {
    if inputs != [] {
      var n := |inputs| - 1;
      assert inputs == inputs[..n] + [inputs[n]];
      IdleFits(inputs[..n]);
      FitsStep(inputs);
    }
  }

  lemma {:induction false} IdleLanguage(n: nat)
    requires n < 0x1_0000_0000
    ensures AllWellFormed(Idle(n)) && InLanguage(Idle(n)) && |EncodeAll(Idle(n))| == HEADER_SIZE * n
  {
    hide Idle, EncodeAll, WellFormed;
    EmptyWellFormed();
    assert forall i :: 0 <= i < n ==> WellFormed(Idle(n)[i]);
    EncodeLength(Idle(n));
  }

  function IdleBytes(n: nat): (bytes: seq<Byte>)
    requires n < 0x1_0000_0000
    ensures |bytes| == HEADER_SIZE * n
  {
    IdleLanguage(n);
    EncodeAll(Idle(n))
  }

  lemma {:induction false} EncodeLength(messages: seq<Message>)
    requires AllWellFormed(messages) && forall i :: 0 <= i < |messages| ==> messages[i].contacts == []
    ensures |EncodeAll(messages)| == HEADER_SIZE * |messages|
  {
    hide WellFormed, TouchFrame.MessageBytes;
    if messages != [] {
      EncodeLength(messages[1..]);
    }
  }

  /** Twenty-seven messages no check objects to, HELLO, RESET and empty frames: in one
      chunk of 972 bytes they close the connection at the buffer limit; in any chunks
      of at most 477 bytes all of them are processed. */
  lemma {:induction false} CoalescedRefused(round: Rounding, log: seq<Emission>, events: seq<Event>, now: int)
    requires SmallChunks(events) && Received(events) == IdleBytes(27)
    ensures RunEvents(round, log, [Chunk(IdleBytes(27), now)]).closed == Some(BufferLimit)
    ensures var c := RunEvents(round, log, events);
      c.closed == None && Messages(c.inputs) == Idle(27)
  {
    hide RunEvents, Parse, RunSession, EncodeAll, InLanguage, Fits, Messages, Received, DeliversWellFormed, Stands,
      ChunksFit, Offered;
    IdleLanguage(27);
    OneEvent(round, log, Chunk(IdleBytes(27), now));
    var c := RunEvents(round, log, events);
    assert Received(events) + [] == EncodeAll(Idle(27));
    LanguageReceived(round, log, events, Idle(27), []);
    NoLimit(round, log, events);
    StreamRoundTrip(Idle(27));
    StaysOpen(round, log, events);
    CallsOffered(round, log, events);
    if c.closed.Some? {
      LanguagePrefix(Idle(27), Messages(c.inputs));
      IdleCalls(c.inputs, Idle(27));
      AcceptedRuns(round, c.inputs);
    }
  }

  lemma {:induction false} OneEvent(round: Rounding, log: seq<Emission>, event: Event)
    ensures RunEvents(round, log, [event]) == EventStep(round, Fresh(log), event)
  {
    hide EventStep;
    assert [event][..0] == [];
    assert RunEvents(round, log, []) == Fresh(log);
  }

  lemma {:induction false} IdleCalls(inputs: seq<Input>, messages: seq<Message>)
    requires Messages(inputs) <= messages
    requires forall i :: 0 <= i < |messages| ==> messages[i].contacts == []
    ensures Fits(inputs)
  {
    CallsContacts(inputs, messages);
    IdleFits(inputs);
  }

  lemma {:induction false} CallsContacts(inputs: seq<Input>, messages: seq<Message>)
    requires Messages(inputs) <= messages
    requires forall i :: 0 <= i < |messages| ==> messages[i].contacts == []
    ensures forall i :: 0 <= i < |inputs| && inputs[i].Deliver? ==> inputs[i].message.contacts == []
  {
    if inputs != [] {
      var n := |inputs| - 1;
      CallsContacts(inputs[..n], messages);
      assert forall i :: 0 <= i < n ==> inputs[i] == inputs[..n][i];
      assert inputs[n].Deliver? ==> messages[|Messages(inputs[..n])|] == inputs[n].message;
    }
  }

  /** Five tips leave and another comes in the same frame. */
  function FiveThenOne(): seq<Input> {
    [Deliver(Empty(Hello, 0), 0), Deliver(Empty(Reset, 1), 0),
     Deliver(FrameWith(2, Fingers(0, 5)), 0), Deliver(FrameWith(3, Fingers(5, 1)), 8)]
  }

  /** A frame is refused for capacity although it has one tip. */
  lemma {:induction false} OneTipRefused(round: Rounding)
    ensures var inputs := FiveThenOne();
      && DeliversWellFormed(inputs)
      && RunSession(round, inputs[..3]).error == None
      && RunSession(round, inputs).error == Some(TooManyContacts)
      && |TipIds(inputs[3].message.contacts)| == 1
  {
    hide Fingers, TipIds, RunSession, WellFormed;
    var inputs := FiveThenOne();
    FingersWellFormed(0, 5, 2);
    FingersWellFormed(5, 1, 3);
    EmptyWellFormed();
    FiveHeld();
    AcceptedRuns(round, inputs);
    AcceptedRuns(round, inputs[..3]);
  }

  lemma {:induction false} EmptyWellFormed()
    ensures forall kind, sequence :: WellFormed(Empty(kind, sequence))
  {
  }

  lemma {:induction false} OneMore(inputs: seq<Input>, m: Message, now: int)
    ensures var more := inputs + [Deliver(m, now)];
      && Messages(more) == Messages(inputs) + [m]
      && GripAfter(more) == GripStep(GripAfter(inputs), Deliver(m, now))
      && (Fits(more) <==>
           Fits(inputs) && (m.kind == Frame ==> |GripAfter(inputs).held + TipIds(m.contacts)| <= SLOTS))
  {
    hide TipIds, GripStep;
    var more := inputs + [Deliver(m, now)];
    assert more[..|inputs|] == inputs;
    FitsStep(more);
  }

  lemma {:induction false} FiveHeld()
    ensures var inputs := FiveThenOne();
      && InLanguage(Messages(inputs)) && InLanguage(Messages(inputs[..3]))
      && Fits(inputs[..3]) && !Fits(inputs) && |TipIds(inputs[3].message.contacts)| == 1
  {
    hide Fingers, TipIds, Messages, GripAfter, Fits, InLanguage;
    var hello, reset := Empty(Hello, 0), Empty(Reset, 1);
    var five, one := FrameWith(2, Fingers(0, 5)), FrameWith(3, Fingers(5, 1));
    var first := [Deliver(hello, 0)];
    var second := first + [Deliver(reset, 0)];
    var third := second + [Deliver(five, 0)];
    NothingYet();
    assert [] + first == first;
    OneMore([], hello, 0);
    OneMore(first, reset, 0);
    OneMore(second, five, 0);
    OneMore(third, one, 8);
    assert FiveThenOne()[..3] == third && FiveThenOne() == third + [Deliver(one, 8)];
    assert [] + [hello] + [reset] + [five] == [hello, reset, five];
    assert [hello, reset, five] + [one] == [hello, reset, five, one];
    FiveLanguage(five, one);
    FingerTips(0, 5);
    FingerTips(5, 1);
    Apart(TipIds(five.contacts), TipIds(one.contacts));
    assert {} + TipIds(five.contacts) == TipIds(five.contacts);
  }

  lemma {:induction false} Apart(a: set<U32>, b: set<U32>)
    requires forall id :: id in a ==> id !in b
    ensures |a + b| == |a| + |b|
  {
    assert a * b == {};
  }

  lemma {:induction false} NothingYet()
    ensures Messages([]) == [] && GripAfter([]) == Grip({}, false, 0) && Fits([])
  {
  }

  lemma {:induction false} FiveLanguage(five: Message, one: Message)
    requires five.kind == one.kind == Frame && five.sequence == 2 && one.sequence == 3
    ensures InLanguage([Empty(Hello, 0), Empty(Reset, 1), five])
    ensures InLanguage([Empty(Hello, 0), Empty(Reset, 1), five, one])
  {
  }

  /** Bytes no header begins with. */
  function Junk(n: nat): (bytes: seq<Byte>)
    ensures |bytes| == n && forall i :: 0 <= i < n ==> bytes[i] == 0
  {
    if n == 0 then [] else Junk(n - 1) + [0]
  }

  lemma {:induction false} JunkRejected()
    ensures Parse(Junk(HEADER_SIZE)) == Parsed([], Junk(HEADER_SIZE), Some(InvalidMagic))
  {
    hide Junk;
    ParseStep(Junk(HEADER_SIZE));
    FrontCases(Junk(HEADER_SIZE));
  }

  /** The same 72 bytes, a HELLO and then a malformed header: in two chunks the HELLO is
      processed before the connection is closed, in one it is lost. */
  lemma {:induction false} LostWithJunk(round: Rounding, log: seq<Emission>, now: int)
    ensures var hello, junk := IdleBytes(1), Junk(HEADER_SIZE);
      var apart, whole := [Chunk(hello, now), Chunk(junk, now)], [Chunk(hello + junk, now)];
      && Received(apart) == Received(whole)
      && RunEvents(round, log, apart).closed == RunEvents(round, log, whole).closed == Some(InvalidMagic)
      && Messages(RunEvents(round, log, apart).inputs) == Idle(1)
      && Messages(RunEvents(round, log, whole).inputs) == []
  {
    hide EncodeAll, Parse, Junk, IdleBytes, Idle, RunEvents, Call, Received, WellFormed;
    var hello, junk := IdleBytes(1), Junk(HEADER_SIZE);
    var first := Chunk(hello, now);
    HelloAlone();
    JunkRejected();
    ParseExtends(hello, junk);
    assert [] + junk == junk && [] + hello == hello && [] + (hello + junk) == hello + junk;
    assert Idle(1) + [] == Idle(1);
    OneEvent(round, log, Chunk(hello + junk, now));
    OneEvent(round, log, first);
    HelloProcessed(round, log, now);
    TwoEvents(round, log, first, Chunk(junk, now));
    TwoReceived(hello, junk, now);
  }

  lemma {:induction false} HelloAlone()
    ensures Parse(IdleBytes(1)) == Parsed(Idle(1), [], None)
    ensures Idle(1) == [Empty(Hello, 0)]
  {
    hide Parse, EncodeAll;
    IdleLanguage(1);
    StreamRoundTrip(Idle(1));
    assert Idle(0) == [];
  }

  lemma {:induction false} HelloProcessed(round: Rounding, log: seq<Emission>, now: int)
    ensures var c := EventStep(round, Fresh(log), Chunk(IdleBytes(1), now));
      c.closed == None && c.buffer == [] && Messages(c.inputs) == Idle(1)
  {
    hide Parse, IdleBytes, Idle, FrameStep, TipIds;
    HelloAlone();
    var hello := Empty(Hello, 0);
    assert [] + IdleBytes(1) == IdleBytes(1);
    var c := Fresh(log);
    assert DeliverAll(round, c, [], now) == c;
    assert [hello][..0] == [];
    assert DeliverAll(round, c, [hello], now) == Call(round, c, Deliver(hello, now));
    OneMore([], hello, now);
    NothingYet();
    assert c.inputs + [Deliver(hello, now)] == [] + [Deliver(hello, now)];
  }

  lemma {:induction false} TwoEvents(round: Rounding, log: seq<Emission>, first: Event, second: Event)
    ensures RunEvents(round, log, [first, second]) == EventStep(round, RunEvents(round, log, [first]), second)
  {
    hide EventStep;
    assert [first, second][..1] == [first];
  }

  lemma {:induction false} TwoReceived(left: seq<Byte>, right: seq<Byte>, now: int)
    ensures Received([Chunk(left, now), Chunk(right, now)]) == left + right == Received([Chunk(left + right, now)])
  {
    hide Received;
    assert [Chunk(left, now), Chunk(right, now)] == [Chunk(left, now)] + [Chunk(right, now)];
    OneReceived(left, now);
    OneReceived(right, now);
    OneReceived(left + right, now);
    ReceivedJoin([Chunk(left, now)], [Chunk(right, now)]);
  }

  lemma {:induction false} OneReceived(bytes: seq<Byte>, now: int)
    ensures Received([Chunk(bytes, now)]) == bytes
  {
    assert [Chunk(bytes, now)][..0] == [];
    assert Received([]) + bytes == bytes;
  }

  /** HELLO, RESET and a frame with one finger, received at time 0. */
  function OneFinger(): seq<Message> {
    [Empty(Hello, 0), Empty(Reset, 1), FrameWith(2, Fingers(7, 1))]
  }

  function OneFingerBytes(): (bytes: seq<Byte>)
    ensures |bytes| <= BUFFER_LIMIT
  {
    OneFingerProper();
    EncodeAll(OneFinger())
  }

  lemma {:induction false} OneFingerProper()
    ensures AllWellFormed(OneFinger()) && |EncodeAll(OneFinger())| <= BUFFER_LIMIT
  {
    hide Fingers, WellFormed, TouchFrame.MessageBytes;
    EmptyWellFormed();
    FingersWellFormed(7, 1, 2);
    var all := OneFinger();
    assert all[1..] == [all[1], all[2]] && all[1..][1..] == [all[2]] && all[1..][1..][1..] == [];
  }

  function FingerDown(): seq<Event> { [Chunk(OneFingerBytes(), 0)] }

  /** The next frame, of ten contacts: 476 bytes. */
  function FullFrame(): (bytes: seq<Byte>)
    ensures |bytes| == MAX_MESSAGE_SIZE
  {
    TouchFrame.MessageBytes(FrameWith(3, Fingers(0, 10)))
  }

  /** The last report shows the finger on its slot. */
  ghost predicate SeesFinger(reports: seq<HidReport>, slots: map<U32, nat>) {
    && reports != [] && |reports[|reports| - 1].contacts| == SLOTS
    && 7 in slots && slots[7] < SLOTS && TipDown(reports[|reports| - 1], slots[7])
  }

  /** A finger held down for as long as a peer likes. After one frame at time 0, the
      next frame trickles in, in any chunks at any times, all but its last byte: as long
      as some bytes come before each receive times out, nothing is released and the host
      still sees the finger, although from 200 ms on any poll would release it. */
  lemma {:induction false} HeldThroughTrickle(round: Rounding, start: U16, trickle: seq<Event>, k: nat)
    requires k < MAX_MESSAGE_SIZE && Received(trickle) == FullFrame()[..k]
    requires forall i :: 0 <= i < |trickle| ==> trickle[i].Chunk?
    ensures var c, later := RunEvents(round, [], FingerDown()), RunEvents(round, [], FingerDown() + trickle);
      && later == c.(buffer := FullFrame()[..k]) && later.closed == None
      && later.session.lastFrameTime == 0 && SeesFinger(Submitted(start, later.log), later.session.slots)
      && forall now :: now >= FRAME_TIMEOUT_MS ==> S.OnTimeout(round, later.session, now).outcome.Report?
  {
    hide RunEvents, Parse, FullFrame, FingerDown, Received, Submitted, SeesFinger, S.OnTimeout;
    FingerHeld(round, start);
    FullFrameFront(k);
    TrickleHolds(round, [], FingerDown(), trickle);
    assert [] + FullFrame()[..k] == FullFrame()[..k];
  }

  lemma {:induction false} FullFrameFront(k: nat)
    requires k < MAX_MESSAGE_SIZE
    ensures Parse(FullFrame()[..k]).messages == [] && Parse(FullFrame()[..k]).error == None
  {
    hide Parse, Fingers, WellFormed, TouchFrame.MessageBytes;
    var frame := FrameWith(3, Fingers(0, 10));
    FingersWellFormed(0, 10, 3);
    var front, back := FullFrame()[..k], FullFrame()[k..];
    assert [frame][1..] == [] && EncodeAll([frame]) == FullFrame() + [] == FullFrame();
    assert front + back == FullFrame();
    PrefixParses([frame], front, back);
    ParseConsumes(front);
    OneOrNone(Parse(front).messages, frame);
  }

  lemma {:induction false} OneOrNone(messages: seq<Message>, m: Message)
    requires messages <= [m]
    ensures messages == [] || messages == [m]
  {
  }

  lemma {:induction false} FingerHeld(round: Rounding, start: U16)
    ensures var c := RunEvents(round, [], FingerDown());
      && c.closed == None && c.buffer == []
      && c.session.lastFrameTime == 0 && SeesFinger(Submitted(start, c.log), c.session.slots)
      && forall now :: now >= FRAME_TIMEOUT_MS ==> S.OnTimeout(round, c.session, now).outcome.Report?
  {
    hide RunEvents, Parse, FingerDown, Fingers, Received, Submitted, TipDown, S.OnTimeout, RunSession, Offered, TipIds,
      Messages, InLanguage, Fits, ChunksFit, DeliversWellFormed, GripAfter, Synced, FrameShown, Serve;
    FingerOffered();
    FingerTips(7, 1);
    StaysOpen(round, [], FingerDown());
    EventsFollow(round, [], FingerDown());
    OfferedMessages(FingerDown());
    AcceptedRuns(round, Offered(FingerDown()));
    var c := RunEvents(round, [], FingerDown());
    FingerShown(round, start, c);
    forall now | now >= FRAME_TIMEOUT_MS
      ensures S.OnTimeout(round, c.session, now).outcome.Report?
    {
      PollReleases(round, c.session, now);
    }
  }

  lemma {:induction false} PollReleases(round: Rounding, st: SessionState, now: int)
    requires 7 in st.slots && now - st.lastFrameTime >= FRAME_TIMEOUT_MS
    ensures S.OnTimeout(round, st, now).outcome.Report?
  {
    hide ReleaseFrame;
  }

  predicate EndsInFinger(inputs: seq<Input>) {
    inputs != [] && inputs[|inputs| - 1] == Deliver(FrameWith(2, Fingers(7, 1)), 0)
  }

  lemma {:induction false} FingerShown(round: Rounding, start: U16, c: Connection)
    requires c == RunEvents(round, [], FingerDown()) && c.closed == None
    requires EndsInFinger(c.inputs)
    ensures SeesFinger(Submitted(start, c.log), c.session.slots)
  {
    hide RunEvents, FingerDown, Submitted, TipDown, FrameShown, Fingers;
    assert Serve(round, []) == [];
    LastFrameShown(round, start, [], FingerDown());
    var reports := Submitted(start, c.log);
    FingerIn(round, reports[|reports| - 1], c.session.slots);
  }

  lemma {:induction false} FingerIn(round: Rounding, report: HidReport, slots: map<U32, nat>)
    requires FrameShown(round, report, FrameWith(2, Fingers(7, 1)), slots)
    ensures |report.contacts| == SLOTS && 7 in slots && slots[7] < SLOTS && TipDown(report, slots[7])
  {
    hide TipDown, TipIds, TipsDown, ButtonDown, ButtonFlag, ToLogical, ToLogicalY;
    var m := FrameWith(2, Fingers(7, 1));
    assert m.contacts[0] == Finger(7) && HasTip(Finger(7));
  }

  /** What the chunk offers the session. */
  lemma {:induction false} FingerOffered()
    ensures ChunksFit(FingerDown()) && Parse(Received(FingerDown())) == Parsed(OneFinger(), [], None)
    ensures InLanguage(OneFinger()) && Fits(Offered(FingerDown()))
    ensures EndsInFinger(Offered(FingerDown()))
    ensures GripAfter(Offered(FingerDown())) == Grip(TipIds(Fingers(7, 1)), false, 0)
  {
    hide Parse, Fingers, Fits, GripAfter, TipIds, EncodeAll, WellFormed;
    var all := OneFinger();
    OneFingerProper();
    StreamRoundTrip(all);
    FingerReceived();
    ThreeDelivers(all[0], all[1], all[2]);
    FingerFits(all[2]);
  }

  lemma {:induction false} ThreeDelivers(a: Message, b: Message, c: Message)
    ensures Delivers([a, b, c], 0) == [Deliver(a, 0)] + [Deliver(b, 0)] + [Deliver(c, 0)]
  {
    assert [a, b, c][..2] == [a, b] && [a, b][..1] == [a] && [a][..0] == [];
    assert Delivers([a], 0) == [Deliver(a, 0)];
    assert Delivers([a, b], 0) == [Deliver(a, 0)] + [Deliver(b, 0)];
  }

  lemma {:induction false} FingerReceived()
    ensures Received(FingerDown()) == OneFingerBytes() && ChunksFit(FingerDown())
    ensures Offered(FingerDown()) == Delivers(Parse(OneFingerBytes()).messages, 0)
  {
    hide Parse, OneFingerBytes, Delivers, Mtp1.ValidateHeader;
    NothingParsed();
    assert FingerDown()[..0] == [];
    assert [] + OneFingerBytes() == OneFingerBytes();
    assert Received([]) == [] && Offered([]) == [];
    assert Residue(FingerDown(), 0) == [];
  }

  lemma {:induction false} FingerFits(m: Message)
    requires m == FrameWith(2, Fingers(7, 1))
    ensures var calls := [Deliver(Empty(Hello, 0), 0)] + [Deliver(Empty(Reset, 1), 0)] + [Deliver(m, 0)];
      Fits(calls) && GripAfter(calls) == Grip(TipIds(m.contacts), false, 0)
    ensures InLanguage(OneFinger())
  {
    hide Fingers, Fits, GripAfter, TipIds, Messages;
    var first := [Deliver(Empty(Hello, 0), 0)];
    var second := first + [Deliver(Empty(Reset, 1), 0)];
    NothingYet();
    assert [] + first == first;
    OneMore([], Empty(Hello, 0), 0);
    OneMore(first, Empty(Reset, 1), 0);
    OneMore(second, m, 0);
    FingerTips(7, 1);
    assert {} + TipIds(m.contacts) == TipIds(m.contacts);
  }
}
