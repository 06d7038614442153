/** One connection against the one-shot parse of what it received: which calls
    reach the session, exactly when the connection stays open, and what is lost
    when it does not. */
module Connections {
  import opened Words
  import opened Wire
  import opened Coordinates
  import opened Session
  import opened SessionRuns
  import opened Streams
  import opened Receiver
  import Mtp1

  /** Everything received, in order. */
  function Received(events: seq<Event>): seq<Byte> {
    if events == [] then []
    else
      var n := |events| - 1;
      Received(events[..n]) + match events[n] case Chunk(bytes, _) => bytes case TimedOut(_) => []
  }

  /** What the decoder has in hand before event `n`. */
  function Residue(events: seq<Event>, n: nat): seq<Byte>
    requires n <= |events|
  {
    Parse(Received(events[..n])).rest
  }

  predicate ChunkFits(events: seq<Event>, n: nat)
    requires n < |events|
  {
    events[n].Chunk? ==> |Residue(events, n)| + |events[n].bytes| <= 952
  }

  /** No chunk meets the buffer limit. */
  predicate ChunksFit(events: seq<Event>) {
    forall n :: 0 <= n < |events| ==> ChunkFits(events, n)
  }

  function Delivers(messages: seq<Message>, now: int): seq<Input> {
    if messages == [] then []
    else Delivers(messages[..|messages| - 1], now) + [Deliver(messages[|messages| - 1], now)]
  }

  /** The calls the events make to a session that never throws. */
  function Offered(events: seq<Event>): seq<Input> {
    if events == [] then []
    else
      var n := |events| - 1;
      Offered(events[..n]) + Calls(Residue(events, n), events[n])
  }

  /** The calls one event makes, given what the decoder has in hand. */
  function Calls(residue: seq<Byte>, event: Event): seq<Input> {
    match event
    case TimedOut(now) => [Poll(now)]
    case Chunk(bytes, now) => Delivers(Parse(residue + bytes).messages, now)
  }

  /** The connection is open and has made every call it was offered. */
  ghost predicate IsOpen(round: Rounding, c: Connection, events: seq<Event>) {
    var p := Parse(Received(events));
    && c.closed == None && ChunksFit(events) && p.error == None
    && c.buffer == p.rest && c.inputs == Offered(events)
    && RunSession(round, c.inputs) == Run(c.session, None)
  }

  /** The connection was open until event `n`, a chunk that ended it: at the buffer
      limit or at an objection of the decoder no call of that chunk was made; at a
      throw the calls of the chunk were made up to the one that threw. */
  ghost predicate ClosedAt(round: Rounding, c: Connection, events: seq<Event>, n: nat) {
    && n < |events| && events[n].Chunk?
    && ChunksFit(events[..n]) && Parse(Received(events[..n])).error == None
    && RunSession(round, Offered(events[..n])).error == None
    && var p := Parse(Residue(events, n) + events[n].bytes);
    if !ChunkFits(events, n) then c.closed == Some(BufferLimit) && c.inputs == Offered(events[..n])
    else if p.error.Some? then c.closed == p.error && c.inputs == Offered(events[..n])
    else
      && c.closed.Some? && c.closed == RunSession(round, c.inputs).error
      && c.inputs <= Offered(events[..n + 1]) && |c.inputs| > |Offered(events[..n])|
      && RunSession(round, c.inputs[..|c.inputs| - 1]).error == None
  }

  /** Where a connection stands after any events: open with every offered call
      made, or ended by one event in one of three ways. */
  ghost predicate Follows(round: Rounding, c: Connection, events: seq<Event>) {
    && RunSession(round, c.inputs).state == c.session
    && if c.closed == None then IsOpen(round, c, events) else exists n: nat :: ClosedAt(round, c, events, n)
  }

  lemma {:induction false} ReceivedMore(events: seq<Event>, event: Event)
    ensures var bytes := match event case Chunk(chunk, _) => chunk case TimedOut(_) => [];
      var residue := Parse(Received(events)).rest;
      && Received(events + [event]) == Received(events) + bytes
      && Residue(events + [event], |events|) == residue
      && Offered(events + [event]) == Offered(events) + Calls(residue, event)
  {
    hide Parse, Calls;
    assert (events + [event])[..|events|] == events;
  }

  lemma {:induction false} PrefixFits(events: seq<Event>, later: seq<Event>, n: nat)
    requires events <= later && n < |events|
    ensures ChunkFits(events, n) <==> ChunkFits(later, n)
  {
    hide Parse;
    assert events[..n] == later[..n];
  }

  lemma {:induction false} FitsMore(events: seq<Event>, event: Event)
    ensures ChunksFit(events + [event]) <==> ChunksFit(events) && ChunkFits(events + [event], |events|)
  {
    hide ChunkFits;
    forall n | 0 <= n < |events|
      ensures ChunkFits(events, n) <==> ChunkFits(events + [event], n)
    {
      PrefixFits(events, events + [event], n);
    }
  }

  lemma {:induction false} CallFollows(round: Rounding, c: Connection, input: Input)
    requires RunSession(round, c.inputs) == Run(c.session, None)
    ensures var later := Call(round, c, input);
      && RunSession(round, later.inputs) == Run(later.session, later.closed)
      && later.inputs == c.inputs + [input] && later.buffer == c.buffer
  {
    hide StepInput;
    assert (c.inputs + [input])[..|c.inputs|] == c.inputs;
  }

  lemma {:induction false} DeliverFollows(round: Rounding, c: Connection, messages: seq<Message>, now: int)
    requires c.closed == None && RunSession(round, c.inputs) == Run(c.session, None)
    ensures var later := DeliverAll(round, c, messages, now);
      && later.buffer == c.buffer
      && RunSession(round, later.inputs) == Run(later.session, later.closed)
      && later.inputs <= c.inputs + Delivers(messages, now)
      && (later.closed == None ==> later.inputs == c.inputs + Delivers(messages, now))
      && (later.closed.Some? ==>
           |later.inputs| > |c.inputs| && RunSession(round, later.inputs[..|later.inputs| - 1]).error == None)
  {
    hide Call, RunSession;
    if messages == [] {
      assert c.inputs + [] == c.inputs;
    } else {
      var n := |messages| - 1;
      DeliverFollows(round, c, messages[..n], now);
      var before := DeliverAll(round, c, messages[..n], now);
      var early := Delivers(messages[..n], now);
      assert c.inputs + (early + [Deliver(messages[n], now)]) == c.inputs + early + [Deliver(messages[n], now)];
      if before.closed == None {
        CallFollows(round, before, Deliver(messages[n], now));
        var later := Call(round, before, Deliver(messages[n], now));
        assert later.inputs[..|later.inputs| - 1] == before.inputs;
      }
    }
  }

  /** Every run of a connection, whatever arrives and however it is cut. */
  lemma {:induction false} EventsFollow(round: Rounding, log: seq<Emission>, events: seq<Event>)
    ensures Follows(round, RunEvents(round, log, events), events)
  {
    hide Follows, EventStep;
    if events == [] {
      NothingFollows(round, log);
    } else {
      var n := |events| - 1;
      EventsFollow(round, log, events[..n]);
      assert events[..n] + [events[n]] == events;
      EventFollows(round, RunEvents(round, log, events[..n]), events[..n], events[n]);
    }
  }

  lemma {:induction false} NothingFollows(round: Rounding, log: seq<Emission>)
    ensures Follows(round, Fresh(log), [])
  {
    hide FrontOf;
    ParseStep([]);
    EmptyFront();
  }

  lemma {:induction false} EventFollows(round: Rounding, c: Connection, events: seq<Event>, event: Event)
    requires Follows(round, c, events)
    ensures Follows(round, EventStep(round, c, event), events + [event])
  {
    hide Parse, RunSession, Received, Offered, ChunksFit, Call, DeliverAll, ClosedAt, IsOpen;
    if c.closed.Some? {
      var n: nat :| ClosedAt(round, c, events, n);
      ClosedStays(round, c, events, [event], n);
    } else if event.TimedOut? {
      PollFollows(round, c, events, event.now);
    } else {
      ChunkFollows(round, c, events, event.bytes, event.now);
    }
  }

  lemma {:induction false} ClosedStays(round: Rounding, c: Connection, events: seq<Event>, more: seq<Event>, n: nat)
    requires ClosedAt(round, c, events, n)
    ensures ClosedAt(round, c, events + more, n)
  {
    hide Parse, RunSession, Received, Offered, ChunksFit, ChunkFits;
    PrefixFits(events, events + more, n);
    assert (events + more)[..n] == events[..n] && (events + more)[..n + 1] == events[..n + 1];
  }

  lemma {:induction false} PollFollows(round: Rounding, c: Connection, events: seq<Event>, now: int)
    requires c.closed == None && Follows(round, c, events)
    ensures Follows(round, EventStep(round, c, TimedOut(now)), events + [TimedOut(now)])
  {
    hide Parse, RunSession, Received, Offered, ChunksFit, Call, Residue, OnTimeout;
    var later := Call(round, c, Poll(now));
    CallFollows(round, c, Poll(now));
    PollReturns(round, c, now);
    ReceivedMore(events, TimedOut(now));
    FitsMore(events, TimedOut(now));
    assert Received(events) + [] == Received(events);
  }

  lemma {:induction false} PollReturns(round: Rounding, c: Connection, now: int)
    ensures Call(round, c, Poll(now)).closed == None
  {
    hide ReleaseFrame;
  }

  lemma {:induction false} ChunkFollows(round: Rounding, c: Connection, events: seq<Event>, bytes: seq<Byte>, now: int)
    requires c.closed == None && Follows(round, c, events)
    ensures Follows(round, EventStep(round, c, Chunk(bytes, now)), events + [Chunk(bytes, now)])
  {
    hide Parse, RunSession, Received, Offered, ChunksFit, DeliverAll, Residue;
    var all, n := events + [Chunk(bytes, now)], |events|;
    var later := EventStep(round, c, Chunk(bytes, now));
    ReceivedMore(events, Chunk(bytes, now));
    FitsMore(events, Chunk(bytes, now));
    ParseExtends(Received(events), bytes);
    assert all[..n] == events && all[..n + 1] == all;
    var p := Parse(c.buffer + bytes);
    if ChunkFits(all, n) && p.error == None {
      DeliverFollows(round, c.(buffer := p.rest), p.messages, now);
    }
    assert later.closed.Some? ==> ClosedAt(round, later, all, n);
  }

  /** What is offered is the one-shot parse, message by message. */
  lemma {:induction false} OfferedMessages(events: seq<Event>)
    ensures Messages(Offered(events)) == Parse(Received(events)).messages
    ensures DeliversWellFormed(Offered(events))
  {
    hide Parse, WellFormed, Messages, DeliversWellFormed;
    if events == [] {
      NothingParsed();
    } else {
      var n := |events| - 1;
      OfferedMessages(events[..n]);
      assert events[..n] + [events[n]] == events;
      ReceivedMore(events[..n], events[n]);
      CallsMade(Residue(events, n), events[n]);
      MessagesJoin(Offered(events[..n]), Calls(Residue(events, n), events[n]));
      var early := Received(events[..n]);
      match events[n] {
        case Chunk(bytes, _) => ParseExtends(early, bytes);
        case TimedOut(_) =>
          assert early + [] == early;
          assert Messages(Offered(events[..n])) + [] == Messages(Offered(events[..n]));
      }
    }
  }

  lemma {:induction false} NothingParsed()
    ensures Parse([]) == Parsed([], [], None) && Messages([]) == [] && DeliversWellFormed([])
  {
    hide FrontOf;
    ParseStep([]);
    EmptyFront();
  }

  lemma {:induction false} CallsMade(residue: seq<Byte>, event: Event)
    ensures var calls := Calls(residue, event);
      && DeliversWellFormed(calls)
      && (event.TimedOut? ==> Messages(calls) == [])
      && (event.Chunk? ==> Messages(calls) == Parse(residue + event.bytes).messages)
  {
    hide Parse, WellFormed;
    if event.Chunk? {
      ParseConsumes(residue + event.bytes);
      DeliversCalls(Parse(residue + event.bytes).messages, event.now);
    } else {
      assert [Poll(event.now)][..0] == [];
    }
  }

  lemma {:induction false} DeliversCalls(messages: seq<Message>, now: int)
    requires AllWellFormed(messages)
    ensures Messages(Delivers(messages, now)) == messages && DeliversWellFormed(Delivers(messages, now))
    ensures |Delivers(messages, now)| == |messages|
  {
    hide WellFormed, Messages;
    NothingParsed();
    if messages != [] {
      var n := |messages| - 1;
      DeliversCalls(messages[..n], now);
      OneMoreCall(Delivers(messages[..n], now), messages[n], now);
    }
  }

  lemma {:induction false} OneMoreCall(inputs: seq<Input>, m: Message, now: int)
    ensures Messages(inputs + [Deliver(m, now)]) == Messages(inputs) + [m]
  {
    assert (inputs + [Deliver(m, now)])[..|inputs|] == inputs;
  }

  lemma {:induction false} MessagesJoin(left: seq<Input>, right: seq<Input>)
    ensures Messages(left + right) == Messages(left) + Messages(right)
    ensures DeliversWellFormed(left) && DeliversWellFormed(right) ==> DeliversWellFormed(left + right)
    decreases |right|
  {
    hide WellFormed;
    if right == [] {
      assert left + right == left;
    } else {
      var n := |right| - 1;
      MessagesJoin(left, right[..n]);
      assert (left + right)[..|left + right| - 1] == left + right[..n];
    }
  }

  lemma {:induction false} MessagesPrefix(early: seq<Input>, inputs: seq<Input>)
    requires early <= inputs
    ensures Messages(early) <= Messages(inputs)
    ensures DeliversWellFormed(inputs) ==> DeliversWellFormed(early)
  {
    hide WellFormed;
    MessagesJoin(early, inputs[|early|..]);
    assert early + inputs[|early|..] == inputs;
    assert forall i :: 0 <= i < |early| ==> early[i] == inputs[i];
  }

  lemma {:induction false} ReceivedPrefix(events: seq<Event>, n: nat)
    requires n <= |events|
    ensures Received(events[..n]) <= Received(events) && Offered(events[..n]) <= Offered(events)
    decreases |events| - n
  {
    hide Received, Offered, Parse, Calls;
    if n < |events| {
      ReceivedMore(events[..n], events[n]);
      assert events[..n + 1] == events[..n] + [events[n]];
      ReceivedPrefix(events, n + 1);
    } else {
      assert events[..n] == events;
    }
  }

  /** The bytes up to event `n` parse on from what was in hand. */
  lemma {:induction false} ParseThrough(events: seq<Event>, n: nat)
    requires n < |events| && events[n].Chunk?
    ensures var p := Parse(Residue(events, n) + events[n].bytes);
      && Parse(Received(events[..n + 1])).messages == Parse(Received(events[..n])).messages + p.messages
      && Parse(Received(events[..n + 1])).error == p.error
      && (p.error.Some? ==> Parse(Received(events)).error == p.error)
  {
    hide Parse, Received;
    ReceivedMore(events[..n], events[n]);
    assert events[..n + 1] == events[..n] + [events[n]];
    ParseExtends(Received(events[..n]), events[n].bytes);
    ReceivedPrefix(events, n + 1);
    var some, all := Received(events[..n + 1]), Received(events);
    if Parse(some).error.Some? {
      StuckParse(some, all[|some|..]);
      assert some + all[|some|..] == all;
    }
  }

  /** A connection is open exactly when no chunk met the limit, the bytes raised no
      objection, the messages are in the session's language, and every FRAME fits
      the five slots. It has then processed every message that arrived whole. */
  lemma {:induction false} StaysOpen(round: Rounding, log: seq<Emission>, events: seq<Event>)
    ensures var c, p := RunEvents(round, log, events), Parse(Received(events));
      && (c.closed == None <==>
           ChunksFit(events) && p.error == None && InLanguage(p.messages) && Fits(Offered(events)))
      && (c.closed == None ==> c.inputs == Offered(events) && Messages(c.inputs) == p.messages)
  {
    hide RunEvents, Parse, RunSession, Received, Offered, ChunksFit, InLanguage, Fits, DeliversWellFormed, ClosedAt,
      Messages, Stands;
    var c := RunEvents(round, log, events);
    EventsFollow(round, log, events);
    OfferedMessages(events);
    AcceptedRuns(round, Offered(events));
    if c.closed.Some? {
      var n: nat :| ClosedAt(round, c, events, n);
      ClosedForGood(round, c, events, n);
    }
  }

  lemma {:induction false} ClosedForGood(round: Rounding, c: Connection, events: seq<Event>, n: nat)
    requires ClosedAt(round, c, events, n)
    ensures !ChunksFit(events) || Parse(Received(events)).error.Some? || RunSession(round, Offered(events)).error.Some?
  {
    hide Parse, RunSession, Received, Offered, ChunkFits;
    ParseThrough(events, n);
    if RunSession(round, c.inputs).error.Some? && c.inputs <= Offered(events[..n + 1]) {
      ReceivedPrefix(events, n + 1);
      ThrownStays(round, c.inputs, Offered(events));
    }
  }

  /** How a connection can end: at the limit, by an objection of the decoder, or by
      a throw of the session, which is never one of the decoder's. */
  lemma {:induction false} HowClosed(round: Rounding, c: Connection, events: seq<Event>, n: nat)
    requires ClosedAt(round, c, events, n)
    ensures c.closed == Some(BufferLimit) <==> !ChunkFits(events, n)
    ensures c.closed.Some? && OwnError(c.closed.value) <==> c.closed == RunSession(round, c.inputs).error
    ensures !(c.closed.Some? && OwnError(c.closed.value)) ==> RunSession(round, c.inputs).error == None
  {
    hide Parse, RunSession, Received, Offered, ChunkFits, ChunksFit;
    SessionThrows(round, c.inputs);
    ParseStops(Residue(events, n) + events[n].bytes);
    DecoderObjects(Residue(events, n) + events[n].bytes);
  }

  lemma {:induction false} DecoderObjects(bytes: seq<Byte>)
    ensures var error := Parse(bytes).error;
      error.Some? ==> !OwnError(error.value)
    decreases |bytes|
  {
    hide FrontOf, Parse, OwnError;
    ParseStep(bytes);
    FrontObjects(bytes);
    if FrontOf(bytes).Complete? {
      DecoderObjects(bytes[FrontOf(bytes).length..]);
    }
  }

  lemma {:induction false} FrontObjects(bytes: seq<Byte>)
    ensures FrontOf(bytes).Malformed? ==> !OwnError(FrontOf(bytes).error)
  {
    hide Mtp1.ContactsError, GetU16, GetU32;
    if |bytes| >= HEADER_SIZE && Mtp1.ValidateHeader(bytes).Success? {
      var length := Mtp1.ValidateHeader(bytes).value;
      if length <= |bytes| {
        SameHeader(bytes[..length], bytes[length..]);
        assert bytes == bytes[..length] + bytes[length..];
        Mtp1.ContactsErrorKinds(bytes[..length], GetU16(bytes[..length], 16));
      }
    }
  }

  /** What a connection that ended has lost. At the limit or at an objection no
      message completed by the last chunk was processed, so nothing is lost exactly
      when that chunk completed none; at a throw every message up to the one that
      threw was processed and none after it. */
  lemma {:induction false} LostMessages(round: Rounding, c: Connection, events: seq<Event>, n: nat)
    requires ClosedAt(round, c, events, n)
    ensures var done, whole := Messages(c.inputs), Parse(Received(events[..n + 1])).messages;
      var early := Parse(Received(events[..n])).messages;
      if OwnError(c.closed.value) then
        && early < done <= whole && c.closed == RunSession(round, c.inputs).error
        && Messages(c.inputs[..|c.inputs| - 1]) == done[..|done| - 1]
        && RunSession(round, c.inputs[..|c.inputs| - 1]).error == None
      else
        && done == early
        && (done == whole <==> Parse(Residue(events, n) + events[n].bytes).messages == [])
  {
    hide Parse, RunSession, Received, Offered, ChunkFits, ChunksFit, Messages, DeliversWellFormed, OwnError;
    HowClosed(round, c, events, n);
    ParseThrough(events, n);
    OfferedMessages(events[..n]);
    if OwnError(c.closed.value) {
      OfferedThrough(events, n);
      ParseConsumes(Residue(events, n) + events[n].bytes);
      ThrewInside(Offered(events[..n]), Parse(Residue(events, n) + events[n].bytes).messages, events[n].now, c.inputs);
    }
  }

  lemma {:induction false} OfferedThrough(events: seq<Event>, n: nat)
    requires n < |events| && events[n].Chunk?
    ensures Offered(events[..n + 1]) == Offered(events[..n])
      + Delivers(Parse(Residue(events, n) + events[n].bytes).messages, events[n].now)
  {
    hide Parse, Received, Delivers, Offered;
    ReceivedMore(events[..n], events[n]);
    assert events[..n + 1] == events[..n] + [events[n]];
  }

  lemma {:induction false} ThrewInside(early: seq<Input>, messages: seq<Message>, now: int, inputs: seq<Input>)
    requires AllWellFormed(messages)
    requires inputs <= early + Delivers(messages, now) && |early| < |inputs|
    ensures var k := |inputs| - |early|;
      && k <= |messages|
      && Messages(inputs) == Messages(early) + messages[..k]
      && Messages(inputs[..|inputs| - 1]) == Messages(early) + messages[..k - 1]
  {
    hide Messages, WellFormed, Delivers;
    DeliversCalls(messages, now);
    var k := |inputs| - |early|;
    DeliversPrefix(messages, now, k);
    DeliversPrefix(messages, now, k - 1);
    DeliversCalls(messages[..k], now);
    DeliversCalls(messages[..k - 1], now);
    assert inputs == early + Delivers(messages[..k], now);
    assert inputs[..|inputs| - 1] == early + Delivers(messages[..k - 1], now);
    MessagesJoin(early, Delivers(messages[..k], now));
    MessagesJoin(early, Delivers(messages[..k - 1], now));
  }

  lemma {:induction false} DeliversPrefix(messages: seq<Message>, now: int, k: nat)
    requires k <= |messages|
    ensures Delivers(messages[..k], now) <= Delivers(messages, now)
  {
    if k < |messages| {
      DeliversPrefix(messages[..|messages| - 1], now, k);
      assert messages[..|messages| - 1][..k] == messages[..k];
    } else {
      assert messages[..k] == messages;
    }
  }

  predicate SmallChunks(events: seq<Event>) {
    forall i :: 0 <= i < |events| && events[i].Chunk? ==>
      |events[i].bytes| <= 477
  }

  /** Chunks of at most 477 bytes never close a connection at the limit. */
  lemma {:induction false} NoLimit(round: Rounding, log: seq<Emission>, events: seq<Event>)
    requires SmallChunks(events)
    ensures RunEvents(round, log, events).closed != Some(BufferLimit)
  {
    hide RunEvents, Parse, RunSession, Received, Offered, ChunksFit;
    var c := RunEvents(round, log, events);
    EventsFollow(round, log, events);
    if c.closed.Some? {
      var n: nat :| ClosedAt(round, c, events, n);
      HowClosed(round, c, events, n);
      ParseStops(Received(events[..n]));
    }
  }

  /** While chunks keep coming, a connection makes no call and stays open exactly
      when what arrived since completes no message and raises no objection: any
      unfinished message does, up to 475 bytes of it. Nothing is then released or
      reported, whatever the clock says and however many contacts are down. */
  lemma {:induction false} TrickleHolds(round: Rounding, log: seq<Emission>, events: seq<Event>, trickle: seq<Event>)
    requires forall i :: 0 <= i < |trickle| ==> trickle[i].Chunk?
    requires RunEvents(round, log, events).closed == None
    ensures var c, later := RunEvents(round, log, events), RunEvents(round, log, events + trickle);
      var p := Parse(c.buffer + Received(trickle));
      && (later.closed == None && later.inputs == c.inputs <==> p.messages == [] && p.error == None)
      && (p.messages == [] && p.error == None ==> later == c.(buffer := c.buffer + Received(trickle)))
  {
    hide RunEvents, Parse, RunSession, Received, Offered, ChunksFit, InLanguage, Fits, Messages;
    var c, later := RunEvents(round, log, events), RunEvents(round, log, events + trickle);
    var p := Parse(c.buffer + Received(trickle));
    EventsFollow(round, log, events);
    StaysOpen(round, log, events);
    StaysOpen(round, log, events + trickle);
    ReceivedJoin(events, trickle);
    ParseExtends(Received(events), Received(trickle));
    if p.messages == [] && p.error == None {
      QuietRest(c.buffer + Received(trickle));
      TrickleKept(round, log, events, trickle);
    }
  }

  lemma {:induction false} QuietRest(bytes: seq<Byte>)
    requires Parse(bytes).messages == []
    ensures Parse(bytes).rest == bytes
  {
    hide Parse;
    ParseConsumes(bytes);
    assert EncodeAll([]) + Parse(bytes).rest == Parse(bytes).rest;
  }

  lemma {:induction false} ReceivedJoin(events: seq<Event>, more: seq<Event>)
    ensures Received(events + more) == Received(events) + Received(more)
  {
    if more == [] {
      assert events + more == events;
    } else {
      assert (events + more)[..|events + more| - 1] == events + more[..|more| - 1];
      ReceivedJoin(events, more[..|more| - 1]);
    }
  }

  lemma {:induction false} TrickleKept(round: Rounding, log: seq<Emission>, events: seq<Event>, trickle: seq<Event>)
    requires forall i :: 0 <= i < |trickle| ==> trickle[i].Chunk?
    requires RunEvents(round, log, events).closed == None
    requires var c := RunEvents(round, log, events);
      Parse(c.buffer + Received(trickle)) == Parsed([], c.buffer + Received(trickle), None)
    ensures var c := RunEvents(round, log, events);
      RunEvents(round, log, events + trickle) == c.(buffer := c.buffer + Received(trickle))
  {
    hide EventStep, Parse;
    var c := RunEvents(round, log, events);
    if trickle == [] {
      assert events + trickle == events && c.buffer + [] == c.buffer;
    } else {
      var n := |trickle| - 1;
      var before, bytes := c.buffer + Received(trickle[..n]), trickle[n].bytes;
      assert before + bytes == c.buffer + Received(trickle);
      QuietFront(before, bytes);
      TrickleKept(round, log, events, trickle[..n]);
      assert (events + trickle)[..|events| + n] == events + trickle[..n];
      TrickleStep(round, c.(buffer := before), bytes, trickle[n].now);
    }
  }

  /** The front of an unfinished message is unfinished. */
  lemma {:induction false} QuietFront(bytes: seq<Byte>, more: seq<Byte>)
    requires Parse(bytes + more) == Parsed([], bytes + more, None)
    ensures Parse(bytes) == Parsed([], bytes, None)
  {
    hide Parse;
    ParseExtends(bytes, more);
    QuietRest(bytes);
    if Parse(bytes).error.Some? {
      StuckParse(bytes, more);
    }
  }

  lemma {:induction false} TrickleStep(round: Rounding, c: Connection, bytes: seq<Byte>, now: int)
    requires c.closed == None && Parse(c.buffer + bytes) == Parsed([], c.buffer + bytes, None)
    ensures EventStep(round, c, Chunk(bytes, now)) == c.(buffer := c.buffer + bytes)
  {
    hide Parse;
    ParseStops(c.buffer + bytes);
  }

  /** Whatever ends a connection, its calls are the first of those offered, and what
      ends it is the limit, the objection of the one-shot parse, or the session. */
  lemma {:induction false} CallsOffered(round: Rounding, log: seq<Emission>, events: seq<Event>)
    ensures var c, p := RunEvents(round, log, events), Parse(Received(events));
      && c.inputs <= Offered(events) && DeliversWellFormed(c.inputs) && Messages(c.inputs) <= p.messages
      && (c.closed.Some? ==>
           c.closed == Some(BufferLimit) || c.closed == p.error || c.closed == RunSession(round, c.inputs).error)
  {
    hide RunEvents, Parse, RunSession, Received, Offered, ChunksFit, ChunkFits, Messages, DeliversWellFormed;
    var c := RunEvents(round, log, events);
    EventsFollow(round, log, events);
    OfferedMessages(events);
    if c.closed.Some? {
      var n: nat :| ClosedAt(round, c, events, n);
      ReceivedPrefix(events, n);
      ReceivedPrefix(events, n + 1);
      ParseThrough(events, n);
    }
    MessagesPrefix(c.inputs, Offered(events));
  }
}
