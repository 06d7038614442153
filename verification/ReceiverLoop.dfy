/** The receiver's loops over its mutable decoder, session and driver. */
module ReceiverLoop {
  import opened Words
  import opened Wire
  import opened Ioctl
  import opened Coordinates
  import opened Session
  import opened SessionRuns
  import opened HostLaws
  import opened Streams
  import opened Driver
  import opened Receiver
  import TS = TouchSession

  /** The session and the driver stand where the connection says. */
  ghost predicate Linked(start: U16, session: TS.TouchSession, driver: DeviceContext, c: Connection)
    reads session, session.previousContacts, driver
  {
    && session.Valid() && session.State() == c.session
    && Sound(session.rounding, c)
    && Fed(start, driver, c.log)
  }

  /** So does the decoder, with nothing left to process. */
  ghost predicate Drained(decoder: StreamDecoder, c: Connection)
    reads decoder
  {
    decoder.Valid() && decoder.buffer == c.buffer && decoder.messages == []
  }

  /** The driver has been handed exactly the frames of the log. */
  ghost predicate Fed(start: U16, driver: DeviceContext, log: seq<Emission>)
    reads driver
  {
    driver.reports == Submitted(start, log) && driver.lastScanTime == ScanAfter(start, log)
  }

  /** Hands over what a call of the session returned, if it returned a frame. */
  method Submit(driver: DeviceContext, ghost start: U16, ghost round: Rounding, ghost st: SessionState,
                ghost step: Step, outcome: Outcome, ghost log: seq<Emission>)
    requires Fed(start, driver, log) && step.outcome == outcome && Shows(round, st, step)
    modifies driver
    ensures Fed(start, driver, Note(log, step))
  {
    hide ReportOf, Accepted, FitForDriver, SlotMove, HeaderAccepted;
    if outcome.Report? {
      FrameAccepted(round, st, step);
      SubmittedNext(start, log, Emission(outcome.frame, step.state.previous));
      var _ := driver.SubmitIoctlFrame(outcome.frame, 0);
    }
  }

  lemma {:induction false} FrameAccepted(round: Rounding, st: SessionState, step: Step)
    requires step.outcome.Report? && Shows(round, st, step)
    ensures |step.outcome.frame.contacts| == SLOTS && Accepted(step.outcome.frame)
  {
    hide SlotMove;
    MovesShown(round, st.previous, step.outcome.frame, step.state.previous, 0);
  }

  lemma {:induction false} SubmittedNext(start: U16, log: seq<Emission>, e: Emission)
    ensures Submitted(start, log + [e]) == Submitted(start, log)
      + if |e.frame.contacts| == SLOTS && Accepted(e.frame) then [ReportOf(e.frame, ScanAfter(start, log))] else []
    ensures ScanAfter(start, log + [e]) == NextScanTimeIfAccepted(ScanAfter(start, log), e.frame)
  {
    hide ReportOf, Accepted, NextScanTimeIfAccepted;
    assert (log + [e])[..|log|] == log;
  }

  /** A receive timeout: poll the session. */
  method HandleTimeout(session: TS.TouchSession, driver: DeviceContext, ghost start: U16, now: int,
                       ghost c: Connection)
    requires Linked(start, session, driver, c) && c.closed == None
    modifies session, session.previousContacts, driver
    ensures Linked(start, session, driver, EventStep(session.rounding, c, TimedOut(now)))
    ensures EventStep(session.rounding, c, TimedOut(now)).closed == None
  {
    hide Sound, Shows, Inv, OnTimeout, Submitted, ScanAfter, Fed, Parse;
    CallsShowNow(session.rounding, c, SOME_MESSAGE, now);
    CallSound(session.rounding, c, Poll(now));
    ghost var step := OnTimeout(session.rounding, c.session, now);
    TimeoutsReturn(session.rounding, c.session, now);
    var outcome := session.OnTimeout(now);
    Submit(driver, start, session.rounding, c.session, step, outcome, c.log);
  }

  lemma {:induction false} TimeoutsReturn(round: Rounding, st: SessionState, now: int)
    ensures !OnTimeout(round, st, now).outcome.Throw?
  {
  }

  lemma {:induction false} CallsShowNow(round: Rounding, c: Connection, m: Message, now: int)
    requires Sound(round, c)
    ensures WellFormed(m) ==> Shows(round, c.session, Process(round, c.session, m, now))
    ensures Shows(round, c.session, OnTimeout(round, c.session, now))
    ensures Shows(round, c.session, OnDisconnect(round, c.session))
  {
    hide Shows, Inv, Synced, Process, OnTimeout, OnDisconnect, LogMoves, WellFormed;
    CallsShow(round, c.session, m, now);
  }

  /** One decoded message through the session to the driver. */
  method HandleMessage(session: TS.TouchSession, driver: DeviceContext, ghost start: U16,
                       message: Message, now: int, ghost c: Connection) returns (error: Option<ProtocolError>)
    requires Linked(start, session, driver, c) && c.closed == None && WellFormed(message)
    modifies session, session.previousContacts, driver
    ensures Linked(start, session, driver, Call(session.rounding, c, Deliver(message, now)))
    ensures Call(session.rounding, c, Deliver(message, now)).closed == error
  {
    hide Sound, Shows, Inv, Process, Submitted, ScanAfter, Fed, WellFormed;
    CallsShowNow(session.rounding, c, message, now);
    CallSound(session.rounding, c, Deliver(message, now));
    ghost var step := Process(session.rounding, c.session, message, now);
    var outcome := session.Process(message, now);
    Submit(driver, start, session.rounding, c.session, step, outcome, c.log);
    error := if outcome.Throw? then Some(outcome.error) else None;
  }

  /** Processes every message the decoder holds, until one throws. */
  method DrainMessages(decoder: StreamDecoder, session: TS.TouchSession, driver: DeviceContext,
                       ghost start: U16, now: int, ghost c: Connection)
    returns (error: Option<ProtocolError>)
    requires Linked(start, session, driver, c) && c.closed == None && AllWellFormed(decoder.messages)
    requires decoder.Valid() && decoder.buffer == c.buffer
    modifies decoder, session, session.previousContacts, driver
    ensures var later := DeliverAll(session.rounding, c, old(decoder.messages), now);
      && Linked(start, session, driver, later) && later.closed == error
      && (error == None ==> Drained(decoder, later))
  {
    hide Linked, Call, Parse, WellFormed, DeliverAll;
    ghost var round, all, later := session.rounding, decoder.messages, c;
    ghost var k := 0;
    DeliverNone(round, c, now);
    while decoder.HasMessage()
      invariant decoder.Valid() && 0 <= k <= |all| && decoder.messages == all[k..]
      invariant later == DeliverAll(round, c, all[..k], now)
      invariant later.closed == None && later.buffer == decoder.buffer == c.buffer
      invariant session.rounding == round && Linked(start, session, driver, later)
      decreases |decoder.messages|
    {
      DeliverNext(round, c, all, k, now);
      CallBuffer(round, c, all, k + 1, now);
      var message := decoder.PopMessage();
      error := HandleMessage(session, driver, start, message, now, later);
      later := Call(round, later, Deliver(message, now));
      k := k + 1;
      if error.Some? {
        DeliverStuck(round, c, all, k, now);
        return;
      }
    }
    assert all[..k] == all;
    error := None;
  }

  /** A received chunk: decode, then process every complete message. */
  method HandleChunk(decoder: StreamDecoder, session: TS.TouchSession, driver: DeviceContext,
                     ghost start: U16, bytes: seq<Byte>, now: int, ghost c: Connection)
    returns (error: Option<ProtocolError>)
    requires Linked(start, session, driver, c) && Drained(decoder, c) && c.closed == None
    modifies decoder, session, session.previousContacts, driver
    ensures Linked(start, session, driver, EventStep(session.rounding, c, Chunk(bytes, now)))
    ensures EventStep(session.rounding, c, Chunk(bytes, now)).closed == error
    ensures error == None ==> Drained(decoder, EventStep(session.rounding, c, Chunk(bytes, now)))
  {
    hide Sound, Inv, Call, Parse, Fed, WellFormed, DeliverAll;
    ghost var round := session.rounding;
    ghost var p := Parse(c.buffer + bytes);
    EventSound(round, c, Chunk(bytes, now));
    BufferKept(c, p.rest, round);
    error := decoder.Append(bytes);
    if error.Some? {
      return;
    }
    ParseConsumes(c.buffer + bytes);
    assert [] + p.messages == p.messages;
    error := DrainMessages(decoder, session, driver, start, now, c.(buffer := p.rest));
  }

  lemma {:induction false} BufferKept(c: Connection, rest: seq<Byte>, round: Rounding)
    requires Sound(round, c)
    ensures Sound(round, c.(buffer := rest))
  {
    hide Inv, Synced, LogMoves, InStep;
  }

  lemma {:induction false} DeliverNone(round: Rounding, c: Connection, now: int)
    ensures DeliverAll(round, c, [], now) == c
  {
  }

  lemma {:induction false} DeliverNext(round: Rounding, c: Connection, messages: seq<Message>, k: nat, now: int)
    requires k < |messages|
    ensures var before := DeliverAll(round, c, messages[..k], now);
      DeliverAll(round, c, messages[..k + 1], now)
        == if before.closed.Some? then before else Call(round, before, Deliver(messages[k], now))
  {
    hide Call;
    assert messages[..k + 1][..k] == messages[..k];
  }

  lemma {:induction false} CallBuffer(round: Rounding, c: Connection, messages: seq<Message>, k: nat, now: int)
    requires k <= |messages|
    ensures DeliverAll(round, c, messages[..k], now).buffer == c.buffer
  {
    hide StepInput, Note;
    if k > 0 {
      DeliverNext(round, c, messages, k - 1, now);
      CallBuffer(round, c, messages, k - 1, now);
    }
  }

  /** After a throw the remaining messages of the chunk are not processed. */
  lemma {:induction false} DeliverStuck(round: Rounding, c: Connection, messages: seq<Message>, k: nat, now: int)
    requires k <= |messages| && DeliverAll(round, c, messages[..k], now).closed.Some?
    ensures DeliverAll(round, c, messages, now) == DeliverAll(round, c, messages[..k], now)
    decreases |messages| - k
  {
    hide Call, DeliverAll;
    if k < |messages| {
      DeliverNext(round, c, messages, k, now);
      DeliverStuck(round, c, messages, k + 1, now);
    } else {
      assert messages[..k] == messages;
    }
  }

  /** What one receive call brings: a chunk or a timeout. */
  method HandleEvent(decoder: StreamDecoder, session: TS.TouchSession, driver: DeviceContext,
                     ghost start: U16, event: Event, ghost c: Connection)
    returns (error: Option<ProtocolError>)
    requires Linked(start, session, driver, c) && Drained(decoder, c) && c.closed == None
    modifies decoder, session, session.previousContacts, driver
    ensures Linked(start, session, driver, EventStep(session.rounding, c, event))
    ensures EventStep(session.rounding, c, event).closed == error
    ensures error == None ==> Drained(decoder, EventStep(session.rounding, c, event))
  {
    hide Linked, EventStep;
    match event {
      case TimedOut(now) =>
        TimeoutKeepsBuffer(session.rounding, c, now);
        HandleTimeout(session, driver, start, now, c);
        error := None;
      case Chunk(bytes, now) =>
        error := HandleChunk(decoder, session, driver, start, bytes, now, c);
    }
  }

  /** The end of a connection: release whatever is held. */
  method Release(session: TS.TouchSession, driver: DeviceContext, ghost start: U16, ghost c: Connection)
    requires Linked(start, session, driver, c)
    modifies session, session.previousContacts, driver
    ensures Fed(start, driver, Disconnect(session.rounding, c))
  {
    hide Sound, Fed, Inv, Note, Shows;
    CallsShowNow(session.rounding, c, SOME_MESSAGE, 0);
    ghost var step := OnDisconnect(session.rounding, c.session);
    var outcome := session.OnDisconnect();
    Submit(driver, start, session.rounding, c.session, step, outcome, c.log);
  }

  /** One connection from accept to disconnect. */
  method ServeConnection(rounding: Rounding, driver: DeviceContext, ghost start: U16,
                         events: seq<Event>, ghost log: seq<Emission>)
    requires Fed(start, driver, log) && LogMoves(rounding, log) && Quiet(log)
    modifies driver
    ensures Fed(start, driver, Disconnect(rounding, RunEvents(rounding, log, events)))
  {
    hide Sound, EventStep, Fed, LogMoves, Quiet, Inv, Disconnect, RunEvents;
    var decoder := new StreamDecoder();
    var session := new TS.TouchSession(rounding);
    ghost var c := Fresh(log);
    NoEvents(rounding, log);
    EventsSound(rounding, log, []);
    var error: Option<ProtocolError> := None;
    var index := 0;
    hide Linked, Drained;
    assert Linked(start, session, driver, c) && Drained(decoder, c) by {
      Opened(start, decoder, session, driver, rounding, log);
    }
    while index < |events| && error == None
      modifies driver, decoder, session, session.previousContacts
      invariant 0 <= index <= |events|
      invariant c == RunEvents(rounding, log, events[..index]) && c.closed == error
      invariant session.rounding == rounding && Linked(start, session, driver, c)
      invariant error == None ==> Drained(decoder, c)
      invariant fresh(decoder) && fresh(session) && fresh(session.previousContacts)
      decreases |events| - index
    {
      NextEvent(rounding, log, events, index);
      error := HandleEvent(decoder, session, driver, start, events[index], c);
      c := EventStep(rounding, c, events[index]);
      index := index + 1;
    }
    EventsStuck(rounding, log, events, index);
    Release(session, driver, start, c);
  }

  lemma {:induction false} Opened(start: U16, decoder: StreamDecoder, session: TS.TouchSession,
                                  driver: DeviceContext, rounding: Rounding, log: seq<Emission>)
    requires session.Valid() && session.State() == INITIAL && session.rounding == rounding
    requires decoder.Valid() && decoder.buffer == [] && decoder.messages == []
    requires Fed(start, driver, log) && Sound(rounding, Fresh(log))
    ensures Linked(start, session, driver, Fresh(log)) && Drained(decoder, Fresh(log))
  {
    hide Sound, Fed, Inv;
  }

  lemma {:induction false} NoEvents(round: Rounding, log: seq<Emission>)
    ensures RunEvents(round, log, []) == Fresh(log)
  {
  }

  lemma {:induction false} NextEvent(round: Rounding, log: seq<Emission>, events: seq<Event>, k: nat)
    requires k < |events|
    ensures RunEvents(round, log, events[..k + 1])
      == EventStep(round, RunEvents(round, log, events[..k]), events[k])
  {
    hide EventStep;
    assert events[..k + 1][..k] == events[..k];
  }

  lemma {:induction false} TimeoutKeepsBuffer(round: Rounding, c: Connection, now: int)
    requires c.closed == None
    ensures EventStep(round, c, TimedOut(now)).buffer == c.buffer
  {
    hide StepInput, Note;
  }

  /** Nothing is received on a connection that has been closed. */
  lemma {:induction false} EventsStuck(round: Rounding, log: seq<Emission>, events: seq<Event>, k: nat)
    requires k <= |events| && (k < |events| ==> RunEvents(round, log, events[..k]).closed.Some?)
    ensures RunEvents(round, log, events) == RunEvents(round, log, events[..k])
    decreases |events| - k
  {
    hide RunEvents, Call, Parse, DeliverAll;
    if k < |events| {
      NextEvent(round, log, events, k);
      EventsStuck(round, log, events, k + 1);
    } else {
      assert events[..k] == events;
    }
  }

  /** The accept loop: one connection after another, into the same driver. */
  method ServeAll(rounding: Rounding, driver: DeviceContext, ghost start: U16, connections: seq<seq<Event>>)
    requires driver.lastScanTime == start && driver.reports == []
    modifies driver
    ensures driver.reports == Submitted(start, Serve(rounding, connections))
    ensures HostReleased(driver.reports)
  {
    hide RunEvents, Disconnect, LogMoves, Quiet;
    ghost var log: seq<Emission> := [];
    NothingServed(rounding);
    for index := 0 to |connections|
      invariant log == Serve(rounding, connections[..index])
      invariant Fed(start, driver, log)
    {
      ServeQuiet(rounding, connections[..index]);
      ServeConnection(rounding, driver, start, connections[index], log);
      log := Disconnect(rounding, RunEvents(rounding, log, connections[index]));
      assert connections[..index + 1][..index] == connections[..index];
    }
    assert connections[..|connections|] == connections;
    NoGhostInput(rounding, start, connections, []);
  }

  lemma {:induction false} NothingServed(round: Rounding)
    ensures Serve(round, []) == []
  {
  }
}
