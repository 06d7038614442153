/** The connection loop over values: any number of connections, each a sequence
    of received chunks and receive timeouts, feeding one driver. */
module Receiver {
  import opened Words
  import opened Wire
  import opened Ioctl
  import opened Coordinates
  import opened Session
  import opened SessionLaws
  import opened SessionRuns
  import opened HostLaws
  import opened Streams
  import opened Driver

  /** What one receive call brings. `now` is the clock when the last message of
      the chunk is processed, or at the poll; earlier readings in a chunk are
      overwritten before anything looks at them. */
  datatype Event = Chunk(bytes: seq<Byte>, now: int) | TimedOut(now: int)

  /** A frame handed to the driver, and the contacts the session then remembered. */
  datatype Emission = Emission(frame: IoctlFrame, places: Places)

  /** One connection so far: what the decoder has not consumed, the session, the
      calls made to it, every frame handed over since the driver started, and
      the error that ended the connection, if one did. */
  datatype Connection = Connection(
    buffer: seq<Byte>, session: SessionState, inputs: seq<Input>,
    log: seq<Emission>, closed: Option<ProtocolError>)

  function Fresh(log: seq<Emission>): Connection {
    Connection([], INITIAL, [], log, None)
  }

  function Note(log: seq<Emission>, step: Step): seq<Emission> {
    if step.outcome.Report? then log + [Emission(step.outcome.frame, step.state.previous)] else log
  }

  function Call(round: Rounding, c: Connection, input: Input): Connection {
    var step := StepInput(round, c.session, input);
    c.(session := step.state, inputs := c.inputs + [input], log := Note(c.log, step),
       closed := if step.outcome.Throw? then Some(step.outcome.error) else None)
  }

  /** Processes decoded messages until one throws. */
  function DeliverAll(round: Rounding, c: Connection, messages: seq<Message>, now: int): Connection {
    if messages == [] then c
    else
      var n := |messages| - 1;
      var before := DeliverAll(round, c, messages[..n], now);
      if before.closed.Some? then before else Call(round, before, Deliver(messages[n], now))
  }

  /** A chunk that trips the decoder ends the connection at once: messages
      decoded earlier from that chunk are never processed. */
  function EventStep(round: Rounding, c: Connection, event: Event): Connection {
    if c.closed.Some? then c
    else match event
      case TimedOut(now) => Call(round, c, Poll(now))
      case Chunk(bytes, now) =>
        if |c.buffer| + |bytes| > BUFFER_LIMIT then c.(closed := Some(BufferLimit))
        else
          var p := Parse(c.buffer + bytes);
          if p.error.Some? then c.(buffer := p.rest, closed := p.error)
          else DeliverAll(round, c.(buffer := p.rest), p.messages, now)
  }

  function RunEvents(round: Rounding, log: seq<Emission>, events: seq<Event>): Connection {
    if events == [] then Fresh(log)
    else EventStep(round, RunEvents(round, log, events[..|events| - 1]), events[|events| - 1])
  }

  /** However a connection ends, the session is disconnected. */
  function Disconnect(round: Rounding, c: Connection): seq<Emission> {
    Note(c.log, OnDisconnect(round, c.session))
  }

  function Serve(round: Rounding, connections: seq<seq<Event>>): seq<Emission> {
    if connections == [] then []
    else
      var n := |connections| - 1;
      Disconnect(round, RunEvents(round, Serve(round, connections[..n]), connections[n]))
  }

  /** The driver's fallback scan time after a run of frames. */
  function ScanAfter(start: U16, log: seq<Emission>): U16 {
    if log == [] then start
    else NextScanTimeIfAccepted(ScanAfter(start, log[..|log| - 1]), log[|log| - 1].frame)
  }

  function NextScanTimeIfAccepted(last: U16, f: IoctlFrame): U16 {
    if HeaderAccepted(f) then NextScanTime(last, f) else last
  }

  /** The reports the driver submits for a run of frames: none for a frame it refuses. */
  function Submitted(start: U16, log: seq<Emission>): seq<HidReport> {
    if log == [] then []
    else
      var n := |log| - 1;
      var f := log[n].frame;
      Submitted(start, log[..n])
      + if |f.contacts| == SLOTS && Accepted(f) then [ReportOf(f, ScanAfter(start, log[..n]))] else []
  }

  function PlacesBefore(log: seq<Emission>, k: nat): Places
    requires k <= |log|
  {
    if k == 0 then NOBODY else log[k - 1].places
  }

  function LastPlaces(log: seq<Emission>): Places { PlacesBefore(log, |log|) }

  predicate LastButton(log: seq<Emission>) { log != [] && FrameButton(log[|log| - 1].frame) }

  /** Every frame moves every slot legally from the frame before it. */
  ghost predicate LogMoves(round: Rounding, log: seq<Emission>) {
    forall k :: 0 <= k < |log| ==> FrameMoves(round, PlacesBefore(log, k), log[k].frame, log[k].places)
  }

  ghost predicate Sound(round: Rounding, c: Connection) {
    && Inv(c.session)
    && (c.closed == None ==> Synced(c.session))
    && LogMoves(round, c.log)
    && InStep(c.session, LastPlaces(c.log), LastButton(c.log))
  }

  ghost predicate Quiet(log: seq<Emission>) { LastPlaces(log) == NOBODY && !LastButton(log) }

  lemma {:induction false} NoteSound(round: Rounding, st: SessionState, step: Step, log: seq<Emission>)
    requires LogMoves(round, log) && InStep(st, LastPlaces(log), LastButton(log)) && Shows(round, st, step)
    ensures LogMoves(round, Note(log, step))
    ensures InStep(step.state, LastPlaces(Note(log, step)), LastButton(Note(log, step)))
  {
    hide FrameMoves;
    var later := Note(log, step);
    if step.outcome.Report? {
      forall k | 0 <= k < |later|
        ensures FrameMoves(round, PlacesBefore(later, k), later[k].frame, later[k].places)
      {
        assert PlacesBefore(later, k) == PlacesBefore(log, k);
      }
    }
  }

  lemma {:induction false} CallSound(round: Rounding, c: Connection, input: Input)
    requires Sound(round, c) && c.closed == None && (input.Deliver? ==> WellFormed(input.message))
    ensures Sound(round, Call(round, c, input))
  {
    hide Process, OnTimeout, Remembered, Matched, Shows, LogMoves, InStep, WellFormed;
    var step := StepInput(round, c.session, input);
    match input {
      case Poll(now) =>
        CallsShow(round, c.session, SOME_MESSAGE, now);
        PollKeeps(round, c.session, now);
      case Deliver(m, now) =>
        CallsShow(round, c.session, m, now);
        ProcessKeeps(round, c.session, m, now);
    }
    NoteSound(round, c.session, step, c.log);
  }

  const SOME_MESSAGE := Message(Hello, 0, 0, 0, 0, [])

  lemma {:induction false} PollKeeps(round: Rounding, st: SessionState, now: int)
    requires Synced(st)
    ensures Synced(OnTimeout(round, st, now).state) && Inv(OnTimeout(round, st, now).state)
  {
    hide ReleaseFrame;
    NobodyMatched();
  }

  lemma {:induction false} DeliverAllSound(round: Rounding, c: Connection, messages: seq<Message>, now: int)
    requires Sound(round, c) && c.closed == None && AllWellFormed(messages)
    ensures Sound(round, DeliverAll(round, c, messages, now))
  {
    hide Sound, Call, WellFormed;
    if messages != [] {
      var n := |messages| - 1;
      DeliverAllSound(round, c, messages[..n], now);
      var before := DeliverAll(round, c, messages[..n], now);
      if before.closed == None {
        CallSound(round, before, Deliver(messages[n], now));
      }
    }
  }

  lemma {:induction false} EventSound(round: Rounding, c: Connection, event: Event)
    requires Sound(round, c)
    ensures Sound(round, EventStep(round, c, event))
  {
    hide Inv, Synced, LogMoves, InStep, Call, Parse, DeliverAll;
    if c.closed == None {
      match event
      case TimedOut(now) =>
        CallSound(round, c, Poll(now));
      case Chunk(bytes, now) =>
        var p := Parse(c.buffer + bytes);
        ParseConsumes(c.buffer + bytes);
        if p.error == None {
          DeliverAllSound(round, c.(buffer := p.rest), p.messages, now);
        }
    }
  }

  lemma {:induction false} EventsSound(round: Rounding, log: seq<Emission>, events: seq<Event>)
    requires LogMoves(round, log) && Quiet(log)
    ensures Sound(round, RunEvents(round, log, events))
  {
    hide EventStep, LogMoves, Matched, Remembered;
    if events == [] {
      NobodyMatched();
    } else {
      EventsSound(round, log, events[..|events| - 1]);
      EventSound(round, RunEvents(round, log, events[..|events| - 1]), events[|events| - 1]);
    }
  }

  lemma {:induction false} DisconnectQuiet(round: Rounding, c: Connection)
    requires Sound(round, c)
    ensures LogMoves(round, Disconnect(round, c)) && Quiet(Disconnect(round, c))
  {
    hide LogMoves, Process, ReleaseFrame, FrameMoves, Remembered;
    CallsShow(round, c.session, SOME_MESSAGE, 0);
    NoteSound(round, c.session, OnDisconnect(round, c.session), c.log);
  }

  lemma {:induction false} ServeQuiet(round: Rounding, connections: seq<seq<Event>>)
    ensures LogMoves(round, Serve(round, connections)) && Quiet(Serve(round, connections))
  {
    hide RunEvents, Disconnect, LogMoves;
    if connections == [] {
      NothingMoves(round);
    } else {
      var n := |connections| - 1;
      ServeQuiet(round, connections[..n]);
      EventsSound(round, Serve(round, connections[..n]), connections[n]);
      DisconnectQuiet(round, RunEvents(round, Serve(round, connections[..n]), connections[n]));
    }
  }

  lemma {:induction false} NothingMoves(round: Rounding)
    ensures LogMoves(round, [])
  {
  }

  /** The slot shows a tip exactly if a contact is remembered there, at that contact's
      position and with its confidence. */
  predicate PlaceShown(round: Rounding, report: HidReport, slot: nat, place: Option<Contact>)
    requires slot < |report.contacts|
  {
    && (TipDown(report, slot) <==> place.Some?)
    && (place.Some? ==>
         && report.contacts[slot].x == ToLogical(round, place.value.x)
         && report.contacts[slot].y == ToLogicalY(round, place.value.y)
         && (HasBit(report.contacts[slot].flags, 1) <==> HasBit(place.value.flags, 4)))
  }

  /** How many frames came without a scan time. */
  function Timeless(log: seq<Emission>): nat {
    if log == [] then 0
    else Timeless(log[..|log| - 1]) + if log[|log| - 1].frame.scanTime == 0 then 1 else 0
  }

  /** The driver's own counter counts them. */
  lemma {:induction false} ScanCounts(round: Rounding, start: U16, log: seq<Emission>)
    requires LogMoves(round, log)
    ensures ScanAfter(start, log) == (start + Timeless(log)) % 65536
  {
    hide LogMoves, FrameMoves, NextScanTimeIfAccepted;
    if log != [] {
      var n := |log| - 1;
      LogPrefix(round, log, n);
      ScanCounts(round, start, log[..n]);
      LastMoves(round, log);
      MoveScan(round, PlacesBefore(log, n), log[n].frame, log[n].places, ScanAfter(start, log[..n]));
      NextCount(start + Timeless(log[..n]));
    }
  }

  lemma {:induction false} NextCount(n: nat)
    ensures (n % 65536 + 1) % 65536 == (n + 1) % 65536
  {
  }

  lemma {:induction false} LastMoves(round: Rounding, log: seq<Emission>)
    requires LogMoves(round, log) && log != []
    ensures var n := |log| - 1;
      FrameMoves(round, PlacesBefore(log, n), log[n].frame, log[n].places)
  {
    hide FrameMoves;
  }

  lemma {:induction false} MoveScan(round: Rounding, before: Places, f: IoctlFrame, later: Places, last: U16)
    requires FrameMoves(round, before, f, later)
    ensures NextScanTimeIfAccepted(last, f) == if f.scanTime != 0 then last else (last + 1) % 65536
  {
    hide SlotMove, TipCount;
  }

  /** The driver refuses none of the frames, and its last report shows exactly the
      contacts last remembered, the last frame's button and its scan time, or, if it
      has none, how many had none since the driver started. */
  lemma {:induction false} LastReport(round: Rounding, start: U16, log: seq<Emission>)
    requires LogMoves(round, log)
    ensures |Submitted(start, log)| == |log|
    ensures log != [] ==>
      var last := Submitted(start, log)[|log| - 1];
      && |last.contacts| == SLOTS
      && last.contactCount == TipsDown(last)
      && (ButtonDown(last) <==> LastButton(log))
      && last.scanTime == (if log[|log| - 1].frame.scanTime != 0 then log[|log| - 1].frame.scanTime
                           else (start + Timeless(log)) % 65536)
      && forall s :: 0 <= s < SLOTS ==> PlaceShown(round, last, s, LastPlaces(log)[s])
  {
    hide LogMoves, FrameMoves, ReportOf, Accepted, TipDown, TipsDown, ButtonDown, PlaceShown;
    if log != [] {
      var n := |log| - 1;
      LogPrefix(round, log, n);
      LastReport(round, start, log[..n]);
      LastMoves(round, log);
      MovesShown(round, PlacesBefore(log, n), log[n].frame, log[n].places, ScanAfter(start, log[..n]));
      ScanCounts(round, start, log);
    }
  }

  lemma {:induction false} LogPrefix(round: Rounding, log: seq<Emission>, n: nat)
    requires LogMoves(round, log) && n <= |log|
    ensures LogMoves(round, log[..n])
  {
    hide FrameMoves;
    forall k | 0 <= k < n
      ensures FrameMoves(round, PlacesBefore(log[..n], k), log[..n][k].frame, log[..n][k].places)
    {
      assert PlacesBefore(log[..n], k) == PlacesBefore(log, k);
    }
  }

  lemma {:induction false} MovesShown(round: Rounding, before: Places, f: IoctlFrame, later: Places, last: U16)
    requires FrameMoves(round, before, f, later)
    ensures |f.contacts| == SLOTS && Accepted(f) && |ReportOf(f, last).contacts| == SLOTS
    ensures var report := ReportOf(f, last);
      && report.contactCount == TipsDown(report)
      && (ButtonDown(report) <==> FrameButton(f))
      && (f.scanTime != 0 ==> report.scanTime == f.scanTime)
      && (f.scanTime == 0 ==> report.scanTime == (last + 1) % 65536 == NextScanTimeIfAccepted(last, f))
      && (f.scanTime != 0 ==> NextScanTimeIfAccepted(last, f) == last)
      && forall s :: 0 <= s < SLOTS ==> PlaceShown(round, report, s, later[s])
  {
    hide SlotRecord, Records, ReportOf, TipDown, FitForDriver, ToLogical, ToLogicalY, TipsDown;
    FitFrameReported(f, last);
    FitLength(f, last);
    LiftsHaveNoTip(round);
    var report := ReportOf(f, last);
    forall s | 0 <= s < SLOTS
      ensures PlaceShown(round, report, s, later[s])
    {
      assert SlotMove(round, s, before[s], SlotRecord(Records(f), s), later[s]);
      assert ShownAs(report, s, SlotRecord(Records(f), s));
    }
  }

  lemma {:induction false} FitLength(f: IoctlFrame, last: U16)
    requires FitForDriver(f)
    ensures |f.contacts| == SLOTS && |ReportOf(f, last).contacts| == SLOTS
  {
  }

  lemma {:induction false} LiftsHaveNoTip(round: Rounding)
    ensures forall slot: Byte, c: Contact :: !HasBit(RecordOf(round, slot, Lift(c)).flags, TIP)
    ensures forall slot: Byte, c: Contact :: HasBit(RecordOf(round, slot, c).flags, TIP) == HasTip(c)
    ensures forall slot: Byte, c: Contact :: RecordOf(round, slot, c).flags == c.flags
  {
    hide ToLogical, ToLogicalY;
  }

  /** What the host was last told agrees with what the session would release. */
  ghost predicate HostAgrees(reports: seq<HidReport>, st: SessionState) {
    if reports == [] then st.previous == NOBODY
    else
      var last := reports[|reports| - 1];
      && |last.contacts| == SLOTS
      && (forall s :: 0 <= s < SLOTS ==> (TipDown(last, s) <==> st.previous[s].Some?))
      && (ButtonDown(last) ==> HasActiveContacts(st))
  }

  ghost predicate HostReleased(reports: seq<HidReport>) {
    reports != [] ==>
      var last := reports[|reports| - 1];
      && |last.contacts| == SLOTS
      && (forall s :: 0 <= s < SLOTS ==> !TipDown(last, s))
      && !ButtonDown(last)
  }

  /** No ghost input. Over every run of the connection loop, whatever chunks,
      timeouts, malformed messages and protocol errors have occurred: at every
      point of a connection the host shows a tip on a slot exactly when the
      session remembers a contact there, and a pressed button only if the
      session will release it; and whenever a connection has ended, however it
      ended, every tip and the button are up. The driver never refuses a frame. */
  lemma {:induction false} NoGhostInput(round: Rounding, start: U16, connections: seq<seq<Event>>, events: seq<Event>)
    ensures var log := Serve(round, connections);
      var c := RunEvents(round, log, events);
      && HostReleased(Submitted(start, log))
      && HostAgrees(Submitted(start, c.log), c.session)
      && HostReleased(Submitted(start, Disconnect(round, c)))
      && |Submitted(start, Disconnect(round, c))| == |Disconnect(round, c)|
  {
    hide Serve, RunEvents, Disconnect, Submitted, LogMoves, TipDown, ButtonDown, Inv, Synced;
    var log := Serve(round, connections);
    var c := RunEvents(round, log, events);
    ServeQuiet(round, connections);
    EventsSound(round, log, events);
    DisconnectQuiet(round, c);
    QuietReleased(round, start, log);
    ReportAgrees(round, start, c.log, c.session);
    QuietReleased(round, start, Disconnect(round, c));
  }

  lemma {:induction false} ReportAgrees(round: Rounding, start: U16, log: seq<Emission>, st: SessionState)
    requires LogMoves(round, log) && InStep(st, LastPlaces(log), LastButton(log))
    ensures HostAgrees(Submitted(start, log), st)
  {
    hide Submitted, LogMoves, TipDown, ButtonDown, HasActiveContacts;
    LastReport(round, start, log);
    if log != [] {
      var last := Submitted(start, log)[|log| - 1];
      assert forall s :: 0 <= s < SLOTS ==> PlaceShown(round, last, s, LastPlaces(log)[s]);
    }
  }

  lemma {:induction false} QuietReleased(round: Rounding, start: U16, log: seq<Emission>)
    requires LogMoves(round, log) && Quiet(log)
    ensures HostReleased(Submitted(start, log)) && |Submitted(start, log)| == |log|
  {
    hide Submitted, LogMoves, TipDown, ButtonDown;
    LastReport(round, start, log);
    if log != [] {
      var last := Submitted(start, log)[|log| - 1];
      forall s | 0 <= s < SLOTS
        ensures !TipDown(last, s)
      {
        assert PlaceShown(round, last, s, LastPlaces(log)[s]) && NOBODY[s] == None;
      }
    }
  }

  /** The agreement also holds between any two messages of one chunk. */
  lemma {:induction false} NoGhostWithinChunk(round: Rounding, start: U16, c: Connection, messages: seq<Message>,
                                              now: int)
    requires Sound(round, c) && c.closed == None && AllWellFormed(messages)
    ensures var later := DeliverAll(round, c, messages, now);
      HostAgrees(Submitted(start, later.log), later.session)
  {
    hide DeliverAll, Submitted, LogMoves, TipDown, ButtonDown, Inv, Synced, WellFormed;
    DeliverAllSound(round, c, messages, now);
    var later := DeliverAll(round, c, messages, now);
    ReportAgrees(round, start, later.log, later.session);
  }
}
