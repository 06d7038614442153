/** What the host sees after a frame: the positions, the slots and the button of
    exactly that frame, from the sender's last message to the last report. */
module LastFrame {
  import opened Words
  import opened Wire
  import opened Ioctl
  import opened Coordinates
  import opened Session
  import opened SessionLaws
  import opened SessionRuns
  import opened HostLaws
  import opened Streams
  import opened Driver
  import opened Receiver
  import opened Connections
  import opened TouchFrame
  import opened Agent
  import opened AgentLaws
  import opened AgentSteps
  import opened HeldLock
  import opened SentMessages
  import opened EndToEnd
  import S = Session

  predicate ShownAt(round: Rounding, report: HidReport, slot: nat, c: Contact)
    requires slot < |report.contacts|
  {
    && TipDown(report, slot)
    && report.contacts[slot].x == ToLogical(round, c.x)
    && report.contacts[slot].y == ToLogicalY(round, c.y)
    && (HasBit(report.contacts[slot].flags, 1) <==> HasBit(c.flags, 4))
  }

  /** The report is the frame: each tip on its own slot at its own position and with its
      own confidence, no other slot down, the button as in the frame, and the frame's
      capture time in units of 100 us, unless that comes out as zero. */
  ghost predicate FrameShown(round: Rounding, report: HidReport, m: Message, slots: map<U32, nat>) {
    && |report.contacts| == SLOTS && report.contactCount == TipsDown(report)
    && Injective(slots) && slots.Keys == TipIds(m.contacts)
    && (forall i :: 0 <= i < |m.contacts| && HasTip(m.contacts[i]) ==>
         m.contacts[i].identifier in slots
         && ShownAt(round, report, slots[m.contacts[i].identifier], m.contacts[i]))
    && (forall s :: 0 <= s < SLOTS ==> (TipDown(report, s) <==> s in slots.Values))
    && (ButtonDown(report) <==> m.flags == 1)
    && var time := m.captureTimeUs / 100 % 65536; (time != 0 ==> report.scanTime == time)
  }

  /** Some message has been processed, and no poll since has released anything. */
  predicate Unreleased(inputs: seq<Input>) {
    inputs != [] &&
      var n := |inputs| - 1;
      match inputs[n]
      case Deliver(_, _) => true
      case Poll(now) => Unreleased(inputs[..n]) && !Releases(GripAfter(inputs[..n]), now)
  }

  /** The last message processed. */
  function Latest(inputs: seq<Input>): Message
    requires Unreleased(inputs)
  {
    var n := |inputs| - 1;
    match inputs[n]
    case Deliver(m, _) => m
    case Poll(_) => Latest(inputs[..n])
  }

  /** The last message processed was a FRAME, and it stands. */
  predicate Resting(inputs: seq<Input>) { Unreleased(inputs) && Latest(inputs).kind == Frame }

  /** The session after a frame remembers contacts of that frame only, one for each
      tip, and the last frame handed over has its button and its time. */
  ghost predicate Remembers(c: Connection, m: Message) {
    && c.log != [] && (LastButton(c.log) <==> ButtonFlag(m)) && WellFormed(m)
    && c.log[|c.log| - 1].frame.scanTime == m.captureTimeUs / 100 % 65536
    && c.session.slots.Keys == TipIds(m.contacts)
    && forall s :: 0 <= s < SLOTS && c.session.previous[s].Some? ==> c.session.previous[s].value in m.contacts
  }

  ghost predicate Presents(round: Rounding, c: Connection) {
    c.closed == None ==>
      && RunSession(round, c.inputs) == Run(c.session, None) && DeliversWellFormed(c.inputs)
      && (Resting(c.inputs) ==> Remembers(c, Latest(c.inputs)))
  }

  lemma {:induction false} CallPresents(round: Rounding, c: Connection, input: Input)
    requires Sound(round, c) && c.closed == None && Presents(round, c)
    requires input.Deliver? ==> WellFormed(input.message)
    ensures Presents(round, Call(round, c, input))
  {
    hide S.Process, OnTimeout, Sound, WellFormed, Remembers, Latest, Unreleased, RunSession;
    CallFollows(round, c, input);
    OneMoreInput(c.inputs, input);
    match input {
      case Deliver(m, now) => MessagePresents(round, c, m, now);
      case Poll(now) =>
        PollPresents(round, c, now);
        if Resting(c.inputs) {
          SameRemembers(c, Call(round, c, input), Latest(c.inputs));
        }
    }
  }

  lemma {:induction false} SameRemembers(c: Connection, later: Connection, m: Message)
    requires Remembers(c, m)
    ensures later.session == c.session && later.log == c.log ==> Remembers(later, m)
  {
  }

  lemma {:induction false} OneMoreInput(inputs: seq<Input>, input: Input)
    ensures var more := inputs + [input];
      && (Unreleased(more) <==>
           input.Deliver? || (Unreleased(inputs) && !Releases(GripAfter(inputs), input.now)))
      && (Unreleased(more) ==> Latest(more) == if input.Deliver? then input.message else Latest(inputs))
  {
    hide Releases;
    assert (inputs + [input])[..|inputs|] == inputs;
  }

  lemma {:induction false} MessagePresents(round: Rounding, c: Connection, m: Message, now: int)
    requires Sound(round, c) && c.closed == None && WellFormed(m)
    ensures var later := Call(round, c, Deliver(m, now));
      later.closed == None && m.kind == Frame ==> Remembers(later, m)
  {
    hide S.Process, OnTimeout, Remembered, Matched, LogMoves, WellFormed, FrameMoves, TipIds, ButtonFlag;
    if m.kind == Frame && Call(round, c, Deliver(m, now)).closed == None {
      FrameRemembers(round, c.session, m, now);
      CallsShow(round, c.session, m, now);
    }
  }

  /** A poll that releases nothing leaves the session and the reports as they are. */
  lemma {:induction false} PollPresents(round: Rounding, c: Connection, now: int)
    requires RunSession(round, c.inputs) == Run(c.session, None) && DeliversWellFormed(c.inputs)
    ensures var later := Call(round, c, Poll(now));
      !Releases(GripAfter(c.inputs), now) ==> later.session == c.session && later.log == c.log
  {
    hide RunSession, DeliversWellFormed, ReleaseFrame, InLanguage, Fits, Matched, GripAfter, Messages;
    AcceptedRuns(round, c.inputs);
    assert c.session.slots == map[] <==> c.session.slots.Keys == {};
  }

  lemma {:induction false} FrameRemembers(round: Rounding, st: SessionState, m: Message, now: int)
    requires Inv(st) && WellFormed(m) && m.kind == Frame && !S.Process(round, st, m, now).outcome.Throw?
    ensures var step := S.Process(round, st, m, now);
      && step.outcome.Report? && step.state.slots.Keys == TipIds(m.contacts)
      && step.outcome.frame.scanTime == m.captureTimeUs / 100 % 65536
      && (step.state.buttonDown <==> ButtonFlag(m))
      && forall s :: 0 <= s < SLOTS && step.state.previous[s].Some? ==> step.state.previous[s].value in m.contacts
  {
    hide S.FrameOf, TipIds, AssignSlots, TipAt, Remembered, ButtonFlag, WellFormed;
    CallsStamp(round, st, m, now);
    FrameSlots(round, st, m, now);
    var slots := AssignSlots(st.slots, m.contacts).slots;
    forall s | 0 <= s < SLOTS && Tips(slots, m.contacts)[s].Some?
      ensures Tips(slots, m.contacts)[s].value in m.contacts
    {
      TipAtMeans(slots, m.contacts, s);
    }
  }

  lemma {:induction false} DeliversPresent(round: Rounding, c: Connection, messages: seq<Message>, now: int)
    requires Sound(round, c) && c.closed == None && AllWellFormed(messages) && Presents(round, c)
    ensures Presents(round, DeliverAll(round, c, messages, now))
  {
    hide Sound, Call, WellFormed, Presents;
    if messages != [] {
      var n := |messages| - 1;
      DeliversPresent(round, c, messages[..n], now);
      DeliverAllSound(round, c, messages[..n], now);
      var before := DeliverAll(round, c, messages[..n], now);
      if before.closed == None {
        CallPresents(round, before, Deliver(messages[n], now));
      }
    }
  }

  lemma {:induction false} EventPresents(round: Rounding, c: Connection, event: Event)
    requires Sound(round, c) && Presents(round, c)
    ensures Presents(round, EventStep(round, c, event))
  {
    hide Inv, Synced, LogMoves, InStep, Call, Parse, DeliverAll, TipIds, WellFormed, Latest, Unreleased, RunSession;
    if c.closed == None {
      match event {
        case TimedOut(now) => CallPresents(round, c, Poll(now));
        case Chunk(bytes, now) =>
          var p := Parse(c.buffer + bytes);
          ParseConsumes(c.buffer + bytes);
          if p.error == None {
            DeliversPresent(round, c.(buffer := p.rest), p.messages, now);
          }
      }
    }
  }

  lemma {:induction false} EventsPresent(round: Rounding, log: seq<Emission>, events: seq<Event>)
    requires LogMoves(round, log) && Quiet(log)
    ensures Presents(round, RunEvents(round, log, events))
  {
    hide EventStep, LogMoves, Presents, Sound;
    if events == [] {
      NothingPresented(round, log);
    } else {
      var n := |events| - 1;
      EventsPresent(round, log, events[..n]);
      EventsSound(round, log, events[..n]);
      EventPresents(round, RunEvents(round, log, events[..n]), events[n]);
    }
  }

  lemma {:induction false} NothingPresented(round: Rounding, log: seq<Emission>)
    ensures Presents(round, Fresh(log))
  {
  }

  /** In every run of the connection loop: as long as an open connection has processed a
      FRAME as its last message and no poll since has released anything, the last
      report is that frame. */
  lemma {:induction false} LastFrameShown(round: Rounding, start: U16, connections: seq<seq<Event>>, events: seq<Event>)
    ensures var c := RunEvents(round, Serve(round, connections), events);
      var reports := Submitted(start, c.log);
      c.closed == None && Resting(c.inputs) ==>
        && reports != []
        && FrameShown(round, reports[|reports| - 1], Latest(c.inputs), c.session.slots)
  {
    hide RunEvents, Serve, Submitted, LogMoves, Inv, Synced, TipDown, ButtonDown, TipsDown, TipIds, WellFormed, Latest,
      Unreleased, RunSession;
    var log := Serve(round, connections);
    var c := RunEvents(round, log, events);
    ServeQuiet(round, connections);
    EventsSound(round, log, events);
    EventsPresent(round, log, events);
    if c.closed == None && Resting(c.inputs) {
      LastReport(round, start, c.log);
      var reports := Submitted(start, c.log);
      PlacesShown(round, reports[|reports| - 1], Latest(c.inputs), c.session);
    }
  }

  lemma {:induction false} PlacesShown(round: Rounding, report: HidReport, m: Message, st: SessionState)
    requires |report.contacts| == SLOTS && report.contactCount == TipsDown(report)
    requires ButtonDown(report) <==> ButtonFlag(m)
    requires m.captureTimeUs / 100 % 65536 != 0 ==> report.scanTime == m.captureTimeUs / 100 % 65536
    requires WellFormed(m) && Synced(st) && st.slots.Keys == TipIds(m.contacts)
    requires forall s :: 0 <= s < SLOTS && st.previous[s].Some? ==> st.previous[s].value in m.contacts
    requires forall s :: 0 <= s < SLOTS ==> PlaceShown(round, report, s, st.previous[s])
    ensures FrameShown(round, report, m, st.slots)
  {
    hide TipDown, ButtonDown, TipsDown, TipIds, ToLogical, ToLogicalY, HasTip, KnownContact;
    TipIdsMean(m.contacts);
    forall i | 0 <= i < |m.contacts| && HasTip(m.contacts[i])
      ensures m.contacts[i].identifier in st.slots
      ensures ShownAt(round, report, st.slots[m.contacts[i].identifier], m.contacts[i])
    {
      var s := st.slots[m.contacts[i].identifier];
      var j :| 0 <= j < |m.contacts| && m.contacts[j] == st.previous[s].value;
      assert i == j;
      assert PlaceShown(round, report, s, st.previous[s]);
    }
    forall s | 0 <= s < SLOTS
      ensures TipDown(report, s) <==> s in st.slots.Values
    {
      assert PlaceShown(round, report, s, st.previous[s]);
    }
  }

  /** From the Mac's last frame to the host. Let any part of what a connection has sent
      have arrived, with at least three messages in it. While the connection is open and
      no poll since has released anything, the last report is the last frame that
      has arrived whole. */
  lemma {:induction false} LastFrameArrives(threshold: U32, moves: seq<Move>, round: Rounding, start: U16,
                                            connections: seq<seq<Event>>, events: seq<Event>)
    requires SafeRun(Booted(threshold), moves)
    requires Received(events) <= SocketBytes(DoAll(Booted(threshold), moves).agent)
    requires var c := RunEvents(round, Serve(round, connections), events);
      c.closed == None && |Messages(c.inputs)| >= 3 && Unreleased(c.inputs)
    ensures var s := DoAll(Booted(threshold), moves).agent;
      var c := RunEvents(round, Serve(round, connections), events);
      var sent, k, reports := s.wire + s.inFlight, |Messages(c.inputs)|, Submitted(start, c.log);
      && AllEncoded(sent, false) && k <= |sent| && Spelled(sent)[k - 1].kind == Frame
      && (k < |sent| ==> |Parse(Received(events)).rest| < |sent[k]|)
      && reports != [] && FrameShown(round, reports[|reports| - 1], Spelled(sent)[k - 1], c.session.slots)
  {
    hide DoAll, RunEvents, Serve, Submitted, LockInv, AllEncoded, Spelled, Parse, Messages, Received, FrameShown,
      SafeRun, InLanguage, Fits, Offered, ChunksFit, SocketBytes, Contiguous, Latest, Unreleased;
    var s, c := DoAll(Booted(threshold), moves).agent, RunEvents(round, Serve(round, connections), events);
    var sent, k := s.wire + s.inFlight, |Messages(c.inputs)|;
    LockRuns(threshold, moves);
    RunEncoded(threshold, moves, false);
    SentStream(s, false);
    StaysOpen(round, Serve(round, connections), events);
    EncodedParse(sent, Received(events));
    LatestMessage(c.inputs);
    ThirdIsFrame(sent, k - 1);
    LastFrameShown(round, start, connections, events);
  }

  lemma {:induction false} LatestMessage(inputs: seq<Input>)
    requires Unreleased(inputs)
    ensures Messages(inputs) != [] && Messages(inputs)[|Messages(inputs)| - 1] == Latest(inputs)
  {
    hide Releases, GripAfter;
    if inputs[|inputs| - 1].Poll? {
      LatestMessage(inputs[..|inputs| - 1]);
    }
  }

  lemma {:induction false} ThirdIsFrame(stream: seq<seq<Byte>>, n: nat)
    requires Contiguous(stream) && AllEncoded(stream, false) && 2 <= n < |stream|
    ensures Spelled(stream)[n].kind == Frame
  {
    hide LenientAccepts, LenientMessage, Encoded, NumberOf;
    SpelledAt(stream);
    assert Spells(stream[n], EpochKind(n), NumberOf(stream[n]));
  }
}
