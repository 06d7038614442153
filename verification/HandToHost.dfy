/** From the framework's callbacks to the host's report, in one statement. */
module HandToHost {
  import opened Words
  import opened Wire
  import opened Coordinates
  import opened Session
  import opened SessionRuns
  import opened Driver
  import opened Receiver
  import opened Connections
  import opened TouchFrame
  import opened Agent
  import opened AgentLaws
  import opened AgentSteps
  import opened LateCallbacks
  import opened HeldLock
  import opened SentMessages
  import opened CallbackLaws
  import opened LastFrame

  /** The report is the hand: every finger on the surface on a slot of its own at its own
      position, confident, no other slot down, and the button as held. */
  ghost predicate HandShown(round: Rounding, report: HidReport, touches: seq<Touch>, held: bool,
                            slots: map<U32, nat>)
  {
    && |report.contacts| == 5
    && (forall i :: 0 <= i < |touches| && OnSurface(touches[i]) ==> FingerShown(round, report, touches[i], slots))
    && (forall s :: 0 <= s < 5 && TipDown(report, s) ==>
         exists i :: 0 <= i < |touches| && OnSurface(touches[i]) && SlotOf(touches[i], slots) == Some(s))
    && (ButtonDown(report) <==> held)
  }

  function SlotOf(t: Touch, slots: map<U32, nat>): Option<nat> {
    var identifier := t.identifier % 4294967296;
    if identifier in slots then Some(slots[identifier]) else None
  }

  ghost predicate FingerShown(round: Rounding, report: HidReport, t: Touch, slots: map<U32, nat>)
    requires |report.contacts| == 5
  {
    SlotOf(t, slots).Some? &&
      var s := SlotOf(t, slots).value;
      && s < 5 && TipDown(report, s) && HasBit(report.contacts[s].flags, 1)
      && report.contacts[s].x == ToLogical(round, t.x) && report.contacts[s].y == ToLogicalY(round, t.y)
  }

  lemma {:induction false} ShownHand(round: Rounding, report: HidReport, m: Message, slots: map<U32, nat>,
                                     touches: seq<Touch>, held: bool)
    requires FrameShown(round, report, m, slots) && AreTouches(m.contacts, touches) && (m.flags == 1 <==> held)
    ensures HandShown(round, report, touches, held, slots)
  {
    hide TipDown, ButtonDown, TipsDown, TipIds, ToLogical, ToLogicalY, HasBit;
    TipIdsMean(m.contacts);
    forall i | 0 <= i < |touches| && OnSurface(touches[i])
      ensures FingerShown(round, report, touches[i], slots)
    {
      assert IsTouch(m.contacts[i], touches[i]);
    }
    forall s | 0 <= s < 5 && TipDown(report, s)
      ensures exists i :: 0 <= i < |touches| && OnSurface(touches[i]) && SlotOf(touches[i], slots) == Some(s)
    {
      var id :| id in slots && slots[id] == s;
      var i :| 0 <= i < |m.contacts| && HasTip(m.contacts[i]) && m.contacts[i].identifier == id;
      assert IsTouch(m.contacts[i], touches[i]);
    }
  }

  /** From hand to host. In every run of the agent with atomic callbacks, let any part of
      what its connection has sent have arrived, a frame at least, in chunks of any size
      with polls between. While the connection is open and no poll since has released
      anything, the last report shows the touches of the callback whose frame was the
      last to arrive whole, and the button as the user held it at that callback. */
  lemma {:induction false} HandReachesHost(threshold: U32, actions: seq<Action>, round: Rounding, start: U16,
                                           connections: seq<seq<Event>>, events: seq<Event>)
    requires AllAtomic(actions)
    requires Received(events) <= SocketBytes(RunAgent(threshold, actions))
    requires var c := RunEvents(round, Serve(round, connections), events);
      c.closed == None && |Messages(c.inputs)| >= 3 && Unreleased(c.inputs)
    ensures var s := RunAgent(threshold, actions);
      var c := RunEvents(round, Serve(round, connections), events);
      var sent, k, reports := s.wire + s.inFlight, |Messages(c.inputs)|, Submitted(start, c.log);
      && AllEncoded(sent, false) && k <= |sent| && reports != []
      && exists j ::
           && 0 < j <= |actions| && Reports(Spelled(sent)[k - 1], threshold, actions[..j])
           && HandShown(round, reports[|reports| - 1], Carried(threshold, actions[..j]),
                        ButtonHeld(threshold, actions[..j]), c.session.slots)
  {
    hide RunAgent, RunEvents, Serve, Submitted, AllEncoded, Spelled, Messages, Received, FrameShown, SafeRun, DoAll,
      SocketBytes, Unreleased, HandShown, ButtonHeld, Carried, AreTouches, StreamKnown, LenientAccepts, LenientMessage;
    AtomicRun(threshold, actions);
    LastFrameArrives(threshold, Wholes(actions), round, start, connections, events);
    var s, c := RunAgent(threshold, actions), RunEvents(round, Serve(round, connections), events);
    var sent, k, reports := s.wire + s.inFlight, |Messages(c.inputs)|, Submitted(start, c.log);
    EveryFrameReports(threshold, actions);
    SentKnown(threshold, actions, s, k - 1);
    KnownFrame(threshold, actions, sent, k - 1);
    var m := Spelled(sent)[k - 1];
    var j :| 0 < j <= |actions| && Reports(m, threshold, actions[..j]);
    ShownHand(round, reports[|reports| - 1], m, c.session.slots, Carried(threshold, actions[..j]),
              ButtonHeld(threshold, actions[..j]));
  }

  lemma {:induction false} SentKnown(threshold: U32, actions: seq<Action>, s: AgentState, n: nat)
    requires StreamKnown(threshold, actions, s) && n < |s.wire + s.inFlight|
    ensures Known(threshold, actions, (s.wire + s.inFlight)[n])
  {
    hide Known;
  }

  lemma {:induction false} KnownFrame(threshold: U32, actions: seq<Action>, sent: seq<seq<Byte>>, n: nat)
    requires AllEncoded(sent, false) && n < |sent| && Known(threshold, actions, sent[n])
    requires Spelled(sent)[n].kind == Frame
    ensures exists j :: 0 < j <= |actions| && Reports(Spelled(sent)[n], threshold, actions[..j])
  {
    hide Reports, LenientAccepts, LenientMessage, Encoded;
    SpelledAt(sent);
  }
}
