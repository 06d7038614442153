/** The snapshot a button edge repeats: the contacts of the last hardware frame of
    its own connection, never those of an earlier one. */
module Snapshot {
  import opened Words
  import opened Wire
  import opened TouchFrame
  import opened MessageQueue
  import opened PressureLatch
  import opened Agent
  import opened AgentLaws
  import opened LateCallbacks
  import CodecLaws

  /** The touches of the last contact frame processed since the connection was made;
      none before the first. */
  function EpochTouches(threshold: U32, actions: seq<Action>): seq<Touch> {
    if actions == [] then []
    else
      var n := |actions| - 1;
      NextTouches(RunAgent(threshold, actions[..n]), actions[n], EpochTouches(threshold, actions[..n]))
  }

  function NextTouches(s: AgentState, action: Action, touches: seq<Touch>): seq<Touch> {
    match action
    case SenderStep(fate) => if s.phase.Connect? && s.running && fate.ok then [] else touches
    case ContactFrame(list, _, _) => if s.connected && !Refused(list) then ListOf(list) else touches
    case _ => touches
  }

  ghost predicate Shows(frame: TPFrame, touches: seq<Touch>) {
    && |touches| <= MAX_CONTACTS && frame.contactCount == |touches|
    && frame.contacts[..|touches|] == ContactsOf(touches)
  }

  ghost predicate SnapshotInv(s: AgentState, touches: seq<Touch>) {
    && (Greeting(s.phase) ==> touches == [])
    && (s.phase.Publish? || Streaming(s.phase) ==> Shows(s.latest, touches))
  }

  lemma {:induction false} SnapshotStep(s: AgentState, touches: seq<Touch>, action: Action)
    requires SnapshotInv(s, touches) && Atomic(action) && (s.connected ==> Streaming(s.phase))
    ensures SnapshotInv(Act(s, action), NextTouches(s, action, touches))
  {
    hide Shows, Tick, Enqueue, FrameFrom, SampleOf, LatchStep;
    match action {
      case SenderStep(fate) => SnapshotTick(s, touches, fate);
      case ContactFrame(list, deviceTimeUs, clock) =>
        if s.connected && !Refused(list) {
          var p := PrepareContact(s, ListOf(list), deviceTimeUs, clock);
          FrameShows(ListOf(list), deviceTimeUs, ButtonFlags(p.agent));
          EnqueueKeepsSnapshot(p.agent, p.frame, clock);
        }
      case ButtonEdge(pressed, released, clock) =>
        if s.connected {
          var p := PrepareButton(NoteEdge(s, pressed, released), clock);
          EdgeShows(s.latest, touches, p.frame.flags);
          EnqueueKeepsSnapshot(p.agent, p.frame, clock);
        }
      case Stop =>
    }
  }

  lemma {:induction false} FrameShows(touches: seq<Touch>, deviceTimeUs: U64, flags: U16)
    requires |touches| <= MAX_CONTACTS
    ensures Shows(FrameFrom(touches, deviceTimeUs, flags), touches)
  {
  }

  lemma {:induction false} EdgeShows(frame: TPFrame, touches: seq<Touch>, flags: U16)
    ensures Shows(frame, touches) ==> Shows(frame.(flags := flags, deviceTimeUs := 0), touches)
  {
  }

  lemma {:induction false} EnqueueKeepsSnapshot(s: AgentState, frame: TPFrame, clock: U64)
    ensures Enqueue(s, frame, clock).latest == s.latest && Enqueue(s, frame, clock).phase == s.phase
  {
    hide Encodable, MessageBytes;
  }

  lemma {:induction false} SnapshotTick(s: AgentState, touches: seq<Touch>, fate: Fate)
    requires SnapshotInv(s, touches)
    ensures SnapshotInv(Tick(s, fate), NextTouches(s, SenderStep(fate), touches))
  {
    hide Shows, Tick;
    NothingShown();
    if Greeting(s.phase) {
      GreetingLatest(s, fate);
    } else {
      StreamingLatest(s, fate);
    }
  }

  /** Only clearing the snapshot changes it, and a thread streams only past that. */
  lemma {:induction false} GreetingLatest(s: AgentState, fate: Fate)
    requires Greeting(s.phase)
    ensures var later := Tick(s, fate);
      && later.latest == (if s.phase.ClearSnapshot? then ZERO_FRAME else s.latest)
      && (later.phase.Publish? <==> s.phase.ClearSnapshot?) && (Streaming(later.phase) <==> s.phase.Publish?)
  {
    hide ControlBytes, Cut, Zeros;
  }

  lemma {:induction false} StreamingLatest(s: AgentState, fate: Fate)
    requires !Greeting(s.phase)
    ensures var later := Tick(s, fate);
      && later.latest == s.latest && !later.phase.Publish?
      && (Streaming(later.phase) ==> Streaming(s.phase))
      && (Greeting(later.phase) ==> s.phase.Connect? && s.running && fate.ok)
  {
    hide Tick;
    if s.phase.CheckLoop? || s.phase.PopNext? || s.phase.SendNext? {
      LoopLatest(s, fate);
    } else {
      EndLatest(s, fate);
    }
  }

  lemma {:induction false} LoopLatest(s: AgentState, fate: Fate)
    requires s.phase.CheckLoop? || s.phase.PopNext? || s.phase.SendNext?
    ensures Tick(s, fate).latest == s.latest && Streaming(Tick(s, fate).phase)
  {
    hide SendControl, Cut, Zeros;
  }

  lemma {:induction false} EndLatest(s: AgentState, fate: Fate)
    requires s.phase.Unpublish? || s.phase.Drain? || s.phase.CloseSocket? || s.phase.Connect?
    ensures var later := Tick(s, fate);
      && later.latest == s.latest
      && (later.phase.Drain? || later.phase.CloseSocket? || later.phase.Connect?
          || (later.phase.ClearStale? && s.phase.Connect? && s.running && fate.ok))
  {
    hide SendControl, Cut, Zeros;
  }

  lemma {:induction false} NothingShown()
    ensures Shows(ZERO_FRAME, [])
  {
  }

  lemma {:induction false} SnapshotRun(threshold: U32, actions: seq<Action>)
    requires AllAtomic(actions)
    ensures SnapshotInv(RunAgent(threshold, actions), EpochTouches(threshold, actions))
  {
    hide SnapshotInv, NextTouches, Act, EpochInv, Atomic;
    if actions == [] {
      assert SnapshotInv(Started(threshold), []) by { StartShows(threshold); }
    } else {
      var n := |actions| - 1;
      SnapshotRun(threshold, actions[..n]);
      EpochsContiguous(threshold, actions[..n]);
      var s := RunAgent(threshold, actions[..n]);
      assert s.connected ==> Streaming(s.phase) by { ConnectedStreams(s); }
      SnapshotStep(s, EpochTouches(threshold, actions[..n]), actions[n]);
    }
  }

  lemma {:induction false} StartShows(threshold: U32)
    ensures SnapshotInv(Started(threshold), [])
  {
  }

  lemma {:induction false} ConnectedStreams(s: AgentState)
    requires EpochInv(s)
    ensures s.connected ==> Streaming(s.phase)
  {
    hide Contiguous, EndsAt;
  }

  /** In every run with atomic callbacks, the frame of a button edge carries exactly
      the contacts of the last contact frame of its own connection, or none. */
  lemma {:induction false} EdgeRepeatsSnapshot(threshold: U32, actions: seq<Action>, pressed: int, released: int,
                                               clock: U64)
    requires AllAtomic(actions)
    ensures var s := RunAgent(threshold, actions);
      var later := Act(s, ButtonEdge(pressed, released, clock));
      s.connected && |s.queue| < QUEUE_CAPACITY ==>
        && |later.queue| == |s.queue| + 1 && LenientAccepts(later.queue[|s.queue|])
        && LenientMessage(later.queue[|s.queue|]).kind == Frame
        && LenientMessage(later.queue[|s.queue|]).contacts == ContactsOf(EpochTouches(threshold, actions))
  {
    hide RunAgent, EpochTouches, EpochInv, LenientAccepts, LenientMessage, MessageBytes;
    SnapshotRun(threshold, actions);
    EpochsContiguous(threshold, actions);
    var s := RunAgent(threshold, actions);
    ConnectedStreams(s);
    if s.connected && |s.queue| < QUEUE_CAPACITY {
      var p := PrepareButton(NoteEdge(s, pressed, released), clock);
      CodecLaws.LenientRoundTrip(Frame, p.frame.(sequence := Wrap32(s.sequence + 1), captureTimeUs := clock));
    }
  }
}
