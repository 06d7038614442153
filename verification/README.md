# The touch pipeline, from the Mac's callbacks to the Windows HID report

A trackpad frame travels through four machines: the Mac agent numbers, encodes and queues it; the
receiver decodes the byte stream; a contact session maps Mac identifiers to five HID slots; the driver
turns the session's frame into a HID report. This project models all four and proves what they keep on
their own and together, from the sender's callbacks to the tip bits of the last report.

Each stateful part appears twice. A specification over values says what one call does
(`Session`, `Agent`, `Receiver`, the codec functions), and a class or method works as the source does, with
fields, arrays and loops, and is proved equal to it (`TouchSession`, `StreamDecoder`, `MacAgent`,
`MessageQueue`, `DeviceContext`, `ReceiverLoop`, the put helpers of `TouchFrame`). The laws are lemmas about
the specification. A call that throws returns the error together with the state it leaves behind, including
the parts it had already changed.

| file | part |
|---|---|
| Words, Wire, TouchFrame, Mtp1, CodecLaws | big-endian fields, the C encoder and lenient decoder, the strict decoder, and the three against each other |
| Streams | the incremental decoder against a one-shot parse |
| Floats, Coordinates | the numbers float patterns stand for, and float coordinates to the HID logical range |
| Session, SessionLaws, SessionRuns, HostLaws, TouchSession | the contact session: one call, its laws, whole runs, what the host is shown, the class |
| Driver | the conversion of a frame to a report |
| Receiver, SlotLifecycle, ReceiverLoop | the connection loop over any number of connections, and the life of one slot |
| Connections | one connection against the one-shot parse of what it received: when it stays open, what ends it, what is lost |
| MessageQueue, PressureLatch, Agent, AgentLaws, MacAgent | the sender: ring buffer, pressure click, epoch protocol, the object |
| LateCallbacks | late callbacks that are not interrupted: when such a frame does harm |
| AgentSteps, HeldLock | the sender at the grain of its lock and its stores: when a move of an interrupted callback does harm |
| LockOrder, AgentOrder | the order of frames at that grain |
| Snapshot, CallbackLaws | what a button edge repeats, and what every callback puts on the wire, said of touches and edges |
| SentMessages, EndToEnd, LastFrame | the sender's socket against the receiver's checks, and the last frame sent against the last report |
| HandToHost | from the framework's callbacks to the host's report, in one statement |
| Witnesses | concrete inputs behind the findings below |

Floats are their 32-bit patterns. Time, the results of connect and send, chunk boundaries and the status the
virtual HID framework returns are parameters, quantified over in every statement. A slot is down for the
host when the tip bit of the last submitted report says so; the button is that report's Button field.

## What was found

- The 200 ms release that the handoff document promises "while contacts are active"
  (docs/WINDOWS_HANDOFF.md:146) is only looked at when a receive times out. `SessionRuns.TimeoutRelease`
  says exactly when a poll releases. While chunks keep coming there is no poll, and `Connections.TrickleHolds`
  says exactly when they also cause no call of the session: as long as they complete no message and raise no
  objection, which any unfinished message does for up to 475 bytes. `Witnesses.HeldThroughTrickle` is a
  finger that the host goes on seeing while a ten-contact frame trickles in, at any times.
- A stream the receiver would accept is refused when its bytes are coalesced: residue and chunk together may
  not exceed 952 bytes (windows/receiver/Mtp1.cpp:127), while one receive hands over up to 4096.
  `Connections.StaysOpen` is the exact law; `Witnesses.CoalescedRefused` is 972 bytes of valid messages that
  close the connection in one chunk and are all processed in small ones.
- A malformed message discards the messages completed before it in the same chunk: `Append` throws before the
  loop that pops them runs. `Connections.LostMessages` says which messages were processed whenever a
  connection ends, so nothing is lost at an objection or at the limit exactly when that chunk completed no
  message. `Witnesses.LostWithJunk` is one byte string that loses its HELLO in one chunk and not in two.
- The document maps identifiers to slots 0 to 9 (docs/WINDOWS_HANDOFF.md:161) and later asks for five
  (line 210). The code has five, and a frame is refused when the contacts leaving in it and its own
  tips together exceed five (`SessionLaws.CapacityLaw`), although the tips alone may fit:
  `Witnesses.OneTipRefused` is a frame with one tip, refused after a frame with five others.
- The sender's callbacks test `connected` before taking the frame lock (mac/Agent/main.c:192-196, 358-366), and
  number, push and give up one after another under that lock alone (lines 158-173), while the sender thread
  clears, greets and streams without it, except to clear the snapshot (lines 326-328). So a callback that made
  its test in one epoch can move in a later one. `HeldLock.LockExactly` says of every such move when it can
  put a gap on a wire, by a guard on phase, flags, queue length and whether a control message has been numbered
  since: a number taken between HELLO and RESET; a frame pushed after the queue was cleared for an epoch whose
  greeting is or will be newer than it; a push while the thread of a given-up epoch may still pop; and a give-up
  that ends where its request to reconnect is lost. The moments of the give-up, and the one of
  `LateCallbacks.LateExactly` with a full queue, need 256 late frames pushed in the same greeting before, each
  from a callback of its own.
  `HeldLock.SplitRace` is a run from the start of the agent in which a callback takes number 4 while connected
  and is interrupted, and the wire of the next epoch reads HELLO 5, RESET 6, FRAME 4; in `LateCallbacks.LateRace`
  a callback comes late as a whole and the wire reads HELLO 4, RESET 6. `HeldLock.LockRuns` is contiguity for
  every run without such moments, and the end-to-end theorems rest on it; runs with atomic callbacks are among
  them (`HeldLock.AtomicRun`). `LockOrder` and `AgentOrder` need no assumption on when callbacks move.

## Model

| member | source | states |
|---|---|---|
| HandToHost.HandReachesHost | mac/Agent/main.c:178-203 | in every run of the agent with atomic callbacks, and any part of what its connection has sent having arrived, a frame at least: while the connection is open and no poll since has released anything, the last report shows the touches of the callback whose frame was the last to arrive whole (every finger in state 3 or 4 on a slot of its own at its own position, confident, no other slot down), and the button as the user held it then |
| Receiver.NoGhostInput | windows/receiver/main.cpp:104-141 | over every run of the connection loop (any connections, chunks, polls, malformed messages, protocol errors): at every point of a connection a slot is tip-down in the last report iff the session remembers a contact there, and the button is down only if the session has something to release; whenever a connection has ended, all tips and Button 1 are up; the driver refuses no frame |
| Receiver.NoGhostWithinChunk | windows/receiver/main.cpp:129-132 | the same agreement between any two messages of one chunk, also just after one of them threw |
| Witnesses.HeldThroughTrickle | windows/receiver/main.cpp:116-126 | after one finger at time 0, a ten-contact frame but for its last byte, or any front of it, in any chunks at any times, leaves the finger down for the host, although from 200 ms on any poll would release it |
| Witnesses.CoalescedRefused | windows/receiver/Mtp1.cpp:126-129 | 972 bytes of HELLO, RESET and empty frames close a connection in one chunk and are all processed in chunks of at most 477 |
| Witnesses.LostWithJunk | windows/receiver/main.cpp:128-137 | one byte string, a HELLO and a malformed header: processed and then closed in two chunks, lost in one |
| Witnesses.OneTipRefused | windows/receiver/TouchSession.cpp:57-60 | HELLO, RESET, a FRAME with five tips, then a FRAME with one other tip is refused for capacity |
| Receiver.EventsSound | windows/receiver/main.cpp:114-134 | every event of a connection keeps the session invariant, the legality of every slot's move in every frame, and the agreement with what was last shown |
| Receiver.ServeQuiet | windows/receiver/main.cpp:104-137 | after any sequence of connections nothing is shown as held |
| Receiver.LastReport | windows/driver/Driver.c:15-37 | the driver accepts every frame of such a run, and its last report shows exactly the remembered contacts at their positions and with their confidence, the last frame's button, a contact count equal to its tip bits, and the frame's scan time, or, if it has none, the starting counter plus the number of frames without one so far, modulo 2^16 |
| Receiver.ScanCounts | windows/driver/Driver.c:17 | the driver's own counter counts exactly the frames without a scan time |
| SlotLifecycle.BetweenTips | windows/receiver/TouchSession.cpp:69-111 | two successive tips on a slot are either adjacent frames of one identifier, or have exactly one lift between them, directly after the first, at the position last reported and with its range and confidence bits |
| SlotLifecycle.LiftFollows | windows/receiver/TouchSession.cpp:69-78 | a tip that the next frame does not continue is lifted by it, at its position, with its range and confidence, the tip bit alone cleared |
| Session.LiftKeeps | windows/receiver/TouchSession.cpp:74-75 | a lift differs from its contact in the tip bit alone |
| SlotLifecycle.TouchesOfARun | windows/receiver/TouchSession.cpp:50-152 | the same for every run of the connection loop, across reconnects, timeouts and errors |
| SlotLifecycle.KeepsSlot | windows/receiver/TouchSession.cpp:55-66 | an identifier keeps its slot for as long as it is a tip of every FRAME and no RESET or timeout release comes between |
| SessionRuns.AcceptedRuns | windows/receiver/TouchSession.cpp:15-114 | a run of calls and polls finishes without a throw iff its types are a prefix of HELLO RESET (RESET or FRAME)*, its sequence numbers are consecutive modulo 2^32, and each FRAME's tips fit the five slots beside whoever was touching, by a session with no slots or records; a run in the language can only throw for capacity |
| SessionRuns.DeliverStands | windows/receiver/TouchSession.cpp:15-38 | one message is accepted iff it is the next allowed one, and the concrete session then stands where the abstract one does |
| SessionRuns.WhichError | windows/receiver/TouchSession.cpp:16-60 | which error a message meets, by the messages before it and who is touching: sequence first, then lifecycle, then capacity |
| SessionRuns.DisconnectStands | windows/receiver/TouchSession.cpp:116-123 | a disconnect leaves a session at the start of a connection with nothing held, and reports iff something was held |
| SessionRuns.PollStands | windows/receiver/TouchSession.cpp:125-130 | a poll never throws and changes the concrete session as it changes the abstract one |
| SessionRuns.TimeoutRelease | windows/receiver/TouchSession.cpp:125-152 | a poll releases iff something is held and 200 ms have passed since the last FRAME; everything is then up, a second poll is silent, and the next FRAME in sequence with at most five tips is accepted |
| Connections.TrickleHolds | windows/receiver/main.cpp:116-133 | while chunks keep coming, a connection makes no call and stays open iff what arrived since completes no message and raises no objection; session, calls and reports are then unchanged, whatever the clock says |
| Connections.StaysOpen | windows/receiver/main.cpp:114-137 | a connection is open iff no chunk met the limit, the one-shot parse of its bytes raises no objection, the parsed messages are in the session's language, and every FRAME fits the slots; it has then processed every parsed message |
| Connections.EventsFollow | windows/receiver/main.cpp:114-137 | after any events a connection is open with every offered call made, or was ended by one chunk in one of three ways, each with the exact calls made: limit, objection, throw |
| Connections.LostMessages | windows/receiver/main.cpp:128-137 | at the limit or at an objection no message completed by the last chunk was processed, and nothing is lost iff it completed none; at a throw, every message up to the one that threw and none after |
| Connections.HowClosed | windows/receiver/main.cpp:126-137 | the error that ended a connection tells which of the three ways it was |
| Connections.CallsOffered | windows/receiver/main.cpp:128-132 | the calls made are always the first of those the one-shot parse offers |
| Connections.OfferedMessages | windows/receiver/main.cpp:128-132 | what a session is offered is the one-shot parse, message by message, all well-formed |
| Connections.NoLimit | windows/receiver/Mtp1.cpp:126-129 | chunks of at most 477 bytes never close a connection at the buffer limit |
| SessionRuns.SessionThrows | windows/receiver/TouchSession.cpp:15-67 | what a session can throw is its own, never an objection of the decoder or the limit |
| SessionRuns.EmptyAccepts | windows/receiver/TouchSession.cpp:40-67 | with nothing held, the next FRAME in sequence is accepted iff its own tips fit |
| SessionLaws.CapacityLaw | windows/receiver/TouchSession.cpp:50-67 | a FRAME past the lifecycle checks throws iff the mapped identifiers and its tips together are more than five; "no free HID contact slot" and "report contact capacity exceeded" cannot arise |
| SessionLaws.AssignLaw | windows/receiver/TouchSession.cpp:50-67 | slot assignment only adds the frame's tips, keeps the map injective into 0..4, and fails exactly for capacity |
| SessionLaws.Pigeonhole | windows/receiver/TouchSession.cpp:165-174 | an injective map of fewer than five identifiers leaves a free slot |
| SessionLaws.AtMostFive | windows/receiver/TouchSession.cpp:58-60 | an injective map into the slots has as many slots in use as identifiers, at most five |
| SessionLaws.LeastSlotLaw | windows/receiver/TouchSession.cpp:55-66 | a new identifier gets a slot nobody held before the frame, leaving contacts included, and every lower slot was held or given to an earlier tip |
| SessionLaws.FrameSlots | windows/receiver/TouchSession.cpp:98-111 | after a FRAME the mapped identifiers are exactly its tips, and those mapped before keep their slots |
| SessionLaws.FrameSynced | windows/receiver/TouchSession.cpp:105-111 | after a FRAME each mapped identifier's slot remembers its own tip-set record, and nothing else is remembered |
| SessionLaws.ProcessKeeps | windows/receiver/TouchSession.cpp:15-114 | no call breaks the invariant; one that throws half-way leaves the remembered contacts alone and loses no identifier |
| SessionLaws.FrameStepKeeps | windows/receiver/TouchSession.cpp:40-114 | the same for the FRAME branch alone |
| HostLaws.CallsShow | windows/receiver/TouchSession.cpp:15-152 | every call, throwing or not, shows the host either nothing, keeping agreement, or a frame in which every slot moves legally and whose button is the session's |
| HostLaws.CallsStamp | windows/receiver/TouchSession.cpp:40-46 | a frame carries the number of its message, or of the last one; a release the RESET flag alone and no time; a FRAME its button bit and its capture time in whole 100 us modulo 2^16 |
| HostLaws.FrameStepShows | windows/receiver/TouchSession.cpp:69-96 | a tip continues the same identifier or starts on an empty slot; a departing contact is lifted once, in place; an empty slot is not mentioned |
| HostLaws.FrameFits | windows/receiver/TouchSession.cpp:80-96 | every frame built passes all driver checks, names slots in increasing order, needs no clamp, and counts its tips; each slot's record is the one meant for it |
| HostLaws.SlotOfRecords | windows/receiver/TouchSession.cpp:80-92 | the records hold one entry per occupied slot and none for the others |
| HostLaws.RecordsFit | windows/receiver/TouchSession.cpp:80-92 | the records are in strictly increasing slot order and fit the driver |
| TouchSession.TouchSession.ProcessFrame | windows/receiver/TouchSession.cpp:40-114 | the FRAME branch with its loops equals the specification for every iteration order of the slot map, so neither the output nor the next state depends on hash order |
| TouchSession.TouchSession.Process | windows/receiver/TouchSession.cpp:15-38 | state and result, or error, are exactly the specification's, and the invariant holds also after a throw |
| TouchSession.TouchSession.AssignTips | windows/receiver/TouchSession.cpp:50-67 | tips get their slots in message order up to the first failure, with the map it leaves |
| TouchSession.TouchSession.SlotOf | windows/receiver/TouchSession.cpp:55-65 | the slot an identifier has, or the lowest free one, or the capacity error |
| TouchSession.TouchSession.AllocateSlot | windows/receiver/TouchSession.cpp:165-174 | the lowest slot no identifier holds |
| TouchSession.TouchSession.MarkLeaving | windows/receiver/TouchSession.cpp:69-78 | in any iteration order: exactly the mapped identifiers absent from the frame leave, and each remembered slot without a tip carries its lift |
| TouchSession.TouchSession.DropLeaving | windows/receiver/TouchSession.cpp:98-104 | exactly the leaving identifiers are unmapped and their slots forgotten |
| TouchSession.TouchSession.RememberTips | windows/receiver/TouchSession.cpp:105-111 | in any iteration order: each slot remembers its tip of this frame |
| TouchSession.TouchSession.BuildFrame | windows/receiver/TouchSession.cpp:80-96 | the frame lists the occupied slots in order with both counts right; the capacity throw is dead code |
| TouchSession.TouchSession.ReleaseAll | windows/receiver/TouchSession.cpp:132-152 | one lift per remembered contact, and nothing held afterwards |
| TouchSession.TouchSession.OnTimeout | windows/receiver/TouchSession.cpp:125-130 | equals the specification of a poll |
| TouchSession.TouchSession.OnDisconnect | windows/receiver/TouchSession.cpp:116-123 | equals the specification of a disconnect, lifecycle flags cleared |
| TouchSession.TouchSession.constructor | windows/receiver/TouchSession.h:29-36 | a fresh session holds nothing and satisfies the invariant |
| Streams.FragmentationIndependence | windows/receiver/Mtp1.cpp:126-159 | for every stream and every cut that never meets the buffer limit, the messages decoded and the verdict are those of the one-shot parse of the whole stream, also when a malformed message stops the decoder |
| Streams.StreamDecoder.Append | windows/receiver/Mtp1.cpp:126-132 | beyond 952 bytes nothing changes; otherwise the new messages, remainder and error are those of parsing the remainder and the chunk, and everything popped and pending is the one-shot parse of all bytes appended |
| Streams.StreamDecoder.ParseAvailable | windows/receiver/Mtp1.cpp:148-159 | the loop computes the one-shot parse of the buffer, keeping offending bytes and earlier messages on an error |
| Streams.StreamDecoder.PopMessage | windows/receiver/Mtp1.cpp:134-141 | removes and returns the oldest message |
| Streams.ParseExtends | windows/receiver/Mtp1.cpp:148-159 | parsing a longer stream is parsing the rest of the shorter one with the new bytes |
| Streams.ParseConsumes | windows/receiver/Mtp1.cpp:148-159 | the bytes are exactly the encodings of the messages parsed and then the remainder; every message is well-formed and costs at least 36 bytes |
| Streams.ParseStops | windows/receiver/Mtp1.cpp:148-159 | an unobjected remainder has at most 475 bytes, "truncated header" and "message length mismatch" never stop a stream, and parsing the remainder again changes nothing |
| Streams.StuckParse | windows/receiver/Mtp1.cpp:148-159 | after an objection, more bytes change neither the messages nor the objection |
| Streams.SmallChunksNeverHitLimit | windows/receiver/Mtp1.cpp:126-129 | chunks of at most 477 bytes never meet the 952-byte limit |
| Streams.StreamRoundTrip | windows/receiver/Mtp1.cpp:148-159 | any list of well-formed messages, encoded and concatenated, parses back to exactly that list with nothing left |
| Streams.ChunkedRoundTrip | windows/receiver/Mtp1.cpp:126-159 | the same through any admissible chunks |
| Streams.PrefixParses | windows/receiver/Mtp1.cpp:148-159 | any front of such a stream parses without objection to the messages it completes |
| CodecLaws.DecodersAgree | windows/receiver/Mtp1.cpp:72-124 | on every byte string the strict decoder succeeds iff the lenient one does and every contact has reserved 0, known flags, nine finite floats and its own identifier; then all fields agree and encoding reproduces the bytes |
| CodecLaws.StrictRoundTrip | protocol/TouchFrame.c:70-97 | the strict decoder returns every well-formed message from its encoding |
| CodecLaws.LenientRoundTrip | protocol/TouchFrame.c:48-146 | whatever the encoder accepts, the lenient decoder returns; control messages with no contacts and no flags |
| CodecLaws.LenientReencodes | protocol/TouchFrame.c:100-146 | re-encoding an accepted byte string reproduces it iff no reserved field was set |
| CodecLaws.MessageReads | protocol/TouchFrame.c:70-96 | bytes are a message's wire form iff every field reads back as the message's and every reserved field is 0 |
| CodecLaws.WireLayout | protocol/TouchFrame.c:70-96 | the wire form field by field in plain numbers: where each stands, how wide it is, big-endian, the magic spelled out |
| CodecLaws.EncodedFields | protocol/TouchFrame.c:59-78 | what a C frame becomes: its own number and times, and for a FRAME its flags and first contacts, for a control message neither |
| CodecLaws.ReadersBigEndian | protocol/TouchFrame.c:28-39 | the readers read big-endian numbers |
| CodecLaws.HeaderErrors | windows/receiver/Mtp1.cpp:49-70 | which error a header meets, by its bytes, in the order of the checks; else the length it announces |
| CodecLaws.ContactErrors | windows/receiver/Mtp1.cpp:92-122 | which error the contacts meet: that of the first record objected to, in the order of the checks |
| CodecLaws.DecodeErrors | windows/receiver/Mtp1.cpp:72-81 | which error a byte string meets as one message |
| CodecLaws.HeaderReads | protocol/TouchFrame.c:70-78 | the first 36 bytes are a header iff its nine fields read back |
| CodecLaws.ContactReads | protocol/TouchFrame.c:80-96 | 44 bytes are a contact record iff its fields read back and the reserved field is 0 |
| CodecLaws.NoContactError | windows/receiver/Mtp1.cpp:92-122 | the strict decoder raises no objection to the contacts iff each is acceptable alone and no identifier repeats |
| Mtp1.DecodeMessage | windows/receiver/Mtp1.cpp:72-124 | the decoder with its loop and seen-set returns the specified message or the first objection |
| Mtp1.DecodeContacts | windows/receiver/Mtp1.cpp:89-123 | the contacts in order, or the first objection in record order and check order |
| Mtp1.PrefixError | windows/receiver/Mtp1.cpp:92-122 | the objection to a front of the records is the objection to all of them |
| Mtp1.ContactsErrorKinds | windows/receiver/Mtp1.cpp:94-120 | the only objections to a contact are the four named ones |
| TouchFrame.EncodeMessage | protocol/TouchFrame.c:48-98 | writes exactly the wire form into the front of the buffer and touches nothing beyond it, or refuses with 0 and touches nothing, exactly under the stated conditions |
| TouchFrame.DecodeMessage | protocol/TouchFrame.c:100-146 | succeeds exactly on the accepted byte strings, with the frame they spell and zeroed unused entries |
| TouchFrame.PutHeader | protocol/TouchFrame.c:70-78 | the header fields at their offsets, nothing else changed |
| TouchFrame.PutContacts | protocol/TouchFrame.c:80-96 | the records one after another, nothing outside them changed |
| TouchFrame.PutContact | protocol/TouchFrame.c:82-95 | one record, nothing outside it changed |
| TouchFrame.PutU16 | protocol/TouchFrame.c:5-8 | two bytes, most significant first |
| TouchFrame.PutU32 | protocol/TouchFrame.c:10-15 | four bytes, most significant first |
| TouchFrame.PutU64 | protocol/TouchFrame.c:17-20 | eight bytes, most significant first |
| Words.ReadU16 | protocol/TouchFrame.c:28-30 | two bytes are the encoding of a value iff they read back as it |
| Words.ReadU32 | protocol/TouchFrame.c:32-35 | four bytes are the encoding of a value iff they read back as it |
| Words.ReadU64 | protocol/TouchFrame.c:37-39 | eight bytes are the encoding of a value iff they read back as it |
| EndToEnd.SenderAccepted | mac/Agent/main.c:310-348 | for any run of the sender whose callbacks move at safe moments, through overflow, failed sends and reconnects, and any part of its socket arriving in chunks of any size with polls between: the connection stays on iff no chunk meets the limit, the bytes raise no objection and every FRAME fits; it can only be closed for capacity, at the limit, or by a non-finite float or repeated identifier, and the last two never when all touches were sane |
| EndToEnd.NeverOutOfSequence | mac/Agent/main.c:157-203 | in every such run the calls made are the first messages sent, in order, and the lifecycle and sequence checks never fire |
| EndToEnd.EncodedParse | windows/receiver/Mtp1.cpp:148-159 | any front of an encoded stream parses to its first messages; it is objected to iff the next one has arrived whole and is not well-formed, and only for a float or an identifier |
| SentMessages.RunEncoded | mac/Agent/main.c:157-203 | in every run, with callbacks begun at any time and interrupted anywhere, each message sent, in flight, queued or numbered is exactly what the encoder writes; with sane touches the strict decoder accepts it |
| LastFrame.LastFrameArrives | mac/Agent/main.c:333-341 | let any part of what an epoch has sent have arrived, a frame at least: while the connection is open and no poll since has released anything, the last report is the last frame that has arrived whole, its tips at their positions on slots of their own, no other slot down, its button |
| LastFrame.LastFrameShown | windows/receiver/main.cpp:116-133 | in every run of the connection loop: as long as the last message an open connection processed is a FRAME and no poll since has released anything, the last report is that frame: positions, confidence, slots, button, and its capture time in whole 100 us modulo 2^16 unless that is zero |
| EndToEnd.LanguageReceived | windows/receiver/main.cpp:128-133 | fed any front of an encoded stream in the accepted language, in chunks of any size, a connection processes a prefix of it and stays open iff no chunk meets the limit and every FRAME fits; nothing else can end it |
| EndToEnd.EpochInLanguage | mac/Agent/main.c:320-341 | a contiguous epoch is in the receiver's accepted language |
| EndToEnd.SocketIsFront | mac/Agent/main.c:252-265 | the bytes on the socket are a front of the epoch's messages, also after a cut-off send |
| AgentLaws.EpochsContiguous | mac/Agent/main.c:157-203 | with atomic callbacks, wire, in-flight and queue of every epoch read HELLO n, RESET n+1, FRAME n+2, ... modulo 2^32, and a connected agent's stream ends at the last number allocated |
| Snapshot.EdgeRepeatsSnapshot | mac/Agent/main.c:197-201 | in every run with atomic callbacks the frame of a button edge carries exactly the contacts of the last contact frame of its own connection, or none; clearing the snapshot at each greeting (lines 326-328) is what keeps an earlier connection's out |
| AgentLaws.EnqueueKeeps | mac/Agent/main.c:157-176 | numbering and queueing a frame keeps the epoch contiguous, also when the queue overflows |
| AgentLaws.TickKeeps | mac/Agent/main.c:310-348 | so does every step of the sender thread |
| AgentLaws.ControlKeeps | mac/Agent/main.c:299-308 | so does a control send, complete or cut off |
| AgentLaws.CallbackKeeps | mac/Agent/main.c:178-203 | so do both callbacks |
| AgentLaws.ContiguousAppend | mac/Agent/main.c:157-176 | one more message keeps a stream contiguous iff the stream is empty or ends at the number before |
| AgentLaws.EncodedSpells | mac/Agent/main.c:161-163 | an encoded message decodes to the type and number it was given |
| AgentLaws.CallbackFramesEncode | mac/Agent/main.c:361-370 | the encoder never refuses a callback's frame, so only a full queue gives an epoch up |
| HeldLock.LockExactly | mac/Agent/main.c:157-203 | whatever a callback does next (take a number, push, each of the three stores of the give-up, or the whole of it), interrupted anywhere before: it keeps every later wire contiguous iff it comes at a safe moment, by a guard on phase, flags, queue length and whether a control message was numbered since |
| HeldLock.LockRuns | mac/Agent/main.c:157-203 | in every run whose callbacks move at safe moments, however they and the sender thread interleave, no connection ever carries a gap, not even in a message cut off |
| HeldLock.MoveBreaks | mac/Agent/main.c:310-348 | after each unsafe move a continuation with nothing late breaks the wire |
| HeldLock.SplitRace | mac/Agent/main.c:157-203 | a run from the start of the agent with one callback interrupted between number and push, every move but the push safe, whose wire reads HELLO 5, RESET 6, FRAME 4 |
| HeldLock.AtomicRun | mac/Agent/main.c:178-203 | every run with atomic callbacks, and every run whose late callbacks are uninterrupted and harmless, is such a run of safe moves |
| HeldLock.TickHeld | mac/Agent/main.c:310-348 | every step of the sender thread under a held lock keeps the invariant behind this, up to where it waits for the lock |
| AgentSteps.UndisturbedCallback | mac/Agent/main.c:157-176 | the moves of a callback one after another are the callback in one step |
| LateCallbacks.LateExactly | mac/Agent/main.c:192-201 | a late frame of either callback that is numbered and pushed, or given up, without interruption, followed by any atomic run, keeps every wire contiguous iff it comes at a harmless moment, by a guard on phase, flags and queue length |
| LateCallbacks.LateRuns | mac/Agent/main.c:157-203 | in every run whose late frames are not interrupted and come at harmless moments, no connection ever carries a gap, not even in a message cut off |
| LateCallbacks.LateBreaks | mac/Agent/main.c:310-348 | at each harmful moment a continuation without late frames breaks the wire |
| LateCallbacks.LateFrameBreaksGreeting | mac/Agent/main.c:320-323 | a late frame of either callback between HELLO and RESET leaves a hole in the wire as soon as the RESET is out |
| LateCallbacks.LateRace | mac/Agent/main.c:310-348 | a run from the start of the agent with an earlier connected epoch and one late callback whose wire reads HELLO 4, RESET 6 |
| LateCallbacks.InLineMore | mac/Agent/main.c:157-164 | with room in the queue, one more frame keeps a greeted stream contiguous iff the stream ends at the last number allocated, and then still does |
| LateCallbacks.TickWire | mac/Agent/main.c:310-348 | every step of the sender thread keeps the invariant behind this |
| LateCallbacks.ConnectsInSeven | mac/Agent/main.c:312-329 | with the network willing, seven steps of a running agent make a fresh connection, greeted and published, whatever came before |
| LateCallbacks.SendsAll | mac/Agent/main.c:333-341 | with the network willing, a streaming thread sends all that is queued, in order |
| LateCallbacks.ClosingStep | mac/Agent/main.c:333-346 | a thread told to reconnect, or stopped, comes closer to closing the connection with every step, whatever the network does |
| LateCallbacks.WaitingStays | mac/Agent/main.c:229-240 | a thread neither stopped nor told to reconnect waits on an empty queue |
| AgentOrder.FramesInOrder | mac/Agent/main.c:157-176 | in every run, with callbacks begun at any time and interrupted anywhere, the frames taken from the ring so far, across reconnects, then those it holds, then the one not pushed yet spell allocation numbers modulo 2^32 that strictly increase |
| AgentOrder.AgentRefines | mac/Agent/main.c:157-250 | every such run is a run of the lock-level machine: holder, ring, popped frames and counter correspond |
| LockOrder.FramesStayOrdered | mac/Agent/main.c:157-176 | for every interleaving of numbering, push, refusal, clear, pop and control sends, across reconnects, the numbers popped so far, then the ring, then the number held, strictly increase |
| LockOrder.StepOrdered | mac/Agent/main.c:205-250 | every single such step keeps that order |
| PressureLatch.LatchMeans | mac/Agent/main.c:382-403 | after every history: down iff three consecutive frames pressed with one finger and every frame since the first of them had one; while up the counter is the trailing run of presses, below three; the event count is odd iff down |
| PressureLatch.LatchedStep | mac/Agent/main.c:387-403 | one more frame keeps or completes that condition exactly when it has one finger and the history was latched or it is the third press in a row |
| PressureLatch.TrailingMeans | mac/Agent/main.c:394-402 | the trailing run is the longest suffix of pressing frames |
| AgentLaws.PressMeans | mac/Agent/main.c:371-394 | the scan sees a press iff exactly one finger is down and its own pressure reaches the enabled threshold |
| AgentLaws.ScanMeans | mac/Agent/main.c:371-381 | the scan finds no touch in state 3 or 4, the only one with its pressure, or more than one |
| AgentLaws.ContactIsTouch | mac/Agent/main.c:405-420 | a contact has each of the touch's nine floats in its own field, identifier and state reduced modulo 2^32 and 2^8, TIP iff the state is 3 or 4, IN_RANGE iff it is 1 to 6, and CONFIDENCE always |
| CallbackLaws.CallbackReports | mac/Agent/main.c:178-203 | in every run with atomic callbacks, a callback on a connected agent that accepts its touches queues exactly one frame more: its touches, or for an edge those of the last contact frame of the connection, its number and times, and the button bit iff the button is held; or empties a full queue; any other callback queues nothing |
| CallbackLaws.EveryFrameReports | mac/Agent/main.c:157-203 | every frame sent, in flight or queued in such a run is the frame of some callback of it, at that callback's moment |
| CallbackLaws.ClickMeans | mac/Agent/main.c:382-403 | in every run, late callbacks included, the latch is down iff three consecutive processed frames pressed with one finger and every frame since had one, said of the touches themselves |
| CallbackLaws.HistoryKept | mac/Agent/main.c:184-190 | in every run the physical button is down iff the last edge that said anything did not say released, connected or not, and the frames sampled are the contact frames that found the agent connected and were accepted |
| CallbackLaws.ControlCarries | mac/Agent/main.c:299-306 | a control message carries its number, its time and nothing else |
| CallbackLaws.AnyCut | mac/Agent/main.c:252-265 | a failed send may have got any part of a message out but all of it |
| AgentLaws.LatchFollowsHistory | mac/Agent/main.c:350-424 | in every run of the agent, late callbacks included, the latch is that of the frames processed so far; reconnects neither update nor clear it |
| MessageQueue.FifoConserves | mac/Agent/main.c:205-250 | over any calls: what was popped and what waits is what was accepted since the last clear, in order, and at most 256 wait |
| MessageQueue.WindowPushed | mac/Agent/main.c:218-220 | writing at the wrapped tail appends to the window and disturbs nothing in it |
| MessageQueue.WindowPopped | mac/Agent/main.c:245-247 | advancing the wrapped head drops exactly the front |
| MessageQueue.MessageQueue.constructor | mac/Agent/main.c:29-37 | a new ring is empty |
| MessageQueue.MessageQueue.Push | mac/Agent/main.c:212-225 | appends, or refuses exactly at 256 and changes nothing |
| MessageQueue.MessageQueue.Pop | mac/Agent/main.c:227-250 | removes and returns the oldest message, or nothing when empty |
| MessageQueue.MessageQueue.Clear | mac/Agent/main.c:205-210 | empties the queue |
| MacAgent.MacAgent.EnqueueFrameLocked | mac/Agent/main.c:157-176 | the ring, the number and the two flags become exactly the specification's, overflow included |
| MacAgent.MacAgent.ButtonCallback | mac/Agent/main.c:178-203 | the whole agent becomes what the specification of the callback says |
| MacAgent.MacAgent.ContactCallback | mac/Agent/main.c:350-424 | the same, disconnected and refused touch lists included |
| MacAgent.MacAgent.ScanTouches | mac/Agent/main.c:371-381 | the loop's tip count and maximum are the specification's |
| MacAgent.MacAgent.FillContacts | mac/Agent/main.c:405-420 | one record per touch, zeros after them |
| MacAgent.MacAgent.EncodeFrame | mac/Agent/main.c:161-163 | the wire form, or nothing exactly when the encoder refuses |
| MacAgent.MacAgent.SenderStep | mac/Agent/main.c:310-348 | one step of the sender thread on the real fields and ring |
| MacAgent.MacAgent.PopMessage | mac/Agent/main.c:334-336 | the oldest message goes in flight, or the epoch ends if the agent is stopped or told to reconnect |
| Driver.DeviceContext.SubmitIoctlFrame | windows/driver/Driver.c:3-47 | accepts exactly the frames that pass its checks and submits the specified report; a refused frame changes nothing but the fallback scan time, and that only after its header passed |
| Driver.FillContacts | windows/driver/Driver.c:20-37 | the loop accepts iff every record is acceptable, and then each slot holds the last record that names it, or zero |
| Driver.FitFrameReported | windows/driver/Driver.c:15-37 | a fit frame is accepted with every record on its own slot at its own coordinates and with its confidence, every other slot zero, ContactCount equal to the tips in the report, the frame's scan time if it has one and else the next value of the driver's counter |
| Driver.AcceptedReported | windows/driver/Driver.c:15-37 | the report of any frame taken, fit or not: each slot shows the last record that names it, its coordinates cut at 32767, and zeros if none does |
| Driver.AcceptedMeans | windows/driver/Driver.c:8-29 | exactly the frames taken, in plain numbers |
| Driver.CountBySlot | windows/driver/Driver.c:18-37 | counting tips record by record equals counting them slot by slot |
| ReceiverLoop.ServeAll | windows/receiver/main.cpp:104-141 | the nested loops submit exactly the reports of the specified run, and the last one shows nothing held |
| ReceiverLoop.ServeConnection | windows/receiver/main.cpp:105-138 | one connection, from a fresh decoder and session to the disconnect release |
| ReceiverLoop.HandleEvent | windows/receiver/main.cpp:115-133 | one step of the run, a chunk or a poll |
| ReceiverLoop.Release | windows/receiver/main.cpp:137-137 | the disconnect report, handed to the driver if anything was held |
| ReceiverLoop.HandleChunk | windows/receiver/main.cpp:128-133 | a chunk's step of the run, with the error that ends the connection |
| ReceiverLoop.DrainMessages | windows/receiver/main.cpp:129-132 | every decoded message is processed in order up to the first throw |
| ReceiverLoop.HandleMessage | windows/receiver/main.cpp:130-131 | one decoded message through the session, its frame submitted, its error passed on |
| ReceiverLoop.HandleTimeout | windows/receiver/main.cpp:119-124 | a poll's step of the run |
| Coordinates.LogicalOrder | windows/receiver/TouchSession.cpp:154-163 | for any monotone rounding that fixes 0, 1 and 32767: x is monotone, y antitone, both saturate outside [0, 1] |
| Coordinates.PatternOrder | windows/receiver/TouchSession.cpp:154-163 | the same in the order of the float patterns themselves, signs, subnormals and both zeros included |
| Floats.ValueOrder | windows/receiver/TouchSession.cpp:154-157 | binary32 patterns are ordered as the numbers they stand for |
| Floats.UnitValues | windows/receiver/TouchSession.cpp:154-157 | the patterns of one and one half stand for 1 and 0.5 |
| Floats.BinadeDoubles | windows/receiver/TouchSession.cpp:154-157 | one exponent up is twice the value |
| Floats.BinadeAffine | windows/receiver/TouchSession.cpp:154-157 | within a binade the value grows with the fraction in equal steps, up to twice the first |
| Floats.SubnormalMultiple | windows/receiver/TouchSession.cpp:154-157 | below the first binade patterns count multiples of the least positive value |
| Floats.SignNegates | windows/receiver/TouchSession.cpp:154-157 | setting the sign bit negates |
| Floats.ComparesValues | mac/Agent/main.c:377-394 | the comparisons of pressures, on patterns that are numbers, compare the numbers |
| Floats.Classes | windows/receiver/Mtp1.cpp:41-45 | finite patterns lie below infinity without their sign, and those above it are not numbers |
| Coordinates.ExactMirror | windows/receiver/TouchSession.cpp:154-163 | in exact arithmetic the two axes sum to 32767 on [0, 1], and to 32768 exactly at a rounding tie |
| Coordinates.ExactNearest | windows/receiver/TouchSession.cpp:154-157 | in exact arithmetic the result is the nearest integer to 32767 times the coordinate, the larger at a tie |
| Coordinates.Edges | windows/receiver/TouchSession.cpp:154-163 | for every rounding, a number from one up is shown at X 32767 and Y 0, from zero down, both zeros included, at X 0 and Y 32767 |
| Coordinates.Middle | windows/receiver/TouchSession.cpp:154-163 | in exact arithmetic one half is shown at 16384 on both axes |

## Left out

- Sockets, name lookup, Winsock, `recv` and `send` internals: a receive is a chunk, a timeout or the end of the events; a send succeeds or stops short of the whole message.
- `dlopen`, CoreFoundation, signal handling, traces and argument parsing.
- KMDF and VHF lifecycle, feature reports, the status query, the report descriptor and the INF.
- How Windows interprets a report; the host view is the report's own tip bits and Button field.
- ReceiverLoop.Submit: assumes the IOCTL succeeds. A failure while a message or a poll is handled is caught as a rejected connection (windows/receiver/main.cpp:134), one in the release after it ends the program (line 137); neither is modelled. The driver method itself takes the framework's status as a parameter.
- TouchSession.TouchSession.Process: requires a message as the strict decoder returns it; nothing else calls it.
- Receiver.NoGhostInput: takes one clock reading for a chunk, because only the last reading of a chunk is ever looked at, and lets chunks have any size, where the receiver's buffer holds 4096 bytes.
- SessionRuns.TimeoutRelease: claims a release per poll and not within 200 ms of wall-clock time, which the code does not give; see `Connections.TrickleHolds`.
- Coordinates.LogicalOrder: does not fix binary32 rounding; it holds for any monotone rounding that leaves 0, 1 and 32767 alone, of which round-to-nearest is one.
- Coordinates.PatternOrder: with the lemmas of Floats, extends the value of a pattern to infinities as the next power of two; only finite patterns reach the session.
- Scan-time order: the driver's fallback counter is not updated from input, so none holds.
- AgentLaws.EpochsContiguous: takes each callback's test of `connected` and its enqueue, overflow path included, as one step; `HeldLock.LockRuns` and `HeldLock.LockExactly` take them apart.
- EndToEnd.SenderAccepted: leaves out runs with an unsafe move, whose wire can leave the accepted language, as `HeldLock.SplitRace` shows.
- Snapshot.EdgeRepeatsSnapshot: leaves out late callbacks; a contact frame of an earlier connection that is processed after the snapshot was cleared can be repeated by later button edges.
- Numbering and sending a control message are one step of the model; the send commutes with every move of a callback.
- LockOrder.FramesStayOrdered: counts allocations without wrapping; `AgentOrder.FramesInOrder` relates the counts to the numbers on the wire modulo 2^32.
- MessageQueue.MessageQueue.Pop: models what the wait ends with; a sender that waits on an empty queue stays in its phase.
- MacAgent.MacAgent.ContactCallback: takes the device time in microseconds as a parameter in place of the conversion from a double, and keeps no `captured`, `sent`, `dropped`, `reconnects` or `button_events` counters, which nothing reads but logs.
- TouchFrame.EncodeMessage: takes no null pointers; nor does `TouchFrame.DecodeMessage`.
- The decoder's `Reset` method, which nothing in the receiver calls, and `PopMessage` on an empty decoder, which its only caller excludes.
- The Python tools, the probe and the PowerShell scripts.
