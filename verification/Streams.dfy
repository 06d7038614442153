/** The incremental decoder and the one-shot parse of a byte stream it must
    agree with, however the stream is cut into chunks. */
module Streams {
  import opened Words
  import opened Wire
  import opened Mtp1
  import TouchFrame
  import CodecLaws

  const BUFFER_LIMIT := 2 * MAX_MESSAGE_SIZE

  /** What a parse yields: the complete messages, the bytes not consumed, and
      the objection that stopped it, if one did. */
  datatype Parsed = Parsed(messages: seq<Message>, rest: seq<Byte>, error: Option<ProtocolError>)

  /** What stands at the front of the buffer. */
  datatype Front = Incomplete | Malformed(error: ProtocolError) | Complete(message: Message, length: nat)

  function FrontOf(bytes: seq<Byte>): (front: Front)
    ensures front.Complete? ==> HEADER_SIZE <= front.length <= |bytes|
  {
    if |bytes| < HEADER_SIZE then Incomplete
    else match ValidateHeader(bytes)
      case Failure(error) => Malformed(error)
      case Success(length) =>
        if |bytes| < length then Incomplete
        else match Decode(bytes[..length])
          case Failure(error) => Malformed(error)
          case Success(message) => Complete(message, length)
  }

  /** The one-shot parse. */
  function Parse(bytes: seq<Byte>): Parsed
    decreases |bytes|
  {
    match FrontOf(bytes)
    case Incomplete => Parsed([], bytes, None)
    case Malformed(error) => Parsed([], bytes, Some(error))
    case Complete(message, length) =>
      var later := Parse(bytes[length..]);
      Parsed([message] + later.messages, later.rest, later.error)
  }

  ghost predicate AllWellFormed(messages: seq<Message>) {
    forall i :: 0 <= i < |messages| ==> WellFormed(messages[i])
  }

  function EncodeAll(messages: seq<Message>): seq<Byte>
    requires AllWellFormed(messages)
  {
    if messages == [] then []
    else TouchFrame.MessageBytes(messages[0]) + EncodeAll(messages[1..])
  }

  /** One iteration of the parse. */
  lemma {:induction false} ParseStep(bytes: seq<Byte>)
    ensures FrontOf(bytes).Incomplete? ==> Parse(bytes) == Parsed([], bytes, None)
    ensures FrontOf(bytes).Malformed? ==> Parse(bytes) == Parsed([], bytes, Some(FrontOf(bytes).error))
    ensures FrontOf(bytes).Complete? ==>
      var later := Parse(bytes[FrontOf(bytes).length..]);
      Parse(bytes) == Parsed([FrontOf(bytes).message] + later.messages, later.rest, later.error)
  {
    hide FrontOf;
  }

  /** More bytes never change a front that is already decided. */
  lemma {:induction false} FrontExtends(bytes: seq<Byte>, more: seq<Byte>)
    requires !FrontOf(bytes).Incomplete?
    ensures FrontOf(bytes + more) == FrontOf(bytes)
  {
    hide ValidateHeader, Decode;
    SameHeader(bytes, more);
    var r := ValidateHeader(bytes);
    if r.Success? {
      assert (bytes + more)[..r.value] == bytes[..r.value];
    }
  }

  lemma {:induction false} SameHeader(bytes: seq<Byte>, more: seq<Byte>)
    requires HEADER_SIZE <= |bytes|
    ensures ValidateHeader(bytes + more) == ValidateHeader(bytes)
  {
    HeaderFields(bytes);
    HeaderFields(bytes + more);
    assert (bytes + more)[..HEADER_SIZE] == bytes[..HEADER_SIZE];
  }

  /** Parsing more bytes is parsing them after what the earlier parse left. */
  lemma {:induction false} ParseExtends(bytes: seq<Byte>, more: seq<Byte>)
    ensures var first := Parse(bytes);
      var second := Parse(first.rest + more);
      Parse(bytes + more) == Parsed(first.messages + second.messages, second.rest, second.error)
    decreases |bytes|
  {
    hide FrontOf, Parse;
    ParseStep(bytes);
    ParseStep(bytes + more);
    match FrontOf(bytes) {
      case Incomplete =>
        assert [] + Parse(bytes + more).messages == Parse(bytes + more).messages;
      case Malformed(error) =>
        FrontExtends(bytes, more);
        assert [] + Parse(bytes + more).messages == Parse(bytes + more).messages;
      case Complete(message, length) =>
        FrontExtends(bytes, more);
        var tail := bytes[length..];
        ParseExtends(tail, more);
        assert (bytes + more)[length..] == tail + more;
        var second := Parse(Parse(tail).rest + more);
        assert [message] + (Parse(tail).messages + second.messages)
            == ([message] + Parse(tail).messages) + second.messages;
    }
  }

  /** A parse consumes exactly the wire forms of the messages it yields, so
      every message costs at least a header. */
  lemma {:induction false} ParseConsumes(bytes: seq<Byte>)
    ensures var p := Parse(bytes);
      && AllWellFormed(p.messages)
      && bytes == EncodeAll(p.messages) + p.rest
      && |bytes| >= HEADER_SIZE * |p.messages| + |p.rest|
    decreases |bytes|
  {
    hide FrontOf, Parse, TouchFrame.MessageBytes, WellFormed;
    ParseStep(bytes);
    match FrontOf(bytes) {
      case Incomplete => assert EncodeAll([]) + bytes == bytes;
      case Malformed(error) => assert EncodeAll([]) + bytes == bytes;
      case Complete(message, length) =>
        FrontEncodes(bytes);
        ParseConsumes(bytes[length..]);
        var later := Parse(bytes[length..]);
        assert ([message] + later.messages)[1..] == later.messages;
        calc {
          bytes;
          bytes[..length] + bytes[length..];
          bytes[..length] + (EncodeAll(later.messages) + later.rest);
          (bytes[..length] + EncodeAll(later.messages)) + later.rest;
          EncodeAll([message] + later.messages) + later.rest;
        }
    }
  }

  lemma {:induction false} FrontEncodes(bytes: seq<Byte>)
    requires FrontOf(bytes).Complete?
    ensures var f := FrontOf(bytes);
      && WellFormed(f.message) && |f.message.contacts| <= MAX_CONTACTS
      && TouchFrame.MessageBytes(f.message) == bytes[..f.length]
  {
    hide ValidateHeader, Decode, TouchFrame.MessageBytes;
    CodecLaws.DecodersAgree(bytes[..FrontOf(bytes).length]);
  }

  /** A stream of encoded messages parses back to exactly those messages. */
  lemma {:induction false} StreamRoundTrip(messages: seq<Message>)
    requires AllWellFormed(messages)
    ensures Parse(EncodeAll(messages)) == Parsed(messages, [], None)
  {
    hide FrontOf, TouchFrame.MessageBytes, KnownContact, DistinctIdentifiers;
    if messages == [] {
      assert FrontOf([]) == Incomplete by { EmptyFront(); }
    } else {
      var head, tail := TouchFrame.MessageBytes(messages[0]), EncodeAll(messages[1..]);
      StreamRoundTrip(messages[1..]);
      EncodedFront(messages[0]);
      FrontExtends(head, tail);
      assert (head + tail)[|head|..] == tail;
    }
  }

  lemma {:induction false} EmptyFront()
    ensures FrontOf([]) == Incomplete
  {
  }

  lemma {:induction false} EncodedFront(m: Message)
    requires WellFormed(m) && |m.contacts| <= MAX_CONTACTS
    ensures FrontOf(TouchFrame.MessageBytes(m)) == Complete(m, |TouchFrame.MessageBytes(m)|)
  {
    hide ValidateHeader, TouchFrame.MessageBytes, KnownContact, DistinctIdentifiers, ContactsError, ReadContacts,
      HeaderMessage;
    var bytes := TouchFrame.MessageBytes(m);
    CodecLaws.StrictRoundTrip(m);
    assert bytes[..|bytes|] == bytes;
  }

  /** What a clean parse leaves is shorter than the longest message, and the
      objections that need a whole message in hand never stop a stream. */
  lemma {:induction false} ParseStops(bytes: seq<Byte>)
    ensures var p := Parse(bytes);
      && (p.error == None ==> |p.rest| <= 475)
      && (p.error.Some? ==> p.error.value !in {TruncatedHeader, LengthMismatch, BufferLimit})
      && Parse(p.rest) == Parsed([], p.rest, p.error)
    decreases |bytes|
  {
    hide FrontOf;
    match FrontOf(bytes) {
      case Incomplete => FrontStops(bytes);
      case Malformed(error) => FrontStops(bytes);
      case Complete(message, length) => ParseStops(bytes[length..]);
    }
  }

  lemma {:induction false} FrontStops(bytes: seq<Byte>)
    ensures FrontOf(bytes).Incomplete? ==> |bytes| < MAX_MESSAGE_SIZE
    ensures FrontOf(bytes).Malformed? ==>
      FrontOf(bytes).error !in {TruncatedHeader, LengthMismatch, BufferLimit}
  {
    hide GetU16, GetU32, GetU64, ContactsError, ReadContacts;
    if |bytes| >= HEADER_SIZE && ValidateHeader(bytes).Success? {
      var length := ValidateHeader(bytes).value;
      if length <= |bytes| {
        SameHeader(bytes[..length], bytes[length..]);
        assert bytes == bytes[..length] + bytes[length..];
        ContactsErrorKinds(bytes[..length], GetU16(bytes[..length], 16));
      }
    }
  }

  /** The decoder object. `appended` and `popped` are its whole history: what it
      holds is at all times what the one-shot parse of that history leaves. */
  class StreamDecoder {
    var buffer: seq<Byte>
    var messages: seq<Message>
    ghost var appended: seq<Byte>
    ghost var popped: seq<Message>

    ghost predicate Valid()
      reads this
    {
      && popped + messages == Parse(appended).messages
      && buffer == Parse(appended).rest
    }

    constructor ()
      ensures Valid()
      ensures buffer == [] && messages == [] && appended == [] && popped == []
    {
      buffer, messages, appended, popped := [], [], [], [];
      new;
      EmptyFront();
    }

    predicate HasMessage()
      reads this
    {
      messages != []
    }

    /** Takes one chunk. An objection leaves every message decoded before it
        in the queue and the offending bytes in the buffer. */
    method Append(bytes: seq<Byte>) returns (error: Option<ProtocolError>)
      requires Valid()
      modifies this
      ensures Valid() && popped == old(popped)
      ensures |old(buffer)| + |bytes| > 952 ==>
        error == Some(BufferLimit) && appended == old(appended)
        && buffer == old(buffer) && messages == old(messages)
      ensures |old(buffer)| + |bytes| <= 952 ==>
        && appended == old(appended) + bytes
        && error == Parse(appended).error
        && var p := Parse(old(buffer) + bytes);
        && error == p.error && buffer == p.rest && messages == old(messages) + p.messages
    {
      hide FrontOf, Parse;
      if |buffer| + |bytes| > BUFFER_LIMIT {
        return Some(BufferLimit);
      }
      buffer := buffer + bytes;
      ghost var before := messages;
      error := ParseAvailable();
      ghost var later := Parse(old(buffer) + bytes).messages;
      ParseExtends(appended, bytes);
      appended := appended + bytes;
      assert popped + (before + later) == (popped + before) + later;
    }

    method ParseAvailable() returns (error: Option<ProtocolError>)
      modifies this`buffer, this`messages
      ensures var p := Parse(old(buffer));
        error == p.error && buffer == p.rest && messages == old(messages) + p.messages
    {
      hide FrontOf, Parse;
      ghost var decoded: seq<Message> := [];
      while |buffer| >= HEADER_SIZE
        invariant messages == old(messages) + decoded
        invariant Parse(old(buffer)) == Parsed(
          decoded + Parse(buffer).messages, Parse(buffer).rest, Parse(buffer).error)
        decreases |buffer|
      {
        ParseStep(buffer);
        FrontCases(buffer);
        var length := ValidateHeader(buffer[..HEADER_SIZE]);
        HeaderFields(buffer);
        if length.Failure? {
          assert decoded + [] == decoded;
          return Some(length.error);
        }
        if |buffer| < length.value {
          assert decoded + [] == decoded;
          return None;
        }
        var message := DecodeMessage(buffer[..length.value]);
        if message.Failure? {
          assert decoded + [] == decoded;
          return Some(message.error);
        }
        ghost var later := Parse(buffer[length.value..]).messages;
        assert decoded + ([message.value] + later) == (decoded + [message.value]) + later;
        messages := messages + [message.value];
        decoded := decoded + [message.value];
        buffer := buffer[length.value..];
      }
      ParseStep(buffer);
      FrontCases(buffer);
      assert decoded + [] == decoded;
      error := None;
    }

    /** Removes the oldest decoded message. */
    method PopMessage() returns (message: Message)
      requires Valid() && HasMessage()
      modifies this`messages, this`popped
      ensures Valid()
      ensures message == old(messages)[0] && messages == old(messages)[1..]
      ensures popped == old(popped) + [message]
    {
      hide FrontOf, Parse;
      message := messages[0];
      assert messages == [message] + messages[1..];
      assert popped + messages == popped + [message] + messages[1..];
      messages := messages[1..];
      popped := popped + [message];
    }
  }

  lemma {:induction false} FrontCases(bytes: seq<Byte>)
    ensures |bytes| < HEADER_SIZE ==> FrontOf(bytes) == Incomplete
    ensures |bytes| >= HEADER_SIZE ==> match ValidateHeader(bytes)
      case Failure(error) => FrontOf(bytes) == Malformed(error)
      case Success(length) =>
        if |bytes| < length then FrontOf(bytes) == Incomplete
        else match Decode(bytes[..length])
          case Failure(error) => FrontOf(bytes) == Malformed(error)
          case Success(message) => FrontOf(bytes) == Complete(message, length)
  {
    hide ValidateHeader, Decode;
  }

  /** A receiver that is handed one chunk after another and stops at the first
      throw. `fed` counts the chunks it took without a throw. */
  datatype Feed = Feed(fed: nat, buffer: seq<Byte>, messages: seq<Message>, error: Option<ProtocolError>)

  ghost function FeedAll(chunks: seq<seq<Byte>>): (f: Feed)
    ensures f.fed <= |chunks| && (f.error == None <==> f.fed == |chunks|)
  {
    if chunks == [] then Feed(0, [], [], None)
    else
      var n := |chunks| - 1;
      var before := FeedAll(chunks[..n]);
      if before.error.Some? then before
      else if |before.buffer| + |chunks[n]| > BUFFER_LIMIT then before.(error := Some(BufferLimit))
      else
        var p := Parse(before.buffer + chunks[n]);
        Feed(if p.error.Some? then n else n + 1, p.rest, before.messages + p.messages, p.error)
  }

  /** However a stream is cut, a decoder that never meets the buffer limit ends
      with the messages and the verdict of the one-shot parse of the whole
      stream, also when a malformed message stops it early; with no objection
      the unconsumed bytes agree too. */
  lemma {:induction false} FragmentationIndependence(chunks: seq<seq<Byte>>)
    requires FeedAll(chunks).error != Some(BufferLimit)
    ensures var f, p := FeedAll(chunks), Parse(Concat(chunks));
      && f.messages == p.messages
      && f.error == p.error
      && (f.error == None ==> f.buffer == p.rest)
  {
    hide FrontOf, Parse;
    if chunks == [] {
      ParseStep([]);
      EmptyFront();
    } else {
      var n := |chunks| - 1;
      FragmentationIndependence(chunks[..n]);
      var stream := Concat(chunks[..n]);
      assert chunks == chunks[..n] + [chunks[n]];
      ConcatAppend(chunks[..n], [chunks[n]]);
      assert Concat([chunks[n]]) == chunks[n] + Concat([]);
      assert Concat(chunks) == stream + chunks[n];
      ParseExtends(stream, chunks[n]);
      if FeedAll(chunks[..n]).error.Some? {
        StuckParse(stream, chunks[n]);
      }
    }
  }

  /** After an objection no further bytes yield messages. */
  lemma {:induction false} StuckParse(bytes: seq<Byte>, more: seq<Byte>)
    requires Parse(bytes).error.Some?
    ensures Parse(bytes + more).messages == Parse(bytes).messages
    ensures Parse(bytes + more).error == Parse(bytes).error
  {
    hide FrontOf, Parse;
    var p := Parse(bytes);
    ParseExtends(bytes, more);
    ParseStops(bytes);
    ParseStep(p.rest);
    FrontExtends(p.rest, more);
    ParseStep(p.rest + more);
  }

  /** The limit cannot be met by chunks of at most 477 bytes: what a decoder
      keeps between chunks is at most 475. */
  lemma {:induction false} SmallChunksNeverHitLimit(chunks: seq<seq<Byte>>)
    requires forall i :: 0 <= i < |chunks| ==> |chunks[i]| <= 477
    ensures FeedAll(chunks).error != Some(BufferLimit)
    ensures FeedAll(chunks).error == None ==> |FeedAll(chunks).buffer| <= 475
  {
    hide Parse;
    if chunks != [] {
      var n := |chunks| - 1;
      SmallChunksNeverHitLimit(chunks[..n]);
      ParseStops(FeedAll(chunks[..n]).buffer + chunks[n]);
    }
  }

  /** Encode, concatenate, cut anywhere, decode: the messages come back. */
  lemma {:induction false} ChunkedRoundTrip(messages: seq<Message>, chunks: seq<seq<Byte>>)
    requires AllWellFormed(messages) && Concat(chunks) == EncodeAll(messages)
    requires FeedAll(chunks).error != Some(BufferLimit)
    ensures FeedAll(chunks) == Feed(|chunks|, [], messages, None)
  {
    hide Parse, FeedAll, EncodeAll;
    FragmentationIndependence(chunks);
    StreamRoundTrip(messages);
  }

  /** Whatever part of an encoded stream has arrived parses without objection
      to the messages it completes. */
  lemma {:induction false} PrefixParses(messages: seq<Message>, arrived: seq<Byte>, outstanding: seq<Byte>)
    requires AllWellFormed(messages) && arrived + outstanding == EncodeAll(messages)
    ensures Parse(arrived).error == None && Parse(arrived).messages <= messages
  {
    hide Parse, EncodeAll;
    StreamRoundTrip(messages);
    ParseExtends(arrived, outstanding);
    if Parse(arrived).error.Some? {
      StuckParse(arrived, outstanding);
    }
  }
}
