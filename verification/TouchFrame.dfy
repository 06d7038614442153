/** The portable C codec: the authoritative encoder and the lenient decoder. */
module TouchFrame {
  import opened Words
  import opened Wire

  datatype FrameRecord = FrameRecord(
    sequence: U32, captureTimeUs: U64, deviceTimeUs: U64,
    flags: U16, contactCount: U16, contacts: seq<Contact>)

  const ZERO_CONTACT := Contact(0, 0, 0, 0, 0, 0, 0, 0, 0, 0, 0, 0)
  const ZERO_FRAME: TPFrame := FrameRecord(0, 0, 0, 0, 0, Zeros(MAX_CONTACTS))

  function Zeros(n: nat): (contacts: seq<Contact>)
    ensures |contacts| == n && forall i :: 0 <= i < n ==> contacts[i] == ZERO_CONTACT
  {
    if n == 0 then [] else Zeros(n - 1) + [ZERO_CONTACT]
  }

  /** The C struct: the contact array always has ten entries, of which
      `contactCount` are meant. */
  type TPFrame = f: FrameRecord | |f.contacts| == MAX_CONTACTS
    witness FrameRecord(0, 0, 0, 0, 0, Zeros(MAX_CONTACTS))

  function HeaderBytes(m: Message): (bytes: seq<Byte>)
    requires |m.contacts| <= MAX_CONTACTS
    ensures |bytes| == HEADER_SIZE
  {
    U32Bytes(WIRE_MAGIC) + U16Bytes(WIRE_VERSION) + U16Bytes(TypeCode(m.kind))
    + U32Bytes(|m.contacts| * CONTACT_SIZE) + U32Bytes(m.sequence)
    + U16Bytes(|m.contacts|) + U16Bytes(m.flags)
    + U64Bytes(m.captureTimeUs) + U64Bytes(m.deviceTimeUs)
  }

  function ContactBytes(c: Contact): (bytes: seq<Byte>)
    ensures |bytes| == CONTACT_SIZE
  {
    U32Bytes(c.identifier) + [c.state] + [c.flags] + U16Bytes(0)
    + U32Bytes(c.x) + U32Bytes(c.y) + U32Bytes(c.velocityX) + U32Bytes(c.velocityY)
    + U32Bytes(c.size) + U32Bytes(c.angle) + U32Bytes(c.majorAxis) + U32Bytes(c.minorAxis)
    + U32Bytes(c.density)
  }

  function ContactsBytes(contacts: seq<Contact>): (bytes: seq<Byte>)
    ensures |bytes| == |contacts| * CONTACT_SIZE
  {
    if contacts == [] then []
    else
      var n := |contacts| - 1;
      ContactsBytes(contacts[..n]) + ContactBytes(contacts[n])
  }

  /** The wire form of a message. */
  function MessageBytes(m: Message): (bytes: seq<Byte>)
    requires |m.contacts| <= MAX_CONTACTS
    ensures |bytes| == HEADER_SIZE + |m.contacts| * CONTACT_SIZE
  {
    HeaderBytes(m) + ContactsBytes(m.contacts)
  }

  /** The message a C frame stands for under a given type: only a FRAME
      carries flags and contacts. */
  function MessageOf(kind: MessageType, frame: TPFrame): Message
    requires frame.contactCount <= MAX_CONTACTS
  {
    if kind == Frame
    then Message(kind, frame.sequence, frame.captureTimeUs, frame.deviceTimeUs,
                 frame.flags, frame.contacts[..frame.contactCount])
    else Message(kind, frame.sequence, frame.captureTimeUs, frame.deviceTimeUs, 0, [])
  }

  /** Exactly the calls the encoder does not refuse. */
  predicate Encodable(code: int, frame: TPFrame, capacity: nat) {
    && frame.contactCount <= MAX_CONTACTS
    && KindOfCode(code).Some?
    && var m := MessageOf(KindOfCode(code).value, frame);
    && m.flags <= FRAME_BUTTON
    && HEADER_SIZE + |m.contacts| * CONTACT_SIZE <= capacity
  }

  /** The put helpers append to whatever stands in `output[base..at]`; nothing
      outside the field they write changes. */
  method PutByte(output: array<Byte>, ghost base: nat, at: nat, value: Byte)
    requires base <= at < output.Length
    modifies output
    ensures output[base..at + 1] == old(output[base..at]) + [value]
    ensures forall k :: 0 <= k < output.Length && k != at ==> output[k] == old(output[k])
  {
    output[at] := value;
  }

  method PutU16(output: array<Byte>, ghost base: nat, at: nat, value: U16)
    requires base <= at && at + 2 <= output.Length
    modifies output
    ensures output[base..at + 2] == old(output[base..at]) + U16Bytes(value)
    ensures forall k :: 0 <= k < at || at + 2 <= k < output.Length ==> output[k] == old(output[k])
  {
    output[at] := value / 0x100;
    output[at + 1] := value % 0x100;
    assert output[base..at + 2] == output[base..at] + [output[at], output[at + 1]];
  }

  method PutU32(output: array<Byte>, ghost base: nat, at: nat, value: U32)
    requires base <= at && at + 4 <= output.Length
    modifies output
    ensures output[base..at + 4] == old(output[base..at]) + U32Bytes(value)
    ensures forall k :: 0 <= k < at || at + 4 <= k < output.Length ==> output[k] == old(output[k])
  {
    output[at] := value / 0x100_0000;
    output[at + 1] := value / 0x1_0000 % 0x100;
    output[at + 2] := value / 0x100 % 0x100;
    output[at + 3] := value % 0x100;
    U32Digits(value);
    assert output[base..at + 4]
        == output[base..at] + [output[at], output[at + 1], output[at + 2], output[at + 3]];
  }

  method PutU64(output: array<Byte>, ghost base: nat, at: nat, value: U64)
    requires base <= at && at + 8 <= output.Length
    modifies output
    ensures output[base..at + 8] == old(output[base..at]) + U64Bytes(value)
    ensures forall k :: 0 <= k < at || at + 8 <= k < output.Length ==> output[k] == old(output[k])
  {
    hide U32Bytes;
    PutU32(output, base, at, value / 0x1_0000_0000);
    PutU32(output, base, at + 4, value % 0x1_0000_0000);
  }

  method PutHeader(output: array<Byte>, m: Message)
    requires |m.contacts| <= MAX_CONTACTS && HEADER_SIZE <= output.Length
    modifies output
    ensures output[..HEADER_SIZE] == HeaderBytes(m)
    ensures forall k :: HEADER_SIZE <= k < output.Length ==> output[k] == old(output[k])
  {
    hide U16Bytes, U32Bytes, U64Bytes;
    PutU32(output, 0, 0, WIRE_MAGIC);
    PutU16(output, 0, 4, WIRE_VERSION);
    PutU16(output, 0, 6, TypeCode(m.kind));
    PutU32(output, 0, 8, |m.contacts| * CONTACT_SIZE);
    PutU32(output, 0, 12, m.sequence);
    PutU16(output, 0, 16, |m.contacts|);
    PutU16(output, 0, 18, m.flags);
    PutU64(output, 0, 20, m.captureTimeUs);
    PutU64(output, 0, 28, m.deviceTimeUs);
  }

  method PutMotion(output: array<Byte>, ghost base: nat, at: nat, c: Contact)
    requires base <= at && at + 16 <= output.Length
    modifies output
    ensures output[base..at + 16]
         == old(output[base..at]) + U32Bytes(c.x) + U32Bytes(c.y)
          + U32Bytes(c.velocityX) + U32Bytes(c.velocityY)
    ensures forall k :: 0 <= k < at || at + 16 <= k < output.Length ==> output[k] == old(output[k])
  {
    hide U32Bytes;
    PutU32(output, base, at, c.x);
    PutU32(output, base, at + 4, c.y);
    PutU32(output, base, at + 8, c.velocityX);
    PutU32(output, base, at + 12, c.velocityY);
  }

  method PutShape(output: array<Byte>, ghost base: nat, at: nat, c: Contact)
    requires base <= at && at + 20 <= output.Length
    modifies output
    ensures output[base..at + 20]
         == old(output[base..at]) + U32Bytes(c.size) + U32Bytes(c.angle)
          + U32Bytes(c.majorAxis) + U32Bytes(c.minorAxis) + U32Bytes(c.density)
    ensures forall k :: 0 <= k < at || at + 20 <= k < output.Length ==> output[k] == old(output[k])
  {
    hide U32Bytes;
    PutU32(output, base, at, c.size);
    PutU32(output, base, at + 4, c.angle);
    PutU32(output, base, at + 8, c.majorAxis);
    PutU32(output, base, at + 12, c.minorAxis);
    PutU32(output, base, at + 16, c.density);
  }

  method PutContact(output: array<Byte>, at: nat, c: Contact)
    requires at + CONTACT_SIZE <= output.Length
    modifies output
    ensures output[at..at + CONTACT_SIZE] == ContactBytes(c)
    ensures forall k ::
      0 <= k < at || at + CONTACT_SIZE <= k < output.Length ==> output[k] == old(output[k])
  {
    hide U16Bytes, U32Bytes;
    PutU32(output, at, at, c.identifier);
    PutByte(output, at, at + 4, c.state);
    PutByte(output, at, at + 5, c.flags);
    PutU16(output, at, at + 6, 0);
    PutMotion(output, at, at + 8, c);
    PutShape(output, at, at + 24, c);
  }

  method PutContacts(output: array<Byte>, contacts: seq<Contact>)
    requires HEADER_SIZE + |contacts| * CONTACT_SIZE <= output.Length
    modifies output
    ensures output[HEADER_SIZE..HEADER_SIZE + |contacts| * CONTACT_SIZE] == ContactsBytes(contacts)
    ensures forall k ::
      0 <= k < HEADER_SIZE || HEADER_SIZE + |contacts| * CONTACT_SIZE <= k < output.Length
      ==> output[k] == old(output[k])
  {
    hide ContactBytes;
    for index := 0 to |contacts|
      invariant output[HEADER_SIZE..HEADER_SIZE + index * CONTACT_SIZE]
             == ContactsBytes(contacts[..index])
      invariant forall k ::
        0 <= k < HEADER_SIZE || HEADER_SIZE + |contacts| * CONTACT_SIZE <= k < output.Length
        ==> output[k] == old(output[k])
    {
      var at := HEADER_SIZE + index * CONTACT_SIZE;
      ghost var written := output[HEADER_SIZE..at];
      PutContact(output, at, contacts[index]);
      assert output[HEADER_SIZE..at + CONTACT_SIZE] == written + output[at..at + CONTACT_SIZE];
      assert contacts[..index + 1][..index] == contacts[..index];
    }
    assert contacts[..|contacts|] == contacts;
  }

  /** Writes the wire form of `frame` under type code `code` into the front of
      `destination`, or refuses with 0 and touches nothing. */
  method EncodeMessage(code: int, frame: TPFrame, destination: array<Byte>, capacity: nat)
    returns (size: nat)
    requires capacity <= destination.Length
    modifies destination
    ensures Encodable(code, frame, capacity) ==>
      var bytes := MessageBytes(MessageOf(KindOfCode(code).value, frame));
      && size == |bytes| <= destination.Length && destination[..size] == bytes
    ensures !Encodable(code, frame, capacity) ==> size == 0
    ensures forall k :: size <= k < destination.Length ==> destination[k] == old(destination[k])
  {
    hide HeaderBytes, ContactsBytes;
    if frame.contactCount > MAX_CONTACTS {
      return 0;
    }
    if code != 1 && code != 2 && code != 3 {
      return 0;
    }
    var kind := KindOfCode(code).value;
    var count := if kind == Frame then frame.contactCount else 0;
    var flags := if kind == Frame then frame.flags else 0;
    if flags > FRAME_BUTTON {
      return 0;
    }
    size := HEADER_SIZE + count * CONTACT_SIZE;
    if capacity < size {
      return 0;
    }
    var m := MessageOf(kind, frame);
    PutHeader(destination, m);
    PutContacts(destination, m.contacts);
    assert destination[..size] == destination[..HEADER_SIZE] + destination[HEADER_SIZE..size];
  }

  /** Exactly the byte strings the lenient decoder accepts. */
  predicate LenientAccepts(bytes: seq<Byte>) {
    && HEADER_SIZE <= |bytes|
    && GetU32(bytes, 0) == WIRE_MAGIC
    && GetU16(bytes, 4) == WIRE_VERSION
    && KindOfCode(GetU16(bytes, 6)).Some?
    && GetU16(bytes, 16) <= MAX_CONTACTS
    && GetU32(bytes, 8) == GetU16(bytes, 16) * CONTACT_SIZE
    && |bytes| == HEADER_SIZE + GetU32(bytes, 8)
    && GetU16(bytes, 18) <= FRAME_BUTTON
    && (KindOfCode(GetU16(bytes, 6)) != Some(Frame) ==> GetU16(bytes, 16) == 0 && GetU16(bytes, 18) == 0)
  }

  /** The message an accepted byte string spells, with no check of its contacts. */
  function LenientMessage(bytes: seq<Byte>): (m: Message)
    requires LenientAccepts(bytes)
    ensures |m.contacts| <= MAX_CONTACTS
  {
    Message(
      KindOfCode(GetU16(bytes, 6)).value, GetU32(bytes, 12), GetU64(bytes, 20), GetU64(bytes, 28),
      GetU16(bytes, 18),
      ReadContacts(bytes, GetU16(bytes, 16)))
  }

  /** A message as a C frame: unused contact entries are zero. */
  function FrameOf(m: Message): TPFrame
    requires |m.contacts| <= MAX_CONTACTS
  {
    FrameRecord(m.sequence, m.captureTimeUs, m.deviceTimeUs, m.flags, |m.contacts|,
                m.contacts + Zeros(MAX_CONTACTS - |m.contacts|))
  }

  method DecodeMessage(source: seq<Byte>) returns (decoded: Option<(MessageType, TPFrame)>)
    ensures decoded.Some? <==> LenientAccepts(source)
    ensures decoded.Some? ==>
      decoded.value == (LenientMessage(source).kind, FrameOf(LenientMessage(source)))
  {
    hide GetU16, GetU32, GetU64, ReadContact;
    if |source| < HEADER_SIZE || GetU32(source, 0) != WIRE_MAGIC || GetU16(source, 4) != WIRE_VERSION {
      return None;
    }
    var rawType := GetU16(source, 6);
    if rawType < 1 || rawType > 3 {
      return None;
    }
    var payloadSize, count, flags := GetU32(source, 8), GetU16(source, 16), GetU16(source, 18);
    if count > MAX_CONTACTS || payloadSize != count * CONTACT_SIZE
       || |source| != HEADER_SIZE + payloadSize
       || flags > FRAME_BUTTON
       || (rawType != 2 && (count != 0 || flags != 0)) {
      return None;
    }
    var contacts := Zeros(MAX_CONTACTS);
    for index := 0 to count
      invariant |contacts| == MAX_CONTACTS
      invariant forall i :: 0 <= i < index ==>
        contacts[i] == ReadContact(source, HEADER_SIZE + i * CONTACT_SIZE)
      invariant forall i :: index <= i < MAX_CONTACTS ==> contacts[i] == ZERO_CONTACT
    {
      contacts := contacts[index := ReadContact(source, HEADER_SIZE + index * CONTACT_SIZE)];
    }
    var frame := FrameRecord(GetU32(source, 12), GetU64(source, 20), GetU64(source, 28),
                             flags, count, contacts);
    assert contacts == LenientMessage(source).contacts + Zeros(MAX_CONTACTS - count);
    decoded := Some((KindOfCode(rawType).value, frame));
  }
}
