/** The vocabulary both ends of the MTP1 wire share: sizes, message kinds,
    contacts and the decoded message. A float is its 32-bit pattern. */
module Wire {
  import opened Words

  datatype Option<+T> = None | Some(value: T)
  datatype Result<+T, +E> = Success(value: T) | Failure(error: E)

  const HEADER_SIZE := 36
  const CONTACT_SIZE := 44
  const MAX_CONTACTS := 10
  const MAX_MESSAGE_SIZE := HEADER_SIZE + MAX_CONTACTS * CONTACT_SIZE
  const WIRE_MAGIC: U32 := 0x4d545031
  const WIRE_VERSION: U16 := 1

  const FRAME_BUTTON := 1
  const IN_RANGE := 1
  const TIP := 2
  const CONFIDENCE := 4
  const CONTACT_FLAGS := 7

  datatype MessageType = Hello | Frame | Reset

  function TypeCode(kind: MessageType): U16 {
    match kind
    case Hello => 1
    case Frame => 2
    case Reset => 3
  }

  datatype Contact = Contact(
    identifier: U32, state: Byte, flags: Byte,
    x: U32, y: U32, velocityX: U32, velocityY: U32,
    size: U32, angle: U32, majorAxis: U32, minorAxis: U32, density: U32)

  datatype Message = Message(
    kind: MessageType, sequence: U32, captureTimeUs: U64, deviceTimeUs: U64,
    flags: U16, contacts: seq<Contact>)

  /** What the receiver throws, one constructor per message text. */
  datatype ProtocolError =
    | InvalidMagic | UnsupportedVersion | UnknownMessageType | InvalidHeaderFlags
    | InvalidPayload | ControlWithContacts
    | TruncatedHeader | LengthMismatch
    | ReservedNonzero | UnknownContactFlags | NotFinite | DuplicateIdentifier
    | BufferLimit
    | SequenceDiscontinuity | UnexpectedHello | BeforeHello | FrameBeforeReset
    | TooManyContacts | NoFreeSlot

  /** Neither infinity nor NaN: the biased exponent is not all ones. */
  predicate Finite(pattern: U32) {
    pattern / 0x80_0000 % 0x100 != 0xff
  }

  /** Section 3.4 of IEEE 754-2019: all-ones exponent with a nonzero fraction. */
  predicate IsNaN(pattern: U32) {
    pattern / 0x80_0000 % 0x100 == 0xff && pattern % 0x80_0000 != 0
  }

  /** Orders the patterns that are not NaN as their values; both zeros are 0. */
  function Rank(pattern: U32): int {
    if pattern < 0x8000_0000 then pattern else 0x8000_0000 - pattern
  }

  predicate FloatGreater(a: U32, b: U32) { !IsNaN(a) && !IsNaN(b) && Rank(a) > Rank(b) }

  predicate FloatAtLeast(a: U32, b: U32) { !IsNaN(a) && !IsNaN(b) && Rank(a) >= Rank(b) }

  predicate AllFinite(c: Contact) {
    && Finite(c.x) && Finite(c.y) && Finite(c.velocityX) && Finite(c.velocityY)
    && Finite(c.size) && Finite(c.angle) && Finite(c.majorAxis) && Finite(c.minorAxis)
    && Finite(c.density)
  }

  predicate HasTip(c: Contact) { HasBit(c.flags, TIP) }

  predicate KnownContact(c: Contact) { c.flags <= CONTACT_FLAGS && AllFinite(c) }

  predicate DistinctIdentifiers(contacts: seq<Contact>) {
    forall i, j :: 0 <= i < j < |contacts| ==> contacts[i].identifier != contacts[j].identifier
  }

  function Identifiers(contacts: seq<Contact>): (identifiers: set<U32>)
    ensures forall i :: 0 <= i < |contacts| ==> contacts[i].identifier in identifiers
    ensures forall id :: id in identifiers ==>
      exists i :: 0 <= i < |contacts| && contacts[i].identifier == id
  {
    if contacts == [] then {}
    else
      var n := |contacts| - 1;
      Identifiers(contacts[..n]) + {contacts[n].identifier}
  }

  lemma {:induction false} DistinctAppend(before: seq<Contact>, c: Contact)
    ensures DistinctIdentifiers(before + [c])
      <==> DistinctIdentifiers(before) && c.identifier !in Identifiers(before)
  {
    var all := before + [c];
    assert forall i :: 0 <= i < |before| ==> all[i] == before[i];
    if c.identifier in Identifiers(before) {
      var i :| 0 <= i < |before| && before[i].identifier == c.identifier;
      assert all[i].identifier == all[|before|].identifier;
    } else if DistinctIdentifiers(all) {
      assert forall i, j :: 0 <= i < j < |before| ==> all[i].identifier != all[j].identifier;
    }
  }

  /** What the strict decoder promises of every message it returns. */
  predicate WellFormed(m: Message) {
    && |m.contacts| <= MAX_CONTACTS
    && m.flags <= FRAME_BUTTON
    && (m.kind != Frame ==> m.contacts == [] && m.flags == 0)
    && (forall i :: 0 <= i < |m.contacts| ==> KnownContact(m.contacts[i]))
    && DistinctIdentifiers(m.contacts)
  }

  function KindOfCode(code: int): Option<MessageType> {
    if code == 1 then Some(Hello)
    else if code == 2 then Some(Frame)
    else if code == 3 then Some(Reset)
    else None
  }

  /** The fields of the contact record that starts at `at`; the reserved field
      at `at + 6` is not part of a contact. */
  function ReadContact(bytes: seq<Byte>, at: nat): Contact
    requires at + CONTACT_SIZE <= |bytes|
  {
    Contact(
      GetU32(bytes, at), bytes[at + 4], bytes[at + 5],
      GetU32(bytes, at + 8), GetU32(bytes, at + 12),
      GetU32(bytes, at + 16), GetU32(bytes, at + 20),
      GetU32(bytes, at + 24), GetU32(bytes, at + 28), GetU32(bytes, at + 32),
      GetU32(bytes, at + 36), GetU32(bytes, at + 40))
  }

  /** The first `n` contact records after the header. */
  function ReadContacts(bytes: seq<Byte>, n: nat): (contacts: seq<Contact>)
    requires HEADER_SIZE + n * CONTACT_SIZE <= |bytes|
    ensures |contacts| == n
    ensures forall i :: 0 <= i < n ==>
      contacts[i] == ReadContact(bytes, HEADER_SIZE + i * CONTACT_SIZE)
  {
    if n == 0 then []
    else ReadContacts(bytes, n - 1) + [ReadContact(bytes, HEADER_SIZE + (n - 1) * CONTACT_SIZE)]
  }

  ghost function Concat(parts: seq<seq<Byte>>): seq<Byte> {
    if parts == [] then [] else parts[0] + Concat(parts[1..])
  }

  lemma {:induction false} ConcatAppend(left: seq<seq<Byte>>, right: seq<seq<Byte>>)
    ensures Concat(left + right) == Concat(left) + Concat(right)
  {
    if left == [] {
      assert left + right == right;
    } else {
      assert (left + right)[1..] == left[1..] + right;
      ConcatAppend(left[1..], right);
    }
  }
}
