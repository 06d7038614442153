/** The encoder and the two decoders against each other. */
module CodecLaws {
  import opened Words
  import opened Wire
  import opened TouchFrame
  import Mtp1

  /** Peels the last field off a run of fields. */
  lemma {:induction false} FieldSplit(bytes: seq<Byte>, lo: nat, mid: nat, hi: nat, front: seq<Byte>, field: seq<Byte>)
    requires lo <= mid <= hi <= |bytes| && |front| == mid - lo && |field| == hi - mid
    ensures bytes[lo..hi] == front + field <==> bytes[lo..mid] == front && bytes[mid..hi] == field
  {
    assert bytes[lo..hi] == bytes[lo..mid] + bytes[mid..hi];
    if bytes[lo..hi] == front + field {
      assert bytes[lo..mid] == bytes[lo..hi][..mid - lo] == front;
      assert bytes[mid..hi] == bytes[lo..hi][mid - lo..] == field;
    }
  }

  lemma {:induction false} FieldU16(bytes: seq<Byte>, lo: nat, at: nat, front: seq<Byte>, value: U16)
    requires lo <= at && at + 2 <= |bytes| && |front| == at - lo
    ensures bytes[lo..at + 2] == front + U16Bytes(value)
      <==> bytes[lo..at] == front && GetU16(bytes, at) == value
  {
    hide U16Bytes, GetU16;
    FieldSplit(bytes, lo, at, at + 2, front, U16Bytes(value));
    ReadU16(bytes, at, value);
  }

  lemma {:induction false} FieldU32(bytes: seq<Byte>, lo: nat, at: nat, front: seq<Byte>, value: U32)
    requires lo <= at && at + 4 <= |bytes| && |front| == at - lo
    ensures bytes[lo..at + 4] == front + U32Bytes(value)
      <==> bytes[lo..at] == front && GetU32(bytes, at) == value
  {
    hide U32Bytes, GetU32;
    FieldSplit(bytes, lo, at, at + 4, front, U32Bytes(value));
    ReadU32(bytes, at, value);
  }

  lemma {:induction false} FieldU64(bytes: seq<Byte>, lo: nat, at: nat, front: seq<Byte>, value: U64)
    requires lo <= at && at + 8 <= |bytes| && |front| == at - lo
    ensures bytes[lo..at + 8] == front + U64Bytes(value)
      <==> bytes[lo..at] == front && GetU64(bytes, at) == value
  {
    hide U64Bytes, GetU64;
    FieldSplit(bytes, lo, at, at + 8, front, U64Bytes(value));
    ReadU64(bytes, at, value);
  }

  ghost predicate HeaderSpells(bytes: seq<Byte>, m: Message)
    requires |bytes| >= HEADER_SIZE && |m.contacts| <= MAX_CONTACTS
  {
    && GetU32(bytes, 0) == WIRE_MAGIC
    && GetU16(bytes, 4) == WIRE_VERSION
    && GetU16(bytes, 6) == TypeCode(m.kind)
    && GetU32(bytes, 8) == |m.contacts| * CONTACT_SIZE
    && GetU32(bytes, 12) == m.sequence
    && GetU16(bytes, 16) == |m.contacts|
    && GetU16(bytes, 18) == m.flags
    && GetU64(bytes, 20) == m.captureTimeUs
    && GetU64(bytes, 28) == m.deviceTimeUs
  }

  lemma {:induction false} HeaderReads(bytes: seq<Byte>, m: Message)
    requires |bytes| >= HEADER_SIZE && |m.contacts| <= MAX_CONTACTS
    ensures bytes[..HEADER_SIZE] == HeaderBytes(m) <==> HeaderSpells(bytes, m)
  {
    hide U16Bytes, U32Bytes, U64Bytes, GetU16, GetU32, GetU64;
    var f := U32Bytes(WIRE_MAGIC);
    assert [] + f == f;
    FieldU32(bytes, 0, 0, [], WIRE_MAGIC);
    FieldU16(bytes, 0, 4, f, WIRE_VERSION);
    f := f + U16Bytes(WIRE_VERSION);
    FieldU16(bytes, 0, 6, f, TypeCode(m.kind));
    f := f + U16Bytes(TypeCode(m.kind));
    FieldU32(bytes, 0, 8, f, |m.contacts| * CONTACT_SIZE);
    f := f + U32Bytes(|m.contacts| * CONTACT_SIZE);
    FieldU32(bytes, 0, 12, f, m.sequence);
    f := f + U32Bytes(m.sequence);
    FieldU16(bytes, 0, 16, f, |m.contacts|);
    f := f + U16Bytes(|m.contacts|);
    FieldU16(bytes, 0, 18, f, m.flags);
    f := f + U16Bytes(m.flags);
    FieldU64(bytes, 0, 20, f, m.captureTimeUs);
    f := f + U64Bytes(m.captureTimeUs);
    FieldU64(bytes, 0, 28, f, m.deviceTimeUs);
  }

  lemma {:induction false} ContactReads(bytes: seq<Byte>, at: nat, c: Contact)
    requires at + CONTACT_SIZE <= |bytes|
    ensures bytes[at..at + CONTACT_SIZE] == ContactBytes(c)
      <==> ReadContact(bytes, at) == c && GetU16(bytes, at + 6) == 0
  {
    hide U16Bytes, U32Bytes, GetU16, GetU32;
    var f := U32Bytes(c.identifier);
    assert [] + f == f;
    FieldU32(bytes, at, at, [], c.identifier);
    FieldSplit(bytes, at, at + 4, at + 5, f, [c.state]);
    f := f + [c.state];
    FieldSplit(bytes, at, at + 5, at + 6, f, [c.flags]);
    f := f + [c.flags];
    FieldU16(bytes, at, at + 6, f, 0);
    f := f + U16Bytes(0);
    FieldU32(bytes, at, at + 8, f, c.x);
    f := f + U32Bytes(c.x);
    FieldU32(bytes, at, at + 12, f, c.y);
    f := f + U32Bytes(c.y);
    FieldU32(bytes, at, at + 16, f, c.velocityX);
    f := f + U32Bytes(c.velocityX);
    FieldU32(bytes, at, at + 20, f, c.velocityY);
    f := f + U32Bytes(c.velocityY);
    FieldU32(bytes, at, at + 24, f, c.size);
    f := f + U32Bytes(c.size);
    FieldU32(bytes, at, at + 28, f, c.angle);
    f := f + U32Bytes(c.angle);
    FieldU32(bytes, at, at + 32, f, c.majorAxis);
    f := f + U32Bytes(c.majorAxis);
    FieldU32(bytes, at, at + 36, f, c.minorAxis);
    f := f + U32Bytes(c.minorAxis);
    FieldU32(bytes, at, at + 40, f, c.density);
    assert bytes[at + 4..at + 5] == [bytes[at + 4]] && bytes[at + 5..at + 6] == [bytes[at + 5]];
  }

  ghost predicate ContactsSpell(bytes: seq<Byte>, contacts: seq<Contact>)
    requires HEADER_SIZE + |contacts| * CONTACT_SIZE <= |bytes|
  {
    forall i :: 0 <= i < |contacts| ==>
      && ReadContact(bytes, HEADER_SIZE + i * CONTACT_SIZE) == contacts[i]
      && Mtp1.Reserved(bytes, i) == 0
  }

  lemma {:induction false} ContactsRead(bytes: seq<Byte>, contacts: seq<Contact>)
    requires HEADER_SIZE + |contacts| * CONTACT_SIZE <= |bytes|
    ensures bytes[HEADER_SIZE..HEADER_SIZE + |contacts| * CONTACT_SIZE] == ContactsBytes(contacts)
      <==> ContactsSpell(bytes, contacts)
  {
    hide ContactBytes, ReadContact, GetU16;
    if contacts != [] {
      var n := |contacts| - 1;
      var mid := HEADER_SIZE + n * CONTACT_SIZE;
      ContactsRead(bytes, contacts[..n]);
      ContactReads(bytes, mid, contacts[n]);
      FieldSplit(bytes, HEADER_SIZE, mid, mid + CONTACT_SIZE,
                 ContactsBytes(contacts[..n]), ContactBytes(contacts[n]));
      if ContactsSpell(bytes, contacts[..n]) && ReadContact(bytes, mid) == contacts[n] {
        assert forall i :: 0 <= i < n ==> contacts[..n][i] == contacts[i];
      }
      if ContactsSpell(bytes, contacts) {
        assert ContactsSpell(bytes, contacts[..n]);
        assert Mtp1.Reserved(bytes, n) == 0;
      }
    }
  }

  /** A byte string is the wire form of `m` exactly when its fields read as those of `m`. */
  lemma {:induction false} MessageReads(bytes: seq<Byte>, m: Message)
    requires |m.contacts| <= MAX_CONTACTS
    requires |bytes| == HEADER_SIZE + |m.contacts| * CONTACT_SIZE
    ensures bytes == MessageBytes(m) <==> HeaderSpells(bytes, m) && ContactsSpell(bytes, m.contacts)
  {
    hide HeaderBytes, ContactsBytes, HeaderSpells, ContactsSpell;
    HeaderReads(bytes, m);
    ContactsRead(bytes, m.contacts);
    FieldSplit(bytes, 0, HEADER_SIZE, |bytes|, HeaderBytes(m), ContactsBytes(m.contacts));
    assert bytes[0..|bytes|] == bytes;
  }

  ghost predicate RecordsKnown(bytes: seq<Byte>, n: nat)
    requires HEADER_SIZE + n * CONTACT_SIZE <= |bytes|
  {
    forall i :: 0 <= i < n ==>
      && Mtp1.Reserved(bytes, i) == 0
      && KnownContact(ReadContact(bytes, HEADER_SIZE + i * CONTACT_SIZE))
  }

  lemma {:induction false} NoErrorBase(bytes: seq<Byte>)
    requires HEADER_SIZE <= |bytes|
    ensures Mtp1.ContactsError(bytes, 0) == None && RecordsKnown(bytes, 0)
    ensures DistinctIdentifiers(ReadContacts(bytes, 0))
  {
  }

  lemma {:induction false} NoErrorStep(bytes: seq<Byte>, n: nat)
    requires HEADER_SIZE + (n + 1) * CONTACT_SIZE <= |bytes|
    ensures var c := ReadContact(bytes, HEADER_SIZE + n * CONTACT_SIZE);
      Mtp1.ContactsError(bytes, n + 1) == None <==>
        && Mtp1.ContactsError(bytes, n) == None
        && Mtp1.Reserved(bytes, n) == 0 && KnownContact(c)
        && c.identifier !in Identifiers(ReadContacts(bytes, n))
  {
    hide ReadContact, Mtp1.Reserved, AllFinite, Identifiers, ReadContacts;
    Mtp1.ReadNext(bytes, n);
  }

  lemma {:induction false} RecordsKnownStep(bytes: seq<Byte>, n: nat)
    requires HEADER_SIZE + (n + 1) * CONTACT_SIZE <= |bytes|
    ensures RecordsKnown(bytes, n + 1) <==>
      && RecordsKnown(bytes, n)
      && Mtp1.Reserved(bytes, n) == 0
      && KnownContact(ReadContact(bytes, HEADER_SIZE + n * CONTACT_SIZE))
  {
    hide ReadContact, Mtp1.Reserved, KnownContact;
  }

  /** No objection is raised exactly when every record is acceptable on its
      own and no identifier repeats. */
  lemma {:induction false} NoContactError(bytes: seq<Byte>, n: nat)
    requires HEADER_SIZE + n * CONTACT_SIZE <= |bytes|
    ensures Mtp1.ContactsError(bytes, n) == None
      <==> RecordsKnown(bytes, n) && DistinctIdentifiers(ReadContacts(bytes, n))
  {
    hide Mtp1.ContactsError, ReadContact, ReadContacts, Mtp1.Reserved, KnownContact, Identifiers,
      DistinctIdentifiers, RecordsKnown;
    if n == 0 {
      NoErrorBase(bytes);
    } else {
      NoContactError(bytes, n - 1);
      RecordsKnownStep(bytes, n - 1);
      NoErrorStep(bytes, n - 1);
      Mtp1.ReadNext(bytes, n - 1);
      var before := ReadContacts(bytes, n - 1);
      DistinctAppend(before, ReadContact(bytes, HEADER_SIZE + (n - 1) * CONTACT_SIZE));
    }
  }

  /** The record-by-record facts, said of the list of contacts read. */
  lemma {:induction false} RecordsAsList(bytes: seq<Byte>, n: nat)
    requires HEADER_SIZE + n * CONTACT_SIZE <= |bytes|
    ensures RecordsKnown(bytes, n) <==> forall i :: 0 <= i < n ==>
      Mtp1.Reserved(bytes, i) == 0 && KnownContact(ReadContacts(bytes, n)[i])
    ensures RecordsKnown(bytes, n) ==> ContactsSpell(bytes, ReadContacts(bytes, n))
  {
    hide ReadContact, ReadContacts, Mtp1.Reserved, KnownContact;
    var contacts := ReadContacts(bytes, n);
    assert forall i :: 0 <= i < n ==>
      contacts[i] == ReadContact(bytes, HEADER_SIZE + i * CONTACT_SIZE);
    if forall i :: 0 <= i < n ==> Mtp1.Reserved(bytes, i) == 0 && KnownContact(contacts[i]) {
      forall i | 0 <= i < n
        ensures KnownContact(ReadContact(bytes, HEADER_SIZE + i * CONTACT_SIZE))
      {
        assert KnownContact(contacts[i]);
      }
    }
  }

  lemma {:induction false} SpelledList(bytes: seq<Byte>, contacts: seq<Contact>)
    requires HEADER_SIZE + |contacts| * CONTACT_SIZE <= |bytes|
    requires ContactsSpell(bytes, contacts)
    ensures ReadContacts(bytes, |contacts|) == contacts
  {
  }

  /** The strict decoder accepts what the lenient one accepts, less every
      message with a nonzero reserved field, an unknown contact flag, a
      non-finite float or a repeated identifier; where both accept, every field
      agrees, and encoding the result gives the bytes back. */
  lemma {:induction false} DecodersAgree(bytes: seq<Byte>)
    ensures Mtp1.Decode(bytes).Success? <==>
      && LenientAccepts(bytes)
      && var m := LenientMessage(bytes);
      && (forall i :: 0 <= i < |m.contacts| ==>
           Mtp1.Reserved(bytes, i) == 0 && KnownContact(m.contacts[i]))
      && DistinctIdentifiers(m.contacts)
    ensures Mtp1.Decode(bytes).Success? ==>
      && Mtp1.Decode(bytes).value == LenientMessage(bytes)
      && WellFormed(LenientMessage(bytes))
      && MessageBytes(LenientMessage(bytes)) == bytes
  {
    hide ReadContact, GetU16, GetU32, GetU64, KnownContact, MessageBytes, RecordsKnown, DistinctIdentifiers,
      ContactsSpell, Mtp1.ContactsError;
    if LenientAccepts(bytes) {
      var m := LenientMessage(bytes);
      NoContactError(bytes, |m.contacts|);
      RecordsAsList(bytes, |m.contacts|);
      if Mtp1.Decode(bytes).Success? {
        MessageReads(bytes, m);
      }
    }
  }

  /** Encoding then decoding is the identity on well-formed messages. */
  lemma {:induction false} StrictRoundTrip(m: Message)
    requires WellFormed(m)
    ensures Mtp1.Decode(MessageBytes(m)) == Success(m)
  {
    hide ReadContact, GetU16, GetU32, GetU64, KnownContact, HeaderBytes, ContactsBytes, RecordsKnown,
      DistinctIdentifiers, Mtp1.ContactsError, ContactsSpell;
    var bytes := MessageBytes(m);
    MessageReads(bytes, m);
    SpelledList(bytes, m.contacts);
    NoContactError(bytes, |m.contacts|);
    SpelledReserved(bytes, m.contacts);
    RecordsAsList(bytes, |m.contacts|);
  }

  lemma {:induction false} SpelledReserved(bytes: seq<Byte>, contacts: seq<Contact>)
    requires HEADER_SIZE + |contacts| * CONTACT_SIZE <= |bytes|
    requires ContactsSpell(bytes, contacts)
    ensures forall i :: 0 <= i < |contacts| ==> Mtp1.Reserved(bytes, i) == 0
  {
  }

  /** The lenient round trip needs only the encoder's own conditions; control
      messages come back with no contacts and no flags. */
  lemma {:induction false} LenientRoundTrip(kind: MessageType, frame: TPFrame)
    requires frame.contactCount <= MAX_CONTACTS && (kind == Frame ==> frame.flags <= FRAME_BUTTON)
    ensures var bytes := MessageBytes(MessageOf(kind, frame));
      && LenientAccepts(bytes)
      && LenientMessage(bytes) == MessageOf(kind, frame)
      && (kind != Frame ==> LenientMessage(bytes).contacts == [] && LenientMessage(bytes).flags == 0)
  {
    hide ReadContact, GetU16, GetU32, GetU64, HeaderBytes, ContactsBytes, ContactsSpell;
    var m := MessageOf(kind, frame);
    var bytes := MessageBytes(m);
    MessageReads(bytes, m);
    SpelledList(bytes, m.contacts);
  }

  /** Re-encoding what the lenient decoder accepts gives the bytes back exactly
      when no reserved field was set. */
  lemma {:induction false} LenientReencodes(bytes: seq<Byte>)
    requires LenientAccepts(bytes)
    ensures MessageBytes(LenientMessage(bytes)) == bytes
      <==> forall i :: 0 <= i < |LenientMessage(bytes).contacts| ==> Mtp1.Reserved(bytes, i) == 0
  {
    hide ReadContact, GetU16, GetU32, GetU64, HeaderBytes, ContactsBytes;
    MessageReads(bytes, LenientMessage(bytes));
  }

  /** The number that `width` bytes spell, most significant first. */
  function BigEndian(bytes: seq<Byte>, at: nat, width: nat): nat
    requires at + width <= |bytes|
  {
    if width == 0 then 0 else BigEndian(bytes, at, width - 1) * 256 + bytes[at + width - 1]
  }

  lemma {:induction false} NextByte(bytes: seq<Byte>, at: nat, width: nat)
    requires at + width < |bytes|
    ensures BigEndian(bytes, at, 0) == 0
    ensures BigEndian(bytes, at, width + 1) == BigEndian(bytes, at, width) * 256 + bytes[at + width]
  {
  }

  lemma {:induction false} BigEndianPairs(bytes: seq<Byte>, at: nat)
    requires at + 4 <= |bytes|
    ensures BigEndian(bytes, at, 4) == BigEndian(bytes, at, 2) * 65536 + BigEndian(bytes, at + 2, 2)
  {
    hide BigEndian;
    NextByte(bytes, at, 2);
    NextByte(bytes, at, 3);
    NextByte(bytes, at + 2, 0);
    NextByte(bytes, at + 2, 1);
  }

  lemma {:induction false} BigEndianHalves(bytes: seq<Byte>, at: nat)
    requires at + 8 <= |bytes|
    ensures BigEndian(bytes, at, 8) == BigEndian(bytes, at, 4) * 4294967296 + BigEndian(bytes, at + 4, 4)
  {
    hide BigEndian;
    NextByte(bytes, at, 4);
    NextByte(bytes, at, 5);
    NextByte(bytes, at, 6);
    NextByte(bytes, at, 7);
    NextByte(bytes, at + 4, 0);
    NextByte(bytes, at + 4, 1);
    NextByte(bytes, at + 4, 2);
    NextByte(bytes, at + 4, 3);
  }

  /** The readers read big-endian numbers. */
  lemma {:induction false} ReadersBigEndian(bytes: seq<Byte>, at: nat)
    ensures at + 2 <= |bytes| ==> GetU16(bytes, at) == BigEndian(bytes, at, 2)
    ensures at + 4 <= |bytes| ==> GetU32(bytes, at) == BigEndian(bytes, at, 4)
    ensures at + 8 <= |bytes| ==> GetU64(bytes, at) == BigEndian(bytes, at, 8)
  {
    hide BigEndian;
    if at + 2 <= |bytes| {
      ReadShort(bytes, at);
    }
    if at + 4 <= |bytes| {
      ReadShort(bytes, at + 2);
      BigEndianPairs(bytes, at);
    }
    if at + 8 <= |bytes| {
      ReadShort(bytes, at + 4);
      ReadShort(bytes, at + 6);
      BigEndianPairs(bytes, at + 4);
      BigEndianHalves(bytes, at);
    }
  }

  lemma {:induction false} ReadShort(bytes: seq<Byte>, at: nat)
    requires at + 2 <= |bytes|
    ensures GetU16(bytes, at) == BigEndian(bytes, at, 2)
  {
    hide BigEndian;
    NextByte(bytes, at, 0);
    NextByte(bytes, at, 1);
  }

  ghost predicate HeaderLayout(bytes: seq<Byte>, m: Message)
    requires |bytes| >= 36
  {
    && bytes[..4] == [0x4d, 0x54, 0x50, 0x31]
    && BigEndian(bytes, 4, 2) == 1
    && BigEndian(bytes, 6, 2) == (match m.kind case Hello => 1 case Frame => 2 case Reset => 3)
    && BigEndian(bytes, 8, 4) == 44 * |m.contacts|
    && BigEndian(bytes, 12, 4) == m.sequence
    && BigEndian(bytes, 16, 2) == |m.contacts|
    && BigEndian(bytes, 18, 2) == m.flags
    && BigEndian(bytes, 20, 8) == m.captureTimeUs
    && BigEndian(bytes, 28, 8) == m.deviceTimeUs
  }

  ghost predicate ContactLayout(bytes: seq<Byte>, at: nat, c: Contact)
    requires at + 44 <= |bytes|
  {
    && BigEndian(bytes, at, 4) == c.identifier
    && bytes[at + 4] == c.state && bytes[at + 5] == c.flags && BigEndian(bytes, at + 6, 2) == 0
    && BigEndian(bytes, at + 8, 4) == c.x && BigEndian(bytes, at + 12, 4) == c.y
    && BigEndian(bytes, at + 16, 4) == c.velocityX && BigEndian(bytes, at + 20, 4) == c.velocityY
    && BigEndian(bytes, at + 24, 4) == c.size && BigEndian(bytes, at + 28, 4) == c.angle
    && BigEndian(bytes, at + 32, 4) == c.majorAxis && BigEndian(bytes, at + 36, 4) == c.minorAxis
    && BigEndian(bytes, at + 40, 4) == c.density
  }

  /** The wire form, field by field: where each stands, how wide it is, and that it is
      big-endian. */
  lemma {:induction false} WireLayout(m: Message)
    requires |m.contacts| <= MAX_CONTACTS
    ensures var bytes := MessageBytes(m);
      && |bytes| == 36 + 44 * |m.contacts| && HeaderLayout(bytes, m)
      && forall i :: 0 <= i < |m.contacts| ==> ContactLayout(bytes, 36 + 44 * i, m.contacts[i])
  {
    hide MessageBytes, GetU16, GetU32, GetU64, BigEndian, HeaderLayout, ContactLayout, ReadContact, HeaderSpells;
    var bytes := MessageBytes(m);
    MessageReads(bytes, m);
    HeaderAt(bytes, m);
    forall i | 0 <= i < |m.contacts|
      ensures ContactLayout(bytes, 36 + 44 * i, m.contacts[i])
    {
      ContactAt(bytes, 36 + 44 * i, m.contacts[i]);
    }
  }

  lemma {:induction false} HeaderAt(bytes: seq<Byte>, m: Message)
    requires |bytes| >= HEADER_SIZE && |m.contacts| <= MAX_CONTACTS && HeaderSpells(bytes, m)
    ensures HeaderLayout(bytes, m)
  {
    hide GetU16, GetU32, GetU64, BigEndian;
    ReadersBigEndian(bytes, 0);
    ReadersBigEndian(bytes, 4);
    ReadersBigEndian(bytes, 6);
    ReadersBigEndian(bytes, 8);
    ReadersBigEndian(bytes, 12);
    ReadersBigEndian(bytes, 16);
    ReadersBigEndian(bytes, 18);
    ReadersBigEndian(bytes, 20);
    ReadersBigEndian(bytes, 28);
    MagicBytes(bytes);
  }

  lemma {:induction false} MagicBytes(bytes: seq<Byte>)
    requires |bytes| >= 4
    ensures BigEndian(bytes, 0, 4) == 0x4d545031 ==> bytes[..4] == [0x4d, 0x54, 0x50, 0x31]
  {
    hide BigEndian;
    NextByte(bytes, 0, 0);
    NextByte(bytes, 0, 1);
    NextByte(bytes, 0, 2);
    NextByte(bytes, 0, 3);
  }

  lemma {:induction false} ContactAt(bytes: seq<Byte>, at: nat, c: Contact)
    requires at + CONTACT_SIZE <= |bytes| && ReadContact(bytes, at) == c && GetU16(bytes, at + 6) == 0
    ensures ContactLayout(bytes, at, c)
  {
    hide GetU16, GetU32, GetU64, BigEndian;
    ReadersBigEndian(bytes, at);
    ReadersBigEndian(bytes, at + 6);
    ReadersBigEndian(bytes, at + 8);
    ReadersBigEndian(bytes, at + 12);
    ReadersBigEndian(bytes, at + 16);
    ReadersBigEndian(bytes, at + 20);
    ReadersBigEndian(bytes, at + 24);
    ReadersBigEndian(bytes, at + 28);
    ReadersBigEndian(bytes, at + 32);
    ReadersBigEndian(bytes, at + 36);
    ReadersBigEndian(bytes, at + 40);
  }

  /** The wire form of a C frame: a FRAME carries its flags and its first contacts, a
      control message neither; number and times are the frame's own. */
  lemma {:induction false} EncodedFields(kind: MessageType, frame: TPFrame)
    requires frame.contactCount <= MAX_CONTACTS
    ensures var bytes := MessageBytes(MessageOf(kind, frame));
      var count := if kind == Frame then frame.contactCount else 0;
      && |bytes| == 36 + 44 * count
      && BigEndian(bytes, 6, 2) == (match kind case Hello => 1 case Frame => 2 case Reset => 3)
      && BigEndian(bytes, 12, 4) == frame.sequence && BigEndian(bytes, 16, 2) == count
      && BigEndian(bytes, 18, 2) == (if kind == Frame then frame.flags else 0)
      && BigEndian(bytes, 20, 8) == frame.captureTimeUs && BigEndian(bytes, 28, 8) == frame.deviceTimeUs
      && forall i :: 0 <= i < count ==> ContactLayout(bytes, 36 + 44 * i, frame.contacts[i])
  {
    hide BigEndian, ContactLayout, MessageBytes;
    WireLayout(MessageOf(kind, frame));
  }

  /** The objection to a header, in the order the checks are made. */
  function HeaderObjection(bytes: seq<Byte>): Option<ProtocolError>
    requires |bytes| >= 36
  {
    var kind, flags, count := BigEndian(bytes, 6, 2), BigEndian(bytes, 18, 2), BigEndian(bytes, 16, 2);
    if bytes[..4] != [0x4d, 0x54, 0x50, 0x31] then Some(InvalidMagic)
    else if BigEndian(bytes, 4, 2) != 1 then Some(UnsupportedVersion)
    else if kind < 1 || kind > 3 then Some(UnknownMessageType)
    else if flags > 1 || (kind != 2 && flags != 0) then Some(InvalidHeaderFlags)
    else if count > 10 || BigEndian(bytes, 8, 4) != 44 * count then Some(InvalidPayload)
    else if kind != 2 && count != 0 then Some(ControlWithContacts)
    else None
  }

  /** Which error a header meets, by the bytes themselves; else the length it announces. */
  lemma {:induction false} HeaderErrors(bytes: seq<Byte>)
    requires |bytes| >= HEADER_SIZE
    ensures match HeaderObjection(bytes)
      case Some(error) => Mtp1.ValidateHeader(bytes) == Failure(error)
      case None => Mtp1.ValidateHeader(bytes) == Success(36 + 44 * BigEndian(bytes, 16, 2))
  {
    hide GetU16, GetU32, BigEndian;
    ReadersBigEndian(bytes, 0);
    ReadersBigEndian(bytes, 4);
    ReadersBigEndian(bytes, 6);
    ReadersBigEndian(bytes, 8);
    ReadersBigEndian(bytes, 16);
    ReadersBigEndian(bytes, 18);
    MagicBytes(bytes);
    MagicBytesBack(bytes);
  }

  /** Which error a byte string meets as one message: too short, its header's, a wrong
      length, or its contacts'. */
  lemma {:induction false} DecodeErrors(bytes: seq<Byte>)
    ensures |bytes| < 36 ==> Mtp1.Decode(bytes) == Failure(TruncatedHeader)
    ensures |bytes| >= 36 ==>
      match HeaderObjection(bytes)
      case Some(error) => Mtp1.Decode(bytes) == Failure(error)
      case None =>
        var count := BigEndian(bytes, 16, 2);
        if |bytes| != 36 + 44 * count then Mtp1.Decode(bytes) == Failure(LengthMismatch)
        else
          match Mtp1.ContactsError(bytes, count)
          case Some(error) => Mtp1.Decode(bytes) == Failure(error)
          case None => Mtp1.Decode(bytes).Success?
  {
    hide GetU16, GetU32, GetU64, BigEndian, Mtp1.ContactsError, ReadContacts;
    if |bytes| >= 36 {
      HeaderErrors(bytes);
      ReadersBigEndian(bytes, 16);
    }
  }

  lemma {:induction false} MagicBytesBack(bytes: seq<Byte>)
    requires |bytes| >= 4
    ensures bytes[..4] == [0x4d, 0x54, 0x50, 0x31] ==> BigEndian(bytes, 0, 4) == 0x4d545031
  {
    hide BigEndian;
    NextByte(bytes, 0, 0);
    NextByte(bytes, 0, 1);
    NextByte(bytes, 0, 2);
    NextByte(bytes, 0, 3);
    assert bytes[..4][0] == bytes[0] && bytes[..4][1] == bytes[1];
    assert bytes[..4][2] == bytes[2] && bytes[..4][3] == bytes[3];
  }

  /** The first objection to a record on its own or by a record before it. */
  predicate ObjectsTo(bytes: seq<Byte>, i: nat, error: ProtocolError)
    requires 36 + (i + 1) * 44 <= |bytes|
  {
    var c := ReadContact(bytes, 36 + i * 44);
    match error
    case ReservedNonzero => Mtp1.Reserved(bytes, i) != 0
    case UnknownContactFlags => Mtp1.Reserved(bytes, i) == 0 && c.flags > 7
    case NotFinite => Mtp1.Reserved(bytes, i) == 0 && c.flags <= 7 && !AllFinite(c)
    case DuplicateIdentifier =>
      && Mtp1.Reserved(bytes, i) == 0 && KnownContact(c)
      && exists j :: 0 <= j < i && ReadContact(bytes, 36 + j * 44).identifier == c.identifier
    case _ => false
  }

  /** Which error the contacts meet: that of the first record objected to. */
  lemma {:induction false} ContactErrors(bytes: seq<Byte>, n: nat, error: ProtocolError)
    requires HEADER_SIZE + n * CONTACT_SIZE <= |bytes|
    ensures Mtp1.ContactsError(bytes, n) == Some(error) <==>
      exists i :: 0 <= i < n && Mtp1.ContactsError(bytes, i) == None && ObjectsTo(bytes, i, error)
  {
    hide ReadContact, Mtp1.Reserved, AllFinite, Identifiers, ReadContacts, ObjectsTo;
    if n > 0 {
      ContactErrors(bytes, n - 1, error);
      RecordError(bytes, n - 1, error);
      if Mtp1.ContactsError(bytes, n - 1) == None {
        NoneBefore(bytes, n - 1, error);
      }
    }
  }

  lemma {:induction false} NoneBefore(bytes: seq<Byte>, n: nat, error: ProtocolError)
    requires HEADER_SIZE + n * CONTACT_SIZE <= |bytes| && Mtp1.ContactsError(bytes, n) == None
    ensures forall i :: 0 <= i < n ==> !ObjectsTo(bytes, i, error)
  {
    hide ReadContact, Mtp1.Reserved, AllFinite, Identifiers, ReadContacts, ObjectsTo;
    if n > 0 {
      NoneBefore(bytes, n - 1, error);
      RecordError(bytes, n - 1, error);
    }
  }

  lemma {:induction false} RecordError(bytes: seq<Byte>, n: nat, error: ProtocolError)
    requires HEADER_SIZE + (n + 1) * CONTACT_SIZE <= |bytes|
    ensures Mtp1.ContactsError(bytes, n) == None ==>
      (Mtp1.ContactsError(bytes, n + 1) == Some(error) <==> ObjectsTo(bytes, n, error))
  {
    hide ReadContact, ReadContacts, Mtp1.Reserved, AllFinite, Identifiers;
    Mtp1.ReadNext(bytes, n);
    NamedBefore(bytes, n, ReadContact(bytes, HEADER_SIZE + n * CONTACT_SIZE).identifier);
  }

  lemma {:induction false} NamedBefore(bytes: seq<Byte>, n: nat, identifier: U32)
    requires HEADER_SIZE + n * CONTACT_SIZE <= |bytes|
    ensures identifier in Identifiers(ReadContacts(bytes, n)) <==>
      exists j :: 0 <= j < n && ReadContact(bytes, 36 + j * 44).identifier == identifier
  {
    hide ReadContact;
    var before := ReadContacts(bytes, n);
    assert forall j :: 0 <= j < n ==> before[j] == ReadContact(bytes, 36 + j * 44);
    if identifier in Identifiers(before) {
      var j :| 0 <= j < n && before[j].identifier == identifier;
      assert ReadContact(bytes, 36 + j * 44).identifier == identifier;
    }
    if exists j :: 0 <= j < n && ReadContact(bytes, 36 + j * 44).identifier == identifier {
      var j :| 0 <= j < n && ReadContact(bytes, 36 + j * 44).identifier == identifier;
      assert before[j].identifier == identifier;
    }
  }
}
