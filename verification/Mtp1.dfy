/** The strict decoder of the receiver: header validation and the decoding of one
    message. */
module Mtp1 {
  import opened Words
  import opened Wire

  /** The length the header announces, or the first objection to it. */
  function ValidateHeader(bytes: seq<Byte>): (r: Result<nat, ProtocolError>)
    requires |bytes| >= HEADER_SIZE
    ensures r.Success? ==> HEADER_SIZE <= r.value <= MAX_MESSAGE_SIZE
    ensures r.Success? ==> r.value == HEADER_SIZE + GetU16(bytes, 16) * CONTACT_SIZE
  {
    if GetU32(bytes, 0) != WIRE_MAGIC then Failure(InvalidMagic)
    else if GetU16(bytes, 4) != WIRE_VERSION then Failure(UnsupportedVersion)
    else if KindOfCode(GetU16(bytes, 6)).None? then Failure(UnknownMessageType)
    else
      var kind := KindOfCode(GetU16(bytes, 6)).value;
      var payload, count, flags := GetU32(bytes, 8), GetU16(bytes, 16), GetU16(bytes, 18);
      if flags > FRAME_BUTTON || (kind != Frame && flags != 0) then Failure(InvalidHeaderFlags)
      else if count > MAX_CONTACTS || payload != count * CONTACT_SIZE then Failure(InvalidPayload)
      else if kind != Frame && count != 0 then Failure(ControlWithContacts)
      else Success(HEADER_SIZE + payload)
  }

  /** The first objection to a contact record, given the contacts before it. */
  function ContactError(c: Contact, reserved: U16, before: seq<Contact>): Option<ProtocolError> {
    if reserved != 0 then Some(ReservedNonzero)
    else if c.flags > CONTACT_FLAGS then Some(UnknownContactFlags)
    else if !AllFinite(c) then Some(NotFinite)
    else if c.identifier in Identifiers(before) then Some(DuplicateIdentifier)
    else None
  }

  function Reserved(bytes: seq<Byte>, index: nat): U16
    requires HEADER_SIZE + (index + 1) * CONTACT_SIZE <= |bytes|
  {
    GetU16(bytes, HEADER_SIZE + index * CONTACT_SIZE + 6)
  }

  /** The first objection among the first `n` contact records. */
  function ContactsError(bytes: seq<Byte>, n: nat): Option<ProtocolError>
    requires HEADER_SIZE + n * CONTACT_SIZE <= |bytes|
  {
    if n == 0 then None
    else if ContactsError(bytes, n - 1).Some? then ContactsError(bytes, n - 1)
    else
      var contacts := ReadContacts(bytes, n);
      ContactError(contacts[n - 1], Reserved(bytes, n - 1), contacts[..n - 1])
  }

  function HeaderMessage(bytes: seq<Byte>, contacts: seq<Contact>): Message
    requires |bytes| >= HEADER_SIZE && KindOfCode(GetU16(bytes, 6)).Some?
  {
    Message(KindOfCode(GetU16(bytes, 6)).value, GetU32(bytes, 12),
            GetU64(bytes, 20), GetU64(bytes, 28), GetU16(bytes, 18), contacts)
  }

  /** The one message `bytes` spells, or what the receiver throws instead. */
  function Decode(bytes: seq<Byte>): Result<Message, ProtocolError> {
    if |bytes| < HEADER_SIZE then Failure(TruncatedHeader)
    else match ValidateHeader(bytes)
      case Failure(error) => Failure(error)
      case Success(expected) =>
        if |bytes| != expected then Failure(LengthMismatch)
        else
          var count := GetU16(bytes, 16);
          match ContactsError(bytes, count)
          case Some(error) => Failure(error)
          case None => Success(HeaderMessage(bytes, ReadContacts(bytes, count)))
  }

  lemma {:induction false} ReadNext(bytes: seq<Byte>, n: nat)
    requires HEADER_SIZE + (n + 1) * CONTACT_SIZE <= |bytes|
    ensures var all := ReadContacts(bytes, n + 1);
      && all[..n] == ReadContacts(bytes, n)
      && all == ReadContacts(bytes, n) + [ReadContact(bytes, HEADER_SIZE + n * CONTACT_SIZE)]
  {
  }

  method DecodeContacts(bytes: seq<Byte>, count: nat)
    returns (decoded: Result<seq<Contact>, ProtocolError>)
    requires HEADER_SIZE + count * CONTACT_SIZE <= |bytes|
    ensures match ContactsError(bytes, count)
      case Some(error) => decoded == Failure(error)
      case None => decoded == Success(ReadContacts(bytes, count))
  {
    hide GetU16, ReadContact, ReadContacts, AllFinite;
    var contacts: seq<Contact> := [];
    var identifiers: set<U32> := {};
    for index := 0 to count
      invariant ContactsError(bytes, index) == None
      invariant contacts == ReadContacts(bytes, index)
      invariant identifiers == Identifiers(contacts)
    {
      var at := HEADER_SIZE + index * CONTACT_SIZE;
      var contact := ReadContact(bytes, at);
      ReadNext(bytes, index);
      var error := None;
      if GetU16(bytes, at + 6) != 0 {
        error := Some(ReservedNonzero);
      } else if contact.flags > CONTACT_FLAGS {
        error := Some(UnknownContactFlags);
      } else if !AllFinite(contact) {
        error := Some(NotFinite);
      } else if contact.identifier in identifiers {
        error := Some(DuplicateIdentifier);
      }
      if error.Some? {
        PrefixError(bytes, index + 1, count);
        return Failure(error.value);
      }
      identifiers := identifiers + {contact.identifier};
      contacts := contacts + [contact];
    }
    decoded := Success(contacts);
  }

  method DecodeMessage(bytes: seq<Byte>) returns (decoded: Result<Message, ProtocolError>)
    ensures decoded == Decode(bytes)
  {
    hide GetU16, GetU32, GetU64, ContactsError;
    if |bytes| < HEADER_SIZE {
      return Failure(TruncatedHeader);
    }
    var header := bytes[..HEADER_SIZE];
    HeaderFields(bytes);
    var expected := ValidateHeader(header);
    if expected.Failure? {
      return Failure(expected.error);
    }
    if |bytes| != expected.value {
      return Failure(LengthMismatch);
    }
    var contacts := DecodeContacts(bytes, GetU16(bytes, 16));
    decoded := match contacts
      case Failure(error) => Failure(error)
      case Success(list) => Success(HeaderMessage(bytes, list));
  }

  /** The header is all that validation reads. */
  lemma {:induction false} HeaderFields(bytes: seq<Byte>)
    requires |bytes| >= HEADER_SIZE
    ensures ValidateHeader(bytes[..HEADER_SIZE]) == ValidateHeader(bytes)
    ensures GetU16(bytes[..HEADER_SIZE], 16) == GetU16(bytes, 16)
    ensures GetU16(bytes[..HEADER_SIZE], 6) == GetU16(bytes, 6)
  {
  }

  /** An objection to a prefix of the records is the objection to all of them. */
  lemma {:induction false} PrefixError(bytes: seq<Byte>, n: nat, all: nat)
    requires n <= all && HEADER_SIZE + all * CONTACT_SIZE <= |bytes|
    requires ContactsError(bytes, n).Some?
    ensures ContactsError(bytes, all) == ContactsError(bytes, n)
  {
    hide ContactError, ReadContacts, Reserved;
    if n < all {
      PrefixError(bytes, n, all - 1);
    }
  }

  lemma {:induction false} ContactsErrorKinds(bytes: seq<Byte>, n: nat)
    requires HEADER_SIZE + n * CONTACT_SIZE <= |bytes|
    ensures ContactsError(bytes, n).Some? ==>
      ContactsError(bytes, n).value in {ReservedNonzero, UnknownContactFlags, NotFinite, DuplicateIdentifier}
  {
    hide ReadContacts, Reserved, AllFinite, Identifiers;
    if n > 0 {
      ContactsErrorKinds(bytes, n - 1);
    }
  }
}
