/** Fixed-width unsigned words, their big-endian byte strings, and bit tests on
    them. A word is an integer with an explicit range; every wrap-around is
    written out. */
module Words {
  type Byte = n: int | 0 <= n < 0x100
  type U16 = n: int | 0 <= n < 0x1_0000
  type U32 = n: int | 0 <= n < 0x1_0000_0000
  type U64 = n: int | 0 <= n < 0x1_0000_0000_0000_0000

  function Wrap8(n: int): Byte { n % 0x100 }
  function Wrap16(n: int): U16 { n % 0x1_0000 }
  function Wrap32(n: int): U32 { n % 0x1_0000_0000 }

  /** `value & weight`, for a weight that is a power of two. */
  predicate HasBit(value: nat, weight: nat)
    requires weight > 0
  {
    value / weight % 2 == 1
  }

  /** `value & ~weight`, for a weight that is a power of two. */
  function ClearBit(value: nat, weight: nat): nat
    requires weight > 0
  {
    if HasBit(value, weight) then value - weight else value
  }

  function U16Bytes(value: U16): (bytes: seq<Byte>)
    ensures |bytes| == 2
  {
    [value / 0x100, value % 0x100]
  }

  function U32Bytes(value: U32): (bytes: seq<Byte>)
    ensures |bytes| == 4
  {
    U16Bytes(value / 0x1_0000) + U16Bytes(value % 0x1_0000)
  }

  lemma {:induction false} U32Digits(value: U32)
    ensures U32Bytes(value)
         == [value / 0x100_0000, value / 0x1_0000 % 0x100, value / 0x100 % 0x100, value % 0x100]
  {
    var high, low := value / 0x1_0000, value % 0x1_0000;
    var b0, b1, b2, b3 := high / 0x100, high % 0x100, low / 0x100, low % 0x100;
    assert value == (b0 * 0x100 + b1) * 0x1_0000 + b2 * 0x100 + b3;
    assert value / 0x100_0000 == b0;
    assert value / 0x100 == (b0 * 0x100 + b1) * 0x100 + b2;
  }

  function U64Bytes(value: U64): (bytes: seq<Byte>)
    ensures |bytes| == 8
  {
    U32Bytes(value / 0x1_0000_0000) + U32Bytes(value % 0x1_0000_0000)
  }

  function GetU16(bytes: seq<Byte>, at: nat): U16
    requires at + 2 <= |bytes|
  {
    var high: int, low: int := bytes[at], bytes[at + 1];
    high * 0x100 + low
  }

  function GetU32(bytes: seq<Byte>, at: nat): U32
    requires at + 4 <= |bytes|
  {
    GetU16(bytes, at) as int * 0x1_0000 + GetU16(bytes, at + 2)
  }

  function GetU64(bytes: seq<Byte>, at: nat): U64
    requires at + 8 <= |bytes|
  {
    GetU32(bytes, at) as int * 0x1_0000_0000 + GetU32(bytes, at + 4)
  }

  /** A field reads as `value` exactly where the bytes of `value` stand. */
  lemma {:induction false} ReadU16(bytes: seq<Byte>, at: nat, value: U16)
    requires at + 2 <= |bytes|
    ensures GetU16(bytes, at) == value <==> bytes[at..at + 2] == U16Bytes(value)
  {
    var field := bytes[at..at + 2];
    assert field == [bytes[at], bytes[at + 1]];
    if field == U16Bytes(value) {
      assert field[0] == value / 0x100 && field[1] == value % 0x100;
    }
  }

  lemma {:induction false} ReadU32(bytes: seq<Byte>, at: nat, value: U32)
    requires at + 4 <= |bytes|
    ensures GetU32(bytes, at) == value <==> bytes[at..at + 4] == U32Bytes(value)
  {
    var high, low: U16 := value / 0x1_0000, value % 0x1_0000;
    ReadU16(bytes, at, high);
    ReadU16(bytes, at + 2, low);
    assert bytes[at..at + 4] == bytes[at..at + 2] + bytes[at + 2..at + 4];
    if bytes[at..at + 4] == U32Bytes(value) {
      assert bytes[at..at + 2] == bytes[at..at + 4][..2] == U16Bytes(high);
      assert bytes[at + 2..at + 4] == bytes[at..at + 4][2..] == U16Bytes(low);
    }
  }

  lemma {:induction false} ReadU64(bytes: seq<Byte>, at: nat, value: U64)
    requires at + 8 <= |bytes|
    ensures GetU64(bytes, at) == value <==> bytes[at..at + 8] == U64Bytes(value)
  {
    var high, low: U32 := value / 0x1_0000_0000, value % 0x1_0000_0000;
    ReadU32(bytes, at, high);
    ReadU32(bytes, at + 4, low);
    assert bytes[at..at + 8] == bytes[at..at + 4] + bytes[at + 4..at + 8];
    if bytes[at..at + 8] == U64Bytes(value) {
      assert bytes[at..at + 4] == bytes[at..at + 8][..4] == U32Bytes(high);
      assert bytes[at + 4..at + 8] == bytes[at..at + 8][4..] == U32Bytes(low);
    }
  }

  /** The three bits of a contact's flags, tested one by one. */
  lemma {:induction false} ThreeBits(four: nat, two: nat, one: nat)
    requires four <= 1 && two <= 1 && one <= 1
    ensures var value := 4 * four + 2 * two + one;
      (HasBit(value, 4) <==> four == 1) && (HasBit(value, 2) <==> two == 1) && (HasBit(value, 1) <==> one == 1)
  {
    SmallBits();
  }

  lemma {:induction false} SmallBits()
    ensures !HasBit(0, 1) && HasBit(1, 1) && !HasBit(2, 1) && HasBit(3, 1)
    ensures !HasBit(4, 1) && HasBit(5, 1) && !HasBit(6, 1) && HasBit(7, 1)
    ensures !HasBit(0, 2) && !HasBit(1, 2) && HasBit(2, 2) && HasBit(3, 2)
    ensures !HasBit(4, 2) && !HasBit(5, 2) && HasBit(6, 2) && HasBit(7, 2)
    ensures !HasBit(0, 4) && !HasBit(1, 4) && !HasBit(2, 4) && !HasBit(3, 4)
    ensures HasBit(4, 4) && HasBit(5, 4) && HasBit(6, 4) && HasBit(7, 4)
  {
  }

  /** Clearing the second bit of a contact's flags touches no other. */
  lemma {:induction false} ClearSecond(value: nat)
    requires value <= 7
    ensures ClearBit(value, 2) <= 7 && !HasBit(ClearBit(value, 2), 2)
    ensures HasBit(ClearBit(value, 2), 1) == HasBit(value, 1)
    ensures HasBit(ClearBit(value, 2), 4) == HasBit(value, 4)
  {
    hide HasBit;
    SmallBits();
    assert value == 0 || value == 1 || value == 2 || value == 3 || value == 4 || value == 5 || value == 6 || value == 7;
  }

  /** The wraps are reductions modulo 2^8, 2^16 and 2^32. */
  lemma {:induction false} WrapsMean(n: int)
    ensures exists k: int :: n == Wrap8(n) + 256 * k
    ensures exists k: int :: n == Wrap16(n) + 65536 * k
    ensures exists k: int :: n == Wrap32(n) + 4294967296 * k
  {
    assert n == Wrap8(n) + 256 * (n / 0x100);
    assert n == Wrap16(n) + 65536 * (n / 0x1_0000);
    assert n == Wrap32(n) + 4294967296 * (n / 0x1_0000_0000);
  }
}
