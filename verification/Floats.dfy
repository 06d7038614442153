/** The number a float's 32-bit pattern stands for (section 3.4 of IEEE 754-2019),
    and the order of patterns. */
module Floats {
  import opened Words
  import opened Wire

  function Pow2(n: nat): (p: real)
    ensures p >= 1.0
  {
    if n == 0 then 1.0 else 2.0 * Pow2(n - 1)
  }

  function Exponent(pattern: U32): nat { pattern / 0x80_0000 % 0x100 }

  function Significand(pattern: U32): nat {
    pattern % 0x80_0000 + if Exponent(pattern) == 0 then 0 else 0x80_0000
  }

  function Scale(pattern: U32): nat {
    if Exponent(pattern) == 0 then 1 else Exponent(pattern)
  }

  function Times(a: real, b: real): real { a * b }

  /** The size of a finite pattern, in units of 2^-150. */
  function Magnitude(pattern: U32): real {
    Times(Significand(pattern) as real, Pow2(Scale(pattern)))
  }

  /** The value of a finite pattern: (-1)^sign * significand * 2^(exponent - 150). */
  function FloatValue(pattern: U32): real {
    var magnitude := Magnitude(pattern) / Pow2(150);
    if pattern < 0x8000_0000 then magnitude else -magnitude
  }

  lemma {:induction false} Pow2Doubles(a: nat, b: nat)
    requires a < b
    ensures 2.0 * Pow2(a) <= Pow2(b)
    decreases b
  {
    if a + 1 < b {
      Pow2Doubles(a, b - 1);
    }
  }

  lemma {:induction false} TimesMonotone(a: real, b: real, c: real)
    requires a <= b && c >= 0.0
    ensures Times(a, c) <= Times(b, c)
  {
  }

  lemma {:induction false} QuotientMonotone(a: real, b: real, c: real)
    requires a <= b && c > 0.0
    ensures a / c <= b / c
  {
  }

  /** Twice the scale makes up for half the significand. */
  lemma {:induction false} TwiceTheScale(sa: real, sb: real, pa: real, pb: real)
    requires sa <= 16777216.0 && sb >= 8388608.0 && pa >= 0.0 && 2.0 * pa <= pb
    ensures Times(sa, pa) <= Times(sb, pb)
  {
    TimesMonotone(sa, 16777216.0, pa);
    TimesMonotone(8388608.0, sb, pb);
  }

  lemma {:induction false} ProductOrder(sa: nat, na: nat, sb: nat, nb: nat)
    requires na <= nb && sa <= 0x100_0000
    requires if na == nb then sa <= sb else sb >= 0x80_0000
    ensures Times(sa as real, Pow2(na)) <= Times(sb as real, Pow2(nb))
  {
    hide Pow2, Times;
    if na == nb {
      TimesMonotone(sa as real, sb as real, Pow2(na));
    } else {
      Pow2Doubles(na, nb);
      TwiceTheScale(sa as real, sb as real, Pow2(na), Pow2(nb));
    }
  }

  /** Without its sign a pattern is its exponent followed by its fraction. */
  lemma {:induction false} Fields(pattern: U32)
    ensures pattern % 0x8000_0000 == Exponent(pattern) * 0x80_0000 + pattern % 0x80_0000
  {
    var q := pattern / 0x80_0000;
    assert pattern == (q / 0x100 * 0x100 + q % 0x100) * 0x80_0000 + pattern % 0x80_0000;
    assert 0 <= q / 0x100 <= 1;
  }

  /** A larger pattern has a larger scale, or the same scale and at least as
      large a significand. */
  lemma {:induction false} FieldOrder(a: U32, b: U32)
    requires a % 0x8000_0000 <= b % 0x8000_0000
    ensures Significand(a) <= 0x100_0000
    ensures Scale(a) <= Scale(b)
    ensures Scale(a) == Scale(b) ==> Significand(a) <= Significand(b)
    ensures Scale(a) < Scale(b) ==> Significand(b) >= 0x80_0000
  {
    Fields(a);
    Fields(b);
    assert Exponent(a) <= Exponent(b) by { hide Exponent; }
    hide Exponent;
  }

  lemma {:induction false} Product(pattern: U32)
    ensures Magnitude(pattern) == Times(Significand(pattern) as real, Pow2(Scale(pattern))) >= 0.0
  {
    hide Significand, Scale, Pow2;
    TimesMonotone(0.0, Significand(pattern) as real, Pow2(Scale(pattern)));
  }

  /** Dropping the sign, a larger pattern is a larger number. */
  lemma {:induction false} MagnitudeOrder(a: U32, b: U32)
    requires a % 0x8000_0000 <= b % 0x8000_0000
    ensures 0.0 <= Magnitude(a) <= Magnitude(b)
  {
    hide Pow2, Magnitude, Significand, Scale, Times;
    FieldOrder(a, b);
    Product(a);
    Product(b);
    ProductOrder(Significand(a), Scale(a), Significand(b), Scale(b));
  }

  lemma {:induction false} RankOrder(a: U32, b: U32)
    requires Rank(a) <= Rank(b)
    ensures a < 0x8000_0000 && b < 0x8000_0000 ==> a % 0x8000_0000 <= b % 0x8000_0000
    ensures a >= 0x8000_0000 && b >= 0x8000_0000 ==> b % 0x8000_0000 <= a % 0x8000_0000
    ensures a < 0x8000_0000 && b >= 0x8000_0000 ==> a == 0 && b == 0x8000_0000
  {
  }

  lemma {:induction false} ZeroValue()
    ensures FloatValue(0) == FloatValue(0x8000_0000) == 0.0
  {
    hide Pow2;
    assert Significand(0) == 0 && Significand(0x8000_0000) == 0;
    Product(0);
    Product(0x8000_0000);
  }

  lemma {:induction false} Signed(a: U32, b: U32)
    requires 0.0 <= Magnitude(a) <= Magnitude(b)
    ensures a < 0x8000_0000 && b < 0x8000_0000 ==> 0.0 <= FloatValue(a) <= FloatValue(b)
    ensures a >= 0x8000_0000 && b >= 0x8000_0000 ==> FloatValue(b) <= FloatValue(a) <= 0.0
  {
    hide Magnitude, Pow2;
    QuotientMonotone(0.0, Magnitude(a), Pow2(150));
    QuotientMonotone(Magnitude(a), Magnitude(b), Pow2(150));
  }

  /** Patterns are ordered as the numbers they stand for. */
  lemma {:induction false} ValueOrder(a: U32, b: U32)
    requires Rank(a) <= Rank(b)
    ensures FloatValue(a) <= FloatValue(b)
  {
    hide FloatValue, Magnitude, Pow2;
    RankOrder(a, b);
    ZeroValue();
    MagnitudeOrder(a, a);
    MagnitudeOrder(b, b);
    if a < 0x8000_0000 && b < 0x8000_0000 {
      MagnitudeOrder(a, b);
      Signed(a, b);
    } else if a >= 0x8000_0000 && b >= 0x8000_0000 {
      MagnitudeOrder(b, a);
      Signed(b, a);
    } else {
      Signed(a, a);
      Signed(b, b);
    }
  }

  /** The pattern one binade up. */
  lemma {:induction false} NextExponent(pattern: U32)
    requires 1 <= Exponent(pattern) < 0xff
    ensures pattern + 0x80_0000 < 0x1_0000_0000
    ensures Exponent(pattern + 0x80_0000) == Exponent(pattern) + 1
    ensures Significand(pattern + 0x80_0000) == Significand(pattern)
    ensures pattern + 0x80_0000 < 0x8000_0000 <==> pattern < 0x8000_0000
  {
    var q, f := pattern / 0x80_0000, pattern % 0x80_0000;
    assert pattern == q * 0x80_0000 + f;
    assert pattern + 0x80_0000 == (q + 1) * 0x80_0000 + f;
    assert q == q / 0x100 * 0x100 + q % 0x100;
    assert (q + 1) / 0x100 == q / 0x100 && (q + 1) % 0x100 == q % 0x100 + 1;
    assert (pattern + 0x80_0000) / 0x80_0000 == q + 1 && (pattern + 0x80_0000) % 0x80_0000 == f;
  }

  lemma {:induction false} TimesDouble(a: real, b: real)
    ensures Times(a, 2.0 * b) == 2.0 * Times(a, b)
  {
  }

  lemma {:induction false} TimesScale(k: real, a: real, b: real)
    ensures Times(k * a, b) == k * Times(a, b)
  {
  }

  lemma {:induction false} QuotientScale(k: real, a: real, c: real)
    requires c > 0.0
    ensures k * a / c == k * (a / c)
  {
  }

  /** One binade up is twice the value. */
  lemma {:induction false} BinadeDoubles(pattern: U32)
    requires 1 <= Exponent(pattern) < 0xff
    ensures pattern + 0x80_0000 < 0x1_0000_0000
    ensures FloatValue(pattern + 0x80_0000) == 2.0 * FloatValue(pattern)
  {
    NextExponent(pattern);
    var up := pattern + 0x80_0000;
    Product(pattern);
    Product(up);
    assert Pow2(Scale(up)) == 2.0 * Pow2(Scale(pattern)) by { hide Exponent, Significand, Times, FloatValue; }
    hide Exponent, Significand, Scale, Magnitude, Times, Pow2;
    TimesDouble(Significand(pattern) as real, Pow2(Scale(pattern)));
    QuotientScale(2.0, Magnitude(pattern), Pow2(150));
  }

  lemma {:induction false} BinadeFields(base: U32, fraction: nat)
    requires base % 0x80_0000 == 0 && fraction < 0x80_0000
    ensures base + fraction < 0x1_0000_0000
    ensures Exponent(base + fraction) == Exponent(base) && (base + fraction) % 0x80_0000 == fraction
    ensures base + fraction < 0x8000_0000 <==> base < 0x8000_0000
  {
    var q := base / 0x80_0000;
    assert base == q * 0x80_0000;
    assert (base + fraction) / 0x80_0000 == q;
  }

  /** Within a binade the value grows with the fraction in equal steps, up to twice
      the value it starts from. */
  lemma {:induction false} BinadeAffine(base: U32, fraction: nat)
    requires base % 0x80_0000 == 0 && fraction < 0x80_0000 && 1 <= Exponent(base)
    ensures base + fraction < 0x1_0000_0000
    ensures FloatValue(base + fraction) == (1.0 + fraction as real / 8388608.0) * FloatValue(base)
  {
    hide Exponent, Significand, Scale, Magnitude, Times, Pow2, FloatValue;
    BinadeFields(base, fraction);
    BinadeSignificands(base, fraction);
    Product(base);
    Product(base + fraction);
    TimesFraction(fraction, Pow2(Scale(base)));
    ValueScale(base + fraction, base, 1.0 + fraction as real / 8388608.0);
  }

  lemma {:induction false} ValueScale(a: U32, b: U32, k: real)
    requires Magnitude(a) == k * Magnitude(b) && (a < 0x8000_0000 <==> b < 0x8000_0000)
    ensures FloatValue(a) == k * FloatValue(b)
  {
    hide Magnitude, Pow2;
    QuotientScale(k, Magnitude(b), Pow2(150));
  }

  lemma {:induction false} BinadeSignificands(base: U32, fraction: nat)
    requires base % 0x80_0000 == 0 && fraction < 0x80_0000 && 1 <= Exponent(base)
    ensures base + fraction < 0x1_0000_0000
    ensures Significand(base) == 0x80_0000 && Significand(base + fraction) == 0x80_0000 + fraction
    ensures Scale(base + fraction) == Scale(base)
  {
    BinadeFields(base, fraction);
    hide Exponent;
  }

  lemma {:induction false} TimesFraction(fraction: nat, p: real)
    ensures Times((0x80_0000 + fraction) as real, p)
      == (1.0 + fraction as real / 8388608.0) * Times(8388608.0, p)
  {
    hide Times;
    var k := 1.0 + fraction as real / 8388608.0;
    assert (0x80_0000 + fraction) as real == k * 8388608.0;
    TimesScale(k, 8388608.0, p);
  }

  /** Below the first binade, patterns count multiples of the least positive value. */
  lemma {:induction false} SubnormalMultiple(pattern: U32)
    requires pattern <= 0x80_0000
    ensures FloatValue(pattern) == pattern as real * FloatValue(1)
  {
    assert Significand(pattern) == pattern && Scale(pattern) == 1;
    assert Significand(1) == 1 && Scale(1) == 1;
    Product(pattern);
    Product(1);
    hide Exponent, Significand, Scale, Magnitude, Times, Pow2;
    TimesScale(pattern as real, 1.0, Pow2(1));
    QuotientScale(pattern as real, Magnitude(1), Pow2(150));
  }

  /** Setting the sign bit negates. */
  lemma {:induction false} SignNegates(pattern: U32)
    requires pattern < 0x8000_0000
    ensures FloatValue(pattern + 0x8000_0000) == -FloatValue(pattern)
  {
    SignFields(pattern);
    hide Exponent, Pow2, Times;
  }

  lemma {:induction false} SignFields(pattern: U32)
    requires pattern < 0x8000_0000
    ensures Exponent(pattern + 0x8000_0000) == Exponent(pattern)
    ensures (pattern + 0x8000_0000) % 0x80_0000 == pattern % 0x80_0000
  {
    var q, f := pattern / 0x80_0000, pattern % 0x80_0000;
    assert pattern + 0x8000_0000 == (q + 0x100) * 0x80_0000 + f;
    assert (pattern + 0x8000_0000) / 0x80_0000 == q + 0x100;
  }

  lemma {:induction false} Pow2Product(m: nat, n: nat)
    ensures Pow2(m + n) == Times(Pow2(m), Pow2(n))
  {
    if n > 0 {
      Pow2Product(m, n - 1);
      assert Pow2(m + n) == 2.0 * Pow2(m + n - 1) && Pow2(n) == 2.0 * Pow2(n - 1);
      hide Pow2;
      TimesDouble(Pow2(m), Pow2(n - 1));
    }
  }

  lemma {:induction false} Pow2Of23()
    ensures Pow2(23) == 8388608.0
  {
    assert Pow2(6) == 64.0;
    assert Pow2(12) == 4096.0;
    assert Pow2(18) == 262144.0;
  }

  lemma {:induction false} OneFields()
    ensures Significand(0x3f80_0000) == 0x80_0000 && Scale(0x3f80_0000) == 127
    ensures 1 <= Exponent(0x3f00_0000) < 0xff
  {
  }

  /** One half and one. */
  lemma {:induction false} UnitValues()
    ensures FloatValue(0x3f80_0000) == 1.0 && FloatValue(0x3f00_0000) == 0.5
  {
    hide Exponent, Significand, Scale, Pow2, Magnitude, Times;
    OneFields();
    Pow2Of23();
    Pow2Product(23, 127);
    Product(0x3f80_0000);
    BinadeDoubles(0x3f00_0000);
  }

  lemma {:induction false} FieldStrict(a: U32, b: U32)
    requires a % 0x8000_0000 < b % 0x8000_0000
    ensures Significand(a) < 0x100_0000 && Scale(a) <= Scale(b)
    ensures if Scale(a) == Scale(b) then Significand(a) < Significand(b) else Significand(b) >= 0x80_0000
  {
    Fields(a);
    Fields(b);
    assert Exponent(a) <= Exponent(b) by { hide Exponent; }
    hide Exponent;
  }

  lemma {:induction false} TimesStrict(a: real, b: real, c: real)
    requires a < b && c > 0.0
    ensures Times(a, c) < Times(b, c)
  {
  }

  lemma {:induction false} ProductStrict(sa: nat, na: nat, sb: nat, nb: nat)
    requires na <= nb && sa < 0x100_0000
    requires if na == nb then sa < sb else sb >= 0x80_0000
    ensures Times(sa as real, Pow2(na)) < Times(sb as real, Pow2(nb))
  {
    hide Pow2, Times;
    if na == nb {
      TimesStrict(sa as real, sb as real, Pow2(na));
    } else {
      TimesStrict(sa as real, 16777216.0, Pow2(na));
      ProductOrder(0x100_0000, na, sb, nb);
    }
  }

  lemma {:induction false} MagnitudeStrict(a: U32, b: U32)
    requires a % 0x8000_0000 < b % 0x8000_0000
    ensures 0.0 <= Magnitude(a) < Magnitude(b)
  {
    hide Pow2, Magnitude, Significand, Scale, Times;
    FieldStrict(a, b);
    Product(a);
    Product(b);
    ProductStrict(Significand(a), Scale(a), Significand(b), Scale(b));
  }

  lemma {:induction false} RankStrict(a: U32, b: U32)
    requires Rank(a) < Rank(b)
    ensures a < 0x8000_0000 ==> b < 0x8000_0000 && a % 0x8000_0000 < b % 0x8000_0000
    ensures b >= 0x8000_0000 ==> a >= 0x8000_0000 && b % 0x8000_0000 < a % 0x8000_0000
    ensures a >= 0x8000_0000 && b < 0x8000_0000 ==> a % 0x8000_0000 > 0 || b % 0x8000_0000 > 0
  {
  }

  lemma {:induction false} SignedStrict(a: U32, b: U32)
    requires Magnitude(a) < Magnitude(b)
    ensures a < 0x8000_0000 && b < 0x8000_0000 ==> FloatValue(a) < FloatValue(b)
    ensures a >= 0x8000_0000 && b >= 0x8000_0000 ==> FloatValue(b) < FloatValue(a)
  {
    hide Magnitude, Pow2;
    QuotientStrict(Magnitude(a), Magnitude(b), Pow2(150));
  }

  lemma {:induction false} QuotientStrict(a: real, b: real, c: real)
    requires a < b && c > 0.0
    ensures a / c < b / c
  {
  }

  lemma {:induction false} ValueStrict(a: U32, b: U32)
    requires Rank(a) < Rank(b)
    ensures FloatValue(a) < FloatValue(b)
  {
    hide FloatValue, Magnitude, Pow2, Rank;
    RankStrict(a, b);
    if a < 0x8000_0000 {
      MagnitudeStrict(a, b);
      SignedStrict(a, b);
    } else if b >= 0x8000_0000 {
      MagnitudeStrict(b, a);
      SignedStrict(b, a);
    } else {
      Opposite(a, b);
    }
  }

  lemma {:induction false} Opposite(a: U32, b: U32)
    requires a >= 0x8000_0000 && b < 0x8000_0000 && (a % 0x8000_0000 > 0 || b % 0x8000_0000 > 0)
    ensures FloatValue(a) < FloatValue(b)
  {
    hide FloatValue, Magnitude, Pow2;
    ZeroValue();
    MagnitudeOrder(a, a);
    MagnitudeOrder(b, b);
    Signed(a, a);
    Signed(b, b);
    if b % 0x8000_0000 > 0 {
      MagnitudeStrict(0, b);
      SignedStrict(0, b);
    } else {
      MagnitudeStrict(0x8000_0000, a);
      SignedStrict(0x8000_0000, a);
    }
  }

  /** The comparisons of the pressure latch, on patterns, compare the numbers. */
  lemma {:induction false} ComparesValues(a: U32, b: U32)
    requires !IsNaN(a) && !IsNaN(b)
    ensures FloatGreater(a, b) <==> FloatValue(a) > FloatValue(b)
    ensures FloatAtLeast(a, b) <==> FloatValue(a) >= FloatValue(b)
  {
    hide FloatValue, Rank, IsNaN;
    if Rank(a) <= Rank(b) {
      ValueOrder(a, b);
    } else {
      ValueStrict(b, a);
    }
    if Rank(b) <= Rank(a) {
      ValueOrder(b, a);
    } else {
      ValueStrict(a, b);
    }
  }

  /** Finite patterns lie below the infinities, the others that are not infinities are
      not numbers. */
  lemma {:induction false} Classes(pattern: U32)
    ensures Finite(pattern) <==> pattern % 0x8000_0000 < 0x7f80_0000
    ensures IsNaN(pattern) <==> pattern % 0x8000_0000 > 0x7f80_0000
  {
    Fields(pattern);
  }
}
