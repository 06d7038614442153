/** From a normalised float coordinate to the HID logical range. Floats are
    taken at their exact value; the rounding of a float operation is any
    monotone function that leaves 0, 1 and the logical maximum alone. */
module Coordinates {
  import opened Words
  import opened Wire
  import opened Floats

  const LOGICAL_MAX := 32767

  ghost predicate IsRounding(round: real -> real) {
    && (forall a: real, b: real :: a <= b ==> round(a) <= round(b))
    && round(0.0) == 0.0 && round(1.0) == 1.0 && round(32767.0) == 32767.0
  }

  /** Rounding to nearest is an instance; so is exact arithmetic. */
  type Rounding = round: real -> real | IsRounding(round) witness EXACT

  const EXACT := (x: real) => x

  function Clamp(x: real): real {
    if x < 0.0 then 0.0 else if x > 1.0 then 1.0 else x
  }

  /** Nearest integer, halves away from zero. */
  function LRound(x: real): int {
    if x >= 0.0 then (x + 0.5).Floor else -(0.5 - x).Floor
  }

  function Logical(round: Rounding, x: real): (n: int)
    ensures 0 <= n <= LOGICAL_MAX
  {
    ClampedInRange(round, Clamp(x));
    LRound(round(Clamp(x) * 32767.0))
  }

  function LogicalY(round: Rounding, y: real): (n: int)
    ensures 0 <= n <= LOGICAL_MAX
  {
    Logical(round, round(1.0 - y))
  }

  function ToLogical(round: Rounding, pattern: U32): (n: U16)
    ensures n <= LOGICAL_MAX
  {
    Logical(round, FloatValue(pattern))
  }

  function ToLogicalY(round: Rounding, pattern: U32): (n: U16)
    ensures n <= LOGICAL_MAX
  {
    LogicalY(round, FloatValue(pattern))
  }

  lemma {:induction false} ClampedInRange(round: Rounding, c: real)
    requires 0.0 <= c <= 1.0
    ensures 0.0 <= round(c * 32767.0) <= 32767.0
  {
    assert 0.0 <= c * 32767.0 <= 32767.0;
    assert round(0.0) <= round(c * 32767.0) <= round(32767.0);
  }

  /** X grows and Y shrinks with the float, and both saturate outside [0, 1]. */
  lemma {:induction false} LogicalOrder(round: Rounding, a: real, b: real)
    requires a <= b
    ensures Logical(round, a) <= Logical(round, b)
    ensures LogicalY(round, a) >= LogicalY(round, b)
    ensures a <= 0.0 ==> Logical(round, a) == 0 && LogicalY(round, a) == LOGICAL_MAX
    ensures b >= 1.0 ==> Logical(round, b) == LOGICAL_MAX && LogicalY(round, b) == 0
  {
    LogicalMonotone(round, a, b);
    assert round(1.0 - b) <= round(1.0 - a);
    LogicalMonotone(round, round(1.0 - b), round(1.0 - a));
    if a <= 0.0 {
      assert round(1.0) <= round(1.0 - a);
      assert Clamp(a) * 32767.0 == 0.0 && Clamp(round(1.0 - a)) * 32767.0 == 32767.0;
    }
    if b >= 1.0 {
      assert round(1.0 - b) <= round(0.0);
      assert Clamp(b) * 32767.0 == 32767.0 && Clamp(round(1.0 - b)) * 32767.0 == 0.0;
    }
  }

  lemma {:induction false} LogicalMonotone(round: Rounding, a: real, b: real)
    requires a <= b
    ensures Logical(round, a) <= Logical(round, b)
  {
    ClampedInRange(round, Clamp(a));
    ClampedInRange(round, Clamp(b));
    assert Clamp(a) * 32767.0 <= Clamp(b) * 32767.0;
    assert round(Clamp(a) * 32767.0) <= round(Clamp(b) * 32767.0);
  }

  /** In exact arithmetic the two axes mirror each other: inside [0, 1] they
      sum to the maximum, or to one more exactly at a rounding tie. */
  lemma {:induction false} ExactMirror(x: real)
    requires 0.0 <= x <= 1.0
    ensures var sum := Logical(EXACT, x) + LogicalY(EXACT, x);
      var t := x * 32767.0 + 0.5;
      sum == (if t.Floor as real == t then LOGICAL_MAX + 1 else LOGICAL_MAX)
  {
    var t := x * 32767.0 + 0.5;
    assert Clamp(1.0 - x) * 32767.0 + 0.5 == 32768.0 - t;
  }

  /** What the report shows follows the order of the floats themselves: a larger
      x is never shown further left, a larger y never further down. */
  lemma {:induction false} PatternOrder(round: Rounding, a: U32, b: U32)
    requires FloatAtLeast(b, a)
    ensures ToLogical(round, a) <= ToLogical(round, b)
    ensures ToLogicalY(round, a) >= ToLogicalY(round, b)
  {
    hide FloatValue, Logical, LogicalY;
    ValueOrder(a, b);
    LogicalOrder(round, FloatValue(a), FloatValue(b));
  }

  /** In exact arithmetic the result is the nearest integer to 32767 times the
      coordinate, the larger one at a tie. */
  lemma {:induction false} ExactNearest(x: real)
    requires 0.0 <= x <= 1.0
    ensures var n := Logical(EXACT, x) as real;
      n - 0.5 <= x * 32767.0 < n + 0.5
  {
  }

  /** Every number from one up is shown at the right edge and the top, every number
      from zero down at the left edge and the bottom, both zeros included. */
  lemma {:induction false} Edges(round: Rounding, pattern: U32)
    requires !IsNaN(pattern)
    ensures 0x3f80_0000 <= pattern < 0x8000_0000 ==>
      ToLogical(round, pattern) == 32767 && ToLogicalY(round, pattern) == 0
    ensures pattern >= 0x8000_0000 || pattern == 0 ==>
      ToLogical(round, pattern) == 0 && ToLogicalY(round, pattern) == 32767
  {
    hide FloatValue, Logical, LogicalY;
    UnitValues();
    ZeroValue();
    if 0x3f80_0000 <= pattern < 0x8000_0000 {
      ValueOrder(0x3f80_0000, pattern);
    }
    if pattern >= 0x8000_0000 || pattern == 0 {
      ValueOrder(pattern, 0);
    }
    LogicalOrder(round, FloatValue(pattern), FloatValue(pattern));
  }

  /** One half is the middle. */
  lemma {:induction false} Middle()
    ensures ToLogical(EXACT, 0x3f00_0000) == 16384 && ToLogicalY(EXACT, 0x3f00_0000) == 16384
  {
    hide FloatValue;
    UnitValues();
  }
}
