/** Small facts about multiplication and division used by the frame and spectrum arithmetic. */
module Arith {

  /** Swift's `min(x, y)` on doubles (no NaN here): `y < x ? y : x`. */
  function Min(x: real, y: real): real { if y < x then y else x }
  /** Swift's `max(x, y)` on doubles: `y >= x ? y : x`. */
  function Max(x: real, y: real): real { if y >= x then y else x }

  /** Swift's `Int(x)` (and `Int64(x)`) on a double: truncation toward zero. */
  function Truncate(x: real): int {
    if x >= 0.0 then x.Floor else -((-x).Floor)
  }

  /** Truncation never moves a value away from zero, and is monotone. */
  lemma TruncateBounds(x: real, y: real)
    ensures x >= 0.0 ==> 0 <= Truncate(x) && Truncate(x) as real <= x < Truncate(x) as real + 1.0
    ensures x <= 0.0 ==> Truncate(x) <= 0 && x <= Truncate(x) as real
    ensures x <= y ==> Truncate(x) <= Truncate(y)
  {
  }

  lemma MulLe(a: int, b: int, d: int)
    requires d >= 0 && a <= b
    ensures a * d <= b * d
  {
    assert b * d - a * d == (b - a) * d;
  }

  /** Division is determined by any quotient/remainder pair with the remainder in range. */
  lemma DivUnique(a: int, d: int, q: int, r: int)
    requires d > 0 && 0 <= r < d && a == q * d + r
    ensures a / d == q && a % d == r
  {
    var q', r' := a / d, a % d;
    assert a == q' * d + r';
    if q' < q { MulLe(q' + 1, q, d); }
    if q < q' { MulLe(q + 1, q', d); }
  }

  lemma MulNonNegative(a: real, b: real)
    requires a >= 0.0 && b >= 0.0
    ensures a * b >= 0.0
  {
  }

  lemma MulMonotone(a: real, b: real, c: real)
    requires a <= b && c >= 0.0
    ensures a * c <= b * c
  {
    assert b * c - a * c == (b - a) * c;
    MulNonNegative(b - a, c);
  }

  lemma DivAtMost(a: real, x: real, d: real)
    requires d > 0.0 && 0.0 <= a <= x * d
    ensures 0.0 <= a / d <= x
  {
    assert a / d * d == a;
    if a / d > x {
      MulMonotone(x, a / d, d);
    }
  }

  lemma DivMonotone(a: real, b: real, d: real)
    requires d > 0.0 && a <= b
    ensures a / d <= b / d
  {
    assert a / d * d == a;
    assert b / d * d == b;
  }
}
