/**
 * Go's conversion of a float64 to int truncates toward zero; Dafny's `/`
 * and `Floor` round toward negative infinity. This module states the Go
 * behaviour explicitly, once, for the rest of the model.
 */
module Numeric {

  /** Go's `int(x)`: the integer part of x, dropping the fraction toward zero. */
  function Trunc(x: real): (r: int)
    ensures 0.0 <= x ==> 0 <= r && r as real <= x < r as real + 1.0
    ensures x < 0.0 ==> r <= 0 && r as real - 1.0 < x <= r as real
  {
    if x >= 0.0 then x.Floor else -((-x).Floor)
  }

  /** `r` is the integer part of `x`: `x` rounded toward zero. */
  predicate IsIntegerPart(r: int, x: real) {
    (0.0 <= x ==> r as real <= x < r as real + 1.0) && (x < 0.0 ==> r as real - 1.0 < x <= r as real)
  }

  lemma {:induction false} IntegerPartOfEqual(r: int, x: real, y: real)
    requires IsIntegerPart(r, x) && x == y
    ensures IsIntegerPart(r, y)
  {
  }

  /** Go's integer division `a / b` for a positive divisor: the quotient truncated toward zero. */
  function TruncDiv(a: int, b: int): (q: int)
    requires b > 0
    ensures 0 <= a ==> 0 <= q && q * b <= a < q * b + b
    ensures a < 0 ==> q <= 0 && q * b - b < a <= q * b
  {
    if a >= 0 then DivBounds(a, b); a / b
    else DivBounds(-a, b); -((-a) / b)
  }

  /** Euclidean division of a non-negative number, as bounds on the quotient. */
  lemma {:induction false} DivBounds(a: int, b: int)
    requires a >= 0 && b > 0
    ensures 0 <= a / b && a / b * b <= a < a / b * b + b
  {
    var q, r := a / b, a % b;
    assert a == q * b + r && 0 <= r < b;
  }

  /** Truncation never moves a value away from zero, and it preserves order. */
  lemma {:induction false} TruncMonotone(x: real, y: real)
    requires x <= y
    ensures Trunc(x) <= Trunc(y)
  {
  }

  /** An exact integer survives the conversion unchanged. */
  lemma {:induction false} TruncOfInt(n: int)
    ensures Trunc(n as real) == n
  {
  }

  /**
   * Truncating the real quotient n / d is the same as Go's integer division:
   * this is why the code's float64 macro formulas are exact integer quotients.
   */
  lemma {:induction false} TruncOfQuotient(n: int, d: int)
    requires d > 0
    ensures Trunc(n as real / d as real) == TruncDiv(n, d)
  {
    if n >= 0 {
      FloorOfQuotient(n, d);
    } else {
      FloorOfQuotient(-n, d);
      assert -(n as real / d as real) == (-n) as real / d as real;
    }
  }

  /** For a non-negative numerator, the floor of the real quotient is Euclidean division. */
  lemma {:induction false} FloorOfQuotient(n: int, d: int)
    requires n >= 0 && d > 0
    ensures (n as real / d as real).Floor == n / d
  {
    DivBounds(n, d);
    QuotientBetween(n / d, n, d);
    FloorUnique(n as real / d as real, n / d);
  }

  /** Integer bounds q*d <= n < q*d + d carry over to the real quotient n / d. */
  lemma {:induction false} QuotientBetween(q: int, n: int, d: int)
    requires d > 0 && q * d <= n < q * d + d
    ensures q as real <= n as real / d as real < q as real + 1.0
  {
    var dr, t := d as real, n as real / d as real;
    assert t * dr == n as real;
    assert (q * d) as real == q as real * dr;
    assert (q * d + d) as real == (q as real + 1.0) * dr;
    ScaleCancel(q as real, t, dr);
    ScaleCancel(t, q as real + 1.0, dr);
  }

  /** The floor is the one integer within a unit below the value. */
  lemma {:induction false} FloorUnique(t: real, q: int)
    requires q as real <= t < q as real + 1.0
    ensures t.Floor == q
  {
  }

  /** Dividing both sides of an inequality by a positive factor keeps it. */
  lemma {:induction false} ScaleCancel(a: real, b: real, c: real)
    requires c > 0.0
    ensures a * c <= b * c ==> a <= b
    ensures a * c < b * c ==> a < b
  {
  }
}
