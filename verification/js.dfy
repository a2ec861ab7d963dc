/**
 * The slice of JavaScript and lodash arithmetic the visualiser relies on,
 * written out over unbounded integers and exact reals: `Math.floor`,
 * `Math.ceil`, `Math.round`, the truncating `%` operator, lodash `clamp`,
 * `min` and `max`, and a JavaScript number that may be NaN.
 */
module Js {

  datatype Option<+T> = None | Some(value: T)

  /** A JavaScript number, as far as this model needs one: finite or NaN. */
  datatype Number = Num(value: real) | NaN

  /** `Math.PI`, as the decimal literal JavaScript prints for it. */
  const Pi: real := 3.141592653589793

  /** One full turn, `Math.PI * 2`. */
  const Tau: real := 2.0 * Pi

  /** A multiple of a full turn that lies strictly within one turn of zero is zero. */
  lemma WholeTurnsWithinOneTurn(k: int)
    requires -Tau < Tau * (k as real) < Tau
    ensures k == 0
  {
  }

  /** `Math.floor` (and lodash `floor` with no precision). */
  function Floor(x: real): (r: int)
    ensures r as real <= x < r as real + 1.0
  {
    x.Floor
  }

  /** `Math.ceil` (and lodash `ceil` with no precision). */
  function Ceil(x: real): (r: int)
    ensures x <= r as real < x + 1.0
  {
    -((-x).Floor)
  }

  /** `Math.round`: the nearest integer, halves rounded up. */
  function Round(x: real): (r: int)
    ensures x - 0.5 < r as real <= x + 0.5
  {
    (x + 0.5).Floor
  }

  /** Truncation toward zero, the quotient that JavaScript's `%` uses. */
  function Trunc(x: real): (r: int)
    ensures x >= 0.0 ==> r as real <= x < r as real + 1.0
    ensures x < 0.0 ==> r as real - 1.0 < x <= r as real
  {
    if x >= 0.0 then x.Floor else -((-x).Floor)
  }

  /**
   * JavaScript's `%` on numbers with a positive divisor: the remainder takes
   * the sign of the dividend, unlike Dafny's Euclidean `%`.
   */
  function Rem(a: real, m: real): (r: real)
    requires m > 0.0
    ensures a >= 0.0 ==> 0.0 <= r < m
    ensures a < 0.0 ==> -m < r <= 0.0
  {
    var q := Trunc(a / m);
    RemBounds(a, m, q);
    a - m * (q as real)
  }

  lemma RemBounds(a: real, m: real, q: int)
    requires m > 0.0
    requires q == Trunc(a / m)
    ensures a >= 0.0 ==> 0.0 <= a - m * (q as real) < m
    ensures a < 0.0 ==> -m < a - m * (q as real) <= 0.0
  {
    var y := a / m - q as real;
    assert a - m * (q as real) == m * y by {
      assert m * (a / m) == a;
    }
    if a >= 0.0 {
      assert a / m >= 0.0;
      ScaleUnit(a - m * (q as real), m, y);
    } else {
      assert a / m < 0.0;
      ScaleNegativeUnit(a - m * (q as real), m, y);
    }
  }

  /** A remainder that is a fraction in [0, 1) of a positive divisor lies in [0, divisor). */
  lemma ScaleUnit(r: real, m: real, y: real)
    requires m > 0.0 && 0.0 <= y < 1.0 && r == m * y
    ensures 0.0 <= r < m
  {
  }

  /** A remainder that is a fraction in (-1, 0] of a positive divisor lies in (-divisor, 0]. */
  lemma ScaleNegativeUnit(r: real, m: real, y: real)
    requires m > 0.0 && -1.0 < y <= 0.0 && r == m * y
    ensures -m < r <= 0.0
  {
  }

  /** JavaScript's `%` on integers with a positive divisor. */
  function IntRem(a: int, m: int): (r: int)
    requires m > 0
    ensures a >= 0 ==> 0 <= r < m
    ensures a < 0 ==> -m < r <= 0
  {
    if a >= 0 then a % m else -((-a) % m)
  }

  /** `Math.floor(a / m)` for integers and a positive divisor. */
  function FloorDiv(a: int, m: int): (r: int)
    requires m > 0
    ensures r * m <= a < r * m + m
  {
    a / m
  }

  function Min(a: int, b: int): int { if a <= b then a else b }

  function Max(a: int, b: int): int { if a >= b then a else b }

  function MinR(a: real, b: real): real { if a <= b then a else b }

  function MaxR(a: real, b: real): real { if a >= b then a else b }

  /** lodash `clamp(x, lo, hi)`: first capped at `hi`, then raised to `lo`. */
  function Clamp(x: int, lo: int, hi: int): (r: int)
    ensures lo <= hi ==> lo <= r <= hi
    ensures lo <= x <= hi ==> r == x
  {
    Max(Min(x, hi), lo)
  }
}
