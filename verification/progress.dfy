/**
 * `getExpectedProgress` of `src/components/getExpectedProgress.tsx`: how far
 * a run of `length` minutes should have come after `time`, as a fraction
 * clamped to [0, 1].
 */
module Progress {
  import opened Js

  /** `COEFFICIENT_EXPECTED_PROGRESS`. */
  const Coefficient: real := 60.0

  /** lodash `clamp(x, lo, hi)` on a finite number. */
  function ClampR(x: real, lo: real, hi: real): real
  {
    MaxR(MinR(x, hi), lo)
  }

  /**
   * `getExpectedProgress(time = 0, length = 1)`. An absent argument takes its
   * default. A zero length makes the quotient infinite, which clamps to 1 or
   * 0 by the sign of `time`, or NaN when `time` is zero too; lodash `clamp`
   * passes NaN through.
   */
  function ExpectedProgress(time: Option<real>, length: Option<real>): Number
  {
    var t := if time.Some? then time.value else 0.0;
    var l := if length.Some? then length.value else 1.0;
    if l == 0.0 then
      if t > 0.0 then Num(1.0) else if t < 0.0 then Num(0.0) else NaN
    else Num(ClampR(t / l / Coefficient, 0.0, 1.0))
  }

  /**
   * The result is a fraction in [0, 1], NaN exactly when both time and
   * length are zero; with both defaults it is 0; and for a positive length it
   * is `time / (60 * length)` whenever that lies in [0, 1].
   */
  lemma ExpectedProgressBounds(time: Option<real>, length: Option<real>)
    ensures var r := ExpectedProgress(time, length);
      (r.Num? ==> 0.0 <= r.value <= 1.0)
      && (r.NaN? <==> (time.None? || time.value == 0.0)
                      && length.Some? && length.value == 0.0)
    ensures ExpectedProgress(None, None) == Num(0.0)
    ensures time.Some? && length.Some? && length.value > 0.0
            && 0.0 <= time.value / (Coefficient * length.value) <= 1.0 ==>
            ExpectedProgress(time, length) == Num(time.value / (Coefficient * length.value))
  {
    if time.Some? && length.Some? && length.value > 0.0 {
      DivideTwice(time.value, length.value, Coefficient);
    }
  }

  lemma DivideTwice(t: real, l: real, c: real)
    requires l > 0.0 && c > 0.0
    ensures t / l / c == t / (c * l)
  {
    assert t / l / c * (c * l) == t;
  }

  /** For a fixed positive length, later times never give less progress. */
  lemma ExpectedProgressMonotone(t1: real, t2: real, l: real)
    requires l > 0.0 && t1 <= t2
    ensures ExpectedProgress(Some(t1), Some(l)).value <= ExpectedProgress(Some(t2), Some(l)).value
  {
    DivideMonotone(t1, t2, l * Coefficient);
    DivideTwice(t1, l, Coefficient);
    DivideTwice(t2, l, Coefficient);
    assert Coefficient * l == l * Coefficient;
  }

  lemma DivideMonotone(a: real, b: real, d: real)
    requires d > 0.0 && a <= b
    ensures a / d <= b / d
  {
    assert b / d - a / d == (b - a) / d;
  }
}
