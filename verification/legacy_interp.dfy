/**
 * The older interpolation helpers of `src/utils.ts`. Its `lerp` is the same
 * expression as `Interp.Lerp`; its `lerpRadians` normalises the difference
 * of the angles into [0, 2π) and then subtracts `a` once more.
 */
module LegacyInterp {
  import opened Js

  /** `(((d % 2π) + 2π) % 2π)`: a difference of angles brought into [0, 2π). */
  function Normalise(d: real): (r: real)
    ensures 0.0 <= r < Tau
  {
    Rem(Rem(d, Tau) + Tau, Tau)
  }

  /** The normalised difference equals the difference up to whole turns. */
  lemma NormaliseCongruent(d: real) returns (k: int)
    ensures Normalise(d) == d + Tau * (k as real)
  {
    var q1 := Trunc(d / Tau);
    var x := Rem(d, Tau) + Tau;
    var q2 := Trunc(x / Tau);
    assert Rem(d, Tau) == d - Tau * (q1 as real);
    assert Normalise(d) == x - Tau * (q2 as real);
    k := 1 - q1 - q2;
    assert Tau * (k as real) == Tau - Tau * (q1 as real) - Tau * (q2 as real);
  }

  /** A difference already in [0, 2π) is left as it is. */
  lemma NormaliseExact(d: real)
    requires 0.0 <= d < Tau
    ensures Normalise(d) == d
  {
    var k := NormaliseCongruent(d);
    WholeTurnsWithinOneTurn(k);
  }

  /** `lerpRadians(a, b, t)` of `src/utils.ts`, as written. */
  function LerpRadiansAsWritten(a: real, b: real, t: real): real
  {
    a + (Normalise(b - a) - a) * t
  }

  /**
   * As written, the interpolation starts at `a`, but at `t = 1` it gives the
   * normalised difference of the angles rather than `b`.
   */
  lemma AsWrittenEndpoints(a: real, b: real)
    ensures LerpRadiansAsWritten(a, b, 0.0) == a
    ensures LerpRadiansAsWritten(a, b, 1.0) == Normalise(b - a)
  {
  }

  /** Interpolating from an angle of 1 radian to itself ends at 0 radians. */
  lemma AsWrittenMissesTarget()
    ensures LerpRadiansAsWritten(1.0, 1.0, 1.0) == 0.0
  {
    NormaliseExact(0.0);
  }

  /** The evidently intended interpolation: from `a` forward by the normalised difference. */
  function LerpRadians(a: real, b: real, t: real): real
  {
    a + Normalise(b - a) * t
  }

  /**
   * The corrected interpolation starts at `a`, ends at `b` up to whole turns,
   * and ends exactly at `b` when `b` lies less than one turn ahead of `a`.
   */
  lemma LerpRadiansEndpoints(a: real, b: real) returns (k: int)
    ensures LerpRadians(a, b, 0.0) == a
    ensures LerpRadians(a, b, 1.0) == b + Tau * (k as real)
    ensures 0.0 <= b - a < Tau ==> LerpRadians(a, b, 1.0) == b
  {
    k := NormaliseCongruent(b - a);
    if 0.0 <= b - a < Tau {
      NormaliseExact(b - a);
    }
  }
}
