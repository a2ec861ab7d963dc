/**
 * The interpolation and path helpers of `src/utils/index.ts`: linear
 * interpolation, shortest-path angular interpolation and `basename`.
 */
module Interp {
  import opened Js
  import opened Text

  /** `lerp(a, b, t)`: the point a fraction `t` of the way from `a` to `b`. */
  function Lerp(a: real, b: real, t: real): real
  {
    a + (b - a) * t
  }

  /** Interpolation starts at `a` and ends at `b`. */
  lemma LerpEndpoints(a: real, b: real)
    ensures Lerp(a, b, 0.0) == a
    ensures Lerp(a, b, 1.0) == b
  {
  }

  /** For a fraction in [0, 1] the interpolated value lies between the endpoints, whichever is larger. */
  lemma LerpBetween(a: real, b: real, t: real)
    requires 0.0 <= t <= 1.0
    ensures a <= b ==> a <= Lerp(a, b, t) <= b
    ensures b <= a ==> b <= Lerp(a, b, t) <= a
  {
    ScaleBetween(b - a, t, (b - a) * t);
  }

  /** A fraction in [0, 1] of a quantity lies between zero and that quantity. */
  lemma ScaleBetween(d: real, t: real, p: real)
    requires 0.0 <= t <= 1.0 && p == d * t
    ensures 0.0 <= d ==> 0.0 <= p <= d
    ensures d < 0.0 ==> d <= p <= 0.0
  {
  }

  /**
   * The local `delta` of `lerpRadians`: `b - a` shifted by `π`, reduced with
   * JavaScript's `%` by a full turn, shifted back, and raised by a full turn
   * when the remainder was negative enough to leave it below `-π`.
   */
  function ShortestDelta(a: real, b: real): (delta: real)
    ensures -Pi <= delta < Pi
  {
    var d := Rem(b - a + Pi, Tau) - Pi;
    if d < -Pi then d + Tau else d
  }

  /** JavaScript's `%` removes a whole number of divisors. */
  lemma RemQuotient(x: real, m: real) returns (q: int)
    requires m > 0.0
    ensures Rem(x, m) == x - m * (q as real)
  {
    q := Trunc(x / m);
  }

  /** `delta` differs from `b - a` by a whole number of turns. */
  lemma ShortestDeltaCongruent(a: real, b: real) returns (k: int)
    ensures ShortestDelta(a, b) == b - a + Tau * (k as real)
  {
    var q := RemQuotient(b - a + Pi, Tau);
    var d := Rem(b - a + Pi, Tau) - Pi;
    if d < -Pi {
      k := 1 - q;
    } else {
      k := -q;
    }
  }

  /** When `b - a` is already in [-π, π), `delta` is exactly `b - a`. */
  lemma ShortestDeltaExact(a: real, b: real)
    requires -Pi <= b - a < Pi
    ensures ShortestDelta(a, b) == b - a
  {
    var k := ShortestDeltaCongruent(a, b);
    WholeTurnsWithinOneTurn(k);
  }

  /** `lerpRadians(a, b, t)`: interpolation of an angle along the shorter arc. */
  function LerpRadians(a: real, b: real, t: real): real
  {
    a + ShortestDelta(a, b) * t
  }

  /**
   * Angular interpolation starts at `a`, ends at an angle equal to `b` up to
   * whole turns, and ends exactly at `b` when `b - a` lies in [-π, π).
   */
  lemma LerpRadiansEndpoints(a: real, b: real) returns (k: int)
    ensures LerpRadians(a, b, 0.0) == a
    ensures LerpRadians(a, b, 1.0) == b + Tau * (k as real)
    ensures -Pi <= b - a < Pi ==> LerpRadians(a, b, 1.0) == b
  {
    k := ShortestDeltaCongruent(a, b);
    if -Pi <= b - a < Pi {
      ShortestDeltaExact(a, b);
    }
  }

  /** The path never goes the long way round: each step covers at most half a turn. */
  lemma LerpRadiansShortest(a: real, b: real, t: real)
    requires 0.0 <= t <= 1.0
    ensures -Pi <= LerpRadians(a, b, t) - a <= Pi
  {
    var d := ShortestDelta(a, b);
    ScaleBetween(d, t, d * t);
    assert LerpRadians(a, b, t) - a == d * t;
  }

  /** Halfway between 170 and -170 degrees is 180 degrees, not 0. */
  lemma LerpRadiansAcrossHalfTurn()
    ensures LerpRadians(Pi * 17.0 / 18.0, -Pi * 17.0 / 18.0, 0.5) == Pi
  {
    var a, b := Pi * 17.0 / 18.0, -Pi * 17.0 / 18.0;
    var x := b - a + Pi;
    assert x == -Pi * 16.0 / 18.0;
    assert Trunc(x / Tau) == 0;
    assert Rem(x, Tau) == x;
    assert ShortestDelta(a, b) == Pi / 9.0;
  }

  /** The text after the last `/` of a path. */
  function FileName(path: string): string
  {
    Last(Split(path, "/"))
  }

  /**
   * `basename(path, noExtension)`: the file name, or with `noExtension` the
   * part of it before its first `.`.
   */
  function Basename(path: string, noExtension: bool): string
  {
    var name := FileName(path);
    if noExtension then Split(name, ".")[0] else name
  }

  /**
   * The file name is a suffix of the path without any `/`, and it is either
   * the whole path or directly preceded by a `/`.
   */
  lemma BasenameIsLastSegment(path: string)
    ensures var r := Basename(path, false);
      |r| <= |path| && r == path[|path| - |r|..]
      && (forall i :: 0 <= i < |r| ==> r[i] != '/')
      && (|r| == |path| || path[|path| - |r| - 1] == '/')
  {
    var r := FileName(path);
    SplitLastPiece(path, "/", r);
    SplitPiecesAvoidSeparator(path, "/");
    NoOccurrenceOfChar(r, '/');
    if |r| < |path| {
      var j := |path| - |r| - 1;
      assert OccursAt(path, "/", j);
      assert path[j] == path[j..j + 1][0] == '/';
    }
  }

  /**
   * Without the extension, the base name is a prefix of the file name without
   * any `.`, and it is either the whole name or directly followed by a `.`.
   */
  lemma BasenameWithoutExtension(path: string)
    ensures var name, r := FileName(path), Basename(path, true);
      |r| <= |name| && r == name[..|r|]
      && (forall i :: 0 <= i < |r| ==> r[i] != '.')
      && (|r| == |name| || name[|r|] == '.')
      && (forall i :: 0 <= i < |r| ==> r[i] != '/')
  {
    var name, r := FileName(path), Basename(path, true);
    BasenameIsLastSegment(path);
    SplitFirstPiece(name, ".");
    SplitPiecesAvoidSeparator(name, ".");
    assert r in Split(name, ".");
    NoOccurrenceOfChar(r, '.');
    if |r| < |name| {
      assert OccursAt(name, ".", |r|);
      assert name[|r|] == name[|r|..|r| + 1][0] == '.';
    }
    forall i | 0 <= i < |r| ensures r[i] != '/' {
      assert r[i] == name[i];
    }
  }
}
