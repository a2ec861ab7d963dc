/**
 * The older path-following agent of `src/Agent.tsx`: the position along a
 * planned path at a possibly fractional time, read from the path cells at
 * the clamped floor and ceiling of that time.
 */
module PathAgent {
  import opened Js
  import opened Ticks
  // `lerp` of `src/utils.ts` is the same expression as `Interp.Lerp`
  import Interp

  /** The path cells read at time `x`: `⌊x⌋` and `⌈x⌉`, clamped into the path. */
  function PathIndices(count: int, x: real): (int, int)
    requires count > 0
  {
    var high := count - 1;
    (Clamp(Floor(x), 0, high), Clamp(Ceil(x), 0, high))
  }

  /**
   * Both cells lie on the path, the second at most one past the first; inside
   * the path they are `⌊x⌋` and `⌈x⌉`, outside it both are the nearer end.
   */
  lemma PathIndicesBounds(count: int, x: real)
    requires count > 0
    ensures var (i, j) := PathIndices(count, x);
      0 <= i <= count - 1 && 0 <= j <= count - 1 && i <= j <= i + 1
      && (0.0 <= x <= (count - 1) as real ==> i == Floor(x) && j == Ceil(x))
      && (x > (count - 1) as real ==> i == count - 1 && j == count - 1)
      && (x < 0.0 ==> i == 0 && j == 0)
  {
  }

  /**
   * The drawn position: nothing for an empty path, otherwise the blend of
   * the two cells' centres by `x - i` (y is not flipped here).
   */
  function PathPosition(path: seq<Pose>, x: real): (r: Option<Vec3>)
    ensures r.None? <==> path == []
  {
    if path == [] then None
    else
      var (i, j) := PathIndices(|path|, x);
      var p := x - i as real;
      Some(Vec3(Interp.Lerp(path[i].x + 0.5, path[j].x + 0.5, p), 0.0,
                Interp.Lerp(path[i].y + 0.5, path[j].y + 0.5, p)))
  }

  /** Outside the path the agent stands exactly on the centre of the nearer end cell. */
  lemma PathPositionOutside(path: seq<Pose>, x: real)
    requires path != [] && (x < 0.0 || x > (|path| - 1) as real)
    ensures var e := if x < 0.0 then path[0] else path[|path| - 1];
      PathPosition(path, x) == Some(Vec3(e.x + 0.5, 0.0, e.y + 0.5))
  {
    PathIndicesBounds(|path|, x);
    var (i, j) := PathIndices(|path|, x);
    var p := x - i as real;
    assert i == j;
    assert Interp.Lerp(path[i].x + 0.5, path[i].x + 0.5, p) == path[i].x + 0.5;
    assert Interp.Lerp(path[i].y + 0.5, path[i].y + 0.5, p) == path[i].y + 0.5;
  }

  /** At a whole time on the path the agent stands on that cell's centre. */
  lemma PathPositionAtCell(path: seq<Pose>, n: int)
    requires 0 <= n < |path|
    ensures PathPosition(path, n as real) == Some(Vec3(path[n].x + 0.5, 0.0, path[n].y + 0.5))
  {
    assert Floor(n as real) == n && Ceil(n as real) == n;
    Interp.LerpEndpoints(path[n].x + 0.5, path[n].x + 0.5);
    Interp.LerpEndpoints(path[n].y + 0.5, path[n].y + 0.5);
  }

  /**
   * Inside the path the blend fraction is `x - ⌊x⌋`, in [0, 1), and the x
   * coordinate lies between the two cells' centres.
   */
  lemma PathPositionInside(path: seq<Pose>, x: real)
    requires path != [] && 0.0 <= x <= (|path| - 1) as real
    ensures var (i, j) := PathIndices(|path|, x);
      var px := PathPosition(path, x).value.x;
      0.0 <= x - i as real < 1.0
      && (path[i].x <= path[j].x ==> path[i].x + 0.5 <= px <= path[j].x + 0.5)
      && (path[j].x <= path[i].x ==> path[j].x + 0.5 <= px <= path[i].x + 0.5)
  {
    PathIndicesBounds(|path|, x);
    var (i, j) := PathIndices(|path|, x);
    var p := x - i as real;
    var d := path[j].x - path[i].x;
    Interp.ScaleBetween(d, p, d * p);
  }
}
