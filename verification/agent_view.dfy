/**
 * Where an agent is drawn between two recorded steps: `nearAtom` and `Agent`
 * of `src/components/Agent.tsx`, and their copies in `src/App.tsx`, which
 * differ only in the angular interpolation they import.
 */
module AgentView {
  import opened Js
  import opened Ticks
  import Interp
  import LegacyInterp

  /**
   * The steps `nearAtom` picks for a time: the step of `⌊time⌋` and the one
   * after, both clamped into the recorded range.
   */
  function NearIndices(count: int, time: real): (int, int)
    requires count > 0
  {
    var high := count - 1;
    (Clamp(Floor(time), 0, high), Clamp(Floor(time) + 1, 0, high))
  }

  /**
   * Both picked steps are recorded; inside the range they are the step of
   * `⌊time⌋` and the next one, at or past the last step both are the last,
   * and before the first both are the first.
   */
  lemma NearIndicesBounds(count: int, time: real)
    requires count > 0
    ensures var (j, k) := NearIndices(count, time);
      0 <= j <= count - 1 && 0 <= k <= count - 1 && j <= k <= j + 1
      && (0 <= Floor(time) < count - 1 ==> j == Floor(time) && k == j + 1)
      && (Floor(time) >= count - 1 ==> j == count - 1 && k == count - 1)
      && (Floor(time) < 0 ==> j == 0 && k == 0)
  {
  }

  /** The pair `nearAtom` yields: agent `i`'s entry in each picked step, when the step has one. */
  datatype Near = Near(current: Option<Pose>, next: Option<Pose>)

  function AgentAt(step: Step, i: int): Option<Pose>
  {
    if 0 <= i < |step.agents| then Some(step.agents[i]) else None
  }

  /** `nearAtom(i, time)` over the recorded steps: nothing when there are none. */
  function NearPoses(result: seq<Step>, i: int, time: real): (r: Option<Near>)
    ensures r.None? <==> result == []
  {
    if result == [] then None
    else
      var (j, k) := NearIndices(|result|, time);
      Some(Near(AgentAt(result[j], i), AgentAt(result[k], i)))
  }

  /** `waiting`: the agent's cell is the same in both steps. */
  predicate Waiting(current: Pose, next: Pose)
  {
    current.x == next.x && current.y == next.y
  }

  /** The fraction of the way from the current step to the next. */
  function Fraction(time: real): real
  {
    time - Floor(time) as real
  }

  /** The drawn position: the cell centre blended between the steps, with y flipped. */
  function Position(current: Pose, next: Pose, time: real): Vec3
  {
    var p := Fraction(time);
    Vec3(Interp.Lerp(current.x + 0.5, next.x + 0.5, p), 0.0, -Interp.Lerp(current.y + 0.5, next.y + 0.5, p))
  }

  /** What `Agent` renders: nothing, a thrown error for a missing entry, or the placed agent. */
  datatype View = Hidden | Thrown | Placed(position: Vec3, heading: real, waiting: bool)

  /** `Agent` of `src/components/Agent.tsx`, turning along the shorter arc. */
  function ComponentView(result: seq<Step>, i: int, time: real): View
  {
    var near := NearPoses(result, i, time);
    if near.None? then Hidden
    else if near.value.current.None? || near.value.next.None? then Thrown
    else
      var c, n := near.value.current.value, near.value.next.value;
      Placed(Position(c, n, time), Interp.LerpRadians(c.rz, n.rz, Fraction(time)), Waiting(c, n))
  }

  /** `Agent` of `src/App.tsx`, turning with the older angular interpolation. */
  function AppView(result: seq<Step>, i: int, time: real): View
  {
    var near := NearPoses(result, i, time);
    if near.None? then Hidden
    else if near.value.current.None? || near.value.next.None? then Thrown
    else
      var c, n := near.value.current.value, near.value.next.value;
      Placed(Position(c, n, time), LegacyInterp.LerpRadians(c.rz, n.rz, Fraction(time)), Waiting(c, n))
  }

  /**
   * Both views hide the agent exactly when nothing is recorded, and throw
   * exactly when a picked step has no entry for the agent.
   */
  lemma ViewOutcomes(result: seq<Step>, i: int, time: real)
    ensures ComponentView(result, i, time) == Hidden <==> result == []
    ensures AppView(result, i, time) == Hidden <==> result == []
    ensures result != [] ==>
      var (j, k) := NearIndices(|result|, time);
      (ComponentView(result, i, time) == Thrown <==> !(0 <= i < |result[j].agents| && 0 <= i < |result[k].agents|))
      && (AppView(result, i, time) == Thrown <==> ComponentView(result, i, time) == Thrown)
  {
  }

  /** The blend fraction lies in [0, 1). */
  lemma FractionBounds(time: real)
    ensures 0.0 <= Fraction(time) < 1.0
  {
  }

  /** A waiting agent stays on its cell centre for the whole step. */
  lemma WaitingStaysPut(current: Pose, next: Pose, time: real)
    requires Waiting(current, next)
    ensures Position(current, next, time) == Vec3(current.x + 0.5, 0.0, -(current.y + 0.5))
  {
  }

  /** Between two steps the agent's x lies between the two cell centres. */
  lemma PositionBetween(current: Pose, next: Pose, time: real)
    ensures var x := Position(current, next, time).x;
      (current.x <= next.x ==> current.x + 0.5 <= x <= next.x + 0.5)
      && (next.x <= current.x ==> next.x + 0.5 <= x <= current.x + 0.5)
  {
    Interp.LerpBetween(current.x + 0.5, next.x + 0.5, Fraction(time));
  }

  /**
   * At a whole time with an entry in both picked steps, both views draw the
   * agent on its current cell centre, y flipped, facing its recorded heading.
   */
  lemma ViewAtWholeTime(result: seq<Step>, i: int, n: int)
    requires result != []
    requires var (j, k) := NearIndices(|result|, n as real);
      0 <= i < |result[j].agents| && 0 <= i < |result[k].agents|
    ensures var (j, _) := NearIndices(|result|, n as real);
      var c := result[j].agents[i];
      ComponentView(result, i, n as real).Placed?
      && ComponentView(result, i, n as real).position == Vec3(c.x + 0.5, 0.0, -(c.y + 0.5))
      && ComponentView(result, i, n as real).heading == c.rz
      && AppView(result, i, n as real).position == Vec3(c.x + 0.5, 0.0, -(c.y + 0.5))
      && AppView(result, i, n as real).heading == c.rz
  {
    assert Floor(n as real) == n;
    assert Fraction(n as real) == 0.0;
    var (j, k) := NearIndices(|result|, n as real);
    var c, d := result[j].agents[i], result[k].agents[i];
    Interp.LerpEndpoints(c.x + 0.5, d.x + 0.5);
    Interp.LerpEndpoints(c.y + 0.5, d.y + 0.5);
    var _ := Interp.LerpRadiansEndpoints(c.rz, d.rz);
    var _ := LegacyInterp.LerpRadiansEndpoints(c.rz, d.rz);
  }
}
