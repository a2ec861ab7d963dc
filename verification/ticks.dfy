/**
 * The records the tick caches hold: a simulation step with one transform per
 * agent, the constraint snapshot that may travel with it, and the blending of
 * two transforms that sub-tick playback and gap filling both perform.
 */
module Ticks {
  import opened Js
  import Interp

  /** One agent's transform: a position and three rotation angles in radians. */
  datatype Pose = Pose(x: real, y: real, z: real, rx: real, ry: real, rz: real)

  /** A simulation step: its clock, one pose per agent, and its optional `type` tag. */
  datatype Step = Step(clock: int, agents: seq<Pose>, kind: Option<string>)

  /**
   * The constraint snapshot (`AdgProgress`): for each agent id, the ids of the
   * agents constraining it (`constraining_agent`), when the snapshot lists it.
   */
  datatype Adg = Adg(constraints: map<int, seq<int>>)

  /** A cached tick: the step, its optional snapshot, and optional per-agent status tags. */
  datatype Item = Item(state: Step, adg: Option<Adg>, agentState: Option<map<int, string>>)

  /** A scene position or rotation triple. */
  datatype Vec3 = Vec3(x: real, y: real, z: real)

  /** A blended step, whose clock may fall between two integers. */
  datatype Frame = Frame(clock: real, agents: seq<Pose>, kind: string)

  /** A blended tick, as `lerpItems` builds it. */
  datatype Blended = Blended(state: Frame, adg: Option<Adg>)

  /**
   * The poses of one agent at a fraction `t` of the way from `a` to `b`:
   * positions linearly, rotations along the shorter arc.
   */
  function LerpPose(a: Pose, b: Pose, t: real): Pose
  {
    Pose(Interp.Lerp(a.x, b.x, t), Interp.Lerp(a.y, b.y, t), Interp.Lerp(a.z, b.z, t),
         Interp.LerpRadians(a.rx, b.rx, t), Interp.LerpRadians(a.ry, b.ry, t),
         Interp.LerpRadians(a.rz, b.rz, t))
  }

  /**
   * Blending starts exactly at `a`, and ends at `b`'s position with each of
   * `b`'s angles up to whole turns.
   */
  lemma LerpPoseEndpoints(a: Pose, b: Pose) returns (kx: int, ky: int, kz: int)
    ensures LerpPose(a, b, 0.0) == a
    ensures var e := LerpPose(a, b, 1.0);
      e.x == b.x && e.y == b.y && e.z == b.z
      && e.rx == b.rx + Tau * (kx as real)
      && e.ry == b.ry + Tau * (ky as real)
      && e.rz == b.rz + Tau * (kz as real)
  {
    kx := Interp.LerpRadiansEndpoints(a.rx, b.rx);
    ky := Interp.LerpRadiansEndpoints(a.ry, b.ry);
    kz := Interp.LerpRadiansEndpoints(a.rz, b.rz);
    Interp.LerpEndpoints(a.x, b.x);
    Interp.LerpEndpoints(a.y, b.y);
    Interp.LerpEndpoints(a.z, b.z);
  }
}
