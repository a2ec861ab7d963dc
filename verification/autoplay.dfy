/**
 * Autoplay: the interval that advances the playback time ten times a
 * second, in `src/App.tsx` (with its stop rule at the end of the run) and in
 * `src/Playback.tsx`. The clock `now()` is a parameter: each tick is given
 * the clock reading it takes.
 */
module Autoplay {
  import opened Js

  /** The interval period in milliseconds: ten ticks a second. */
  const Frame: real := 1000.0 / 10.0

  /**
   * The time one tick moves to: forward by the speed times the whole
   * number of periods elapsed, but by at least one step, and never past the
   * length of the run.
   */
  function NextTime(time: real, speed: real, elapsed: real, length: int): real
  {
    MinR(time + MaxR(1.0, speed * Round(elapsed / Frame) as real), length as real)
  }

  /**
   * A tick never passes the end of the run, advances by at least one step
   * until it is capped there, and keeps a time at or past the end on the end.
   */
  lemma NextTimeBounds(time: real, speed: real, elapsed: real, length: int)
    ensures NextTime(time, speed, elapsed, length) <= length as real
    ensures NextTime(time, speed, elapsed, length) >= MinR(time + 1.0, length as real)
    ensures NextTime(time, speed, elapsed, length) == length as real
         || NextTime(time, speed, elapsed, length) >= time + 1.0
    ensures time >= length as real ==> NextTime(time, speed, elapsed, length) == length as real
  {
  }

  /**
   * The time after a run of ticks taken at the clock readings `clocks`,
   * starting from `time` with the last reading `ta`: each tick measures the
   * time elapsed since the reading before it.
   */
  function Play(time: real, speed: real, ta: real, clocks: seq<real>, length: int): real
    decreases |clocks|
  {
    if clocks == [] then time
    else Play(NextTime(time, speed, clocks[0] - ta, length), speed, clocks[0], clocks[1..], length)
  }

  /**
   * After `n` ticks the time is at least `n` steps on, or at the end of the
   * run; once there has been a tick it is never past the end.
   */
  lemma {:induction false} PlayProgress(time: real, speed: real, ta: real, clocks: seq<real>, length: int)
    ensures clocks != [] ==> Play(time, speed, ta, clocks, length) <= length as real
    ensures Play(time, speed, ta, clocks, length) >= MinR(time + |clocks| as real, length as real)
    decreases |clocks|
  {
    if clocks != [] {
      var next := NextTime(time, speed, clocks[0] - ta, length);
      NextTimeBounds(time, speed, clocks[0] - ta, length);
      PlayProgress(next, speed, clocks[0], clocks[1..], length);
      if clocks[1..] == [] {
        assert Play(time, speed, ta, clocks, length) == next;
      }
    }
  }

  /** Playback reaches the end of the run after at most `length - time` ticks, rounded up. */
  lemma PlayReachesEnd(time: real, speed: real, ta: real, clocks: seq<real>, length: int)
    requires clocks != [] && time + |clocks| as real >= length as real
    ensures Play(time, speed, ta, clocks, length) == length as real
  {
    PlayProgress(time, speed, ta, clocks, length);
  }

  /**
   * The autoplay effect of `src/App.tsx`: the `time` control, the `playing`
   * flag, whether the interval is running, and the clock reading `ta` of
   * the previous tick.
   */
  class AppPlayer {
    var time: real
    var playing: bool
    var running: bool
    var ta: real

    constructor (time: real)
      ensures this.time == time && !playing && !running
    {
      this.time := time;
      playing := false;
      running := false;
      ta := 0.0;
    }

    /**
     * The effect, run whenever `playing` or `buffering` changes: the old
     * interval is cleared, and a new one is started, with the clock reading
     * `now`, only while playing.
     */
    method Effect(now: real)
      modifies this
      ensures running == playing == old(playing) && time == old(time)
      ensures ta == if playing then now else old(ta)
    {
      running := playing;
      if playing {
        ta := now;
      }
    }

    /**
     * One tick at clock reading `tb`. At the end of the run, unless more
     * steps are still arriving, playback stops and nothing else changes;
     * otherwise the time moves on by `NextTime`.
     */
    method Tick(tb: real, buffering: bool, speed: real, length: int)
      requires running
      modifies this
      ensures running
      ensures !buffering && old(time) == length as real ==>
        !playing && time == old(time) && ta == old(ta)
      ensures !(!buffering && old(time) == length as real) ==>
        playing == old(playing) && time == NextTime(old(time), speed, tb - old(ta), length) && ta == tb
    {
      if !buffering && time == length as real {
        playing := false;
        return;
      }
      time := NextTime(time, speed, tb - ta, length);
      ta := tb;
    }
  }

  /**
   * The autoplay effect of `src/Playback.tsx`: the `time` control, the
   * shared `timeAtom`, the `playing` flag, whether the interval is running,
   * and the clock reading `ta` of the previous tick.
   */
  class PlaybackPlayer {
    var control: real
    var time: real
    var playing: bool
    var running: bool
    var ta: real

    constructor ()
      ensures control == 0.0 && time == 0.0 && !playing && !running
    {
      control := 0.0;
      time := 0.0;
      playing := false;
      running := false;
      ta := 0.0;
    }

    /** The effect, run whenever `playing` changes: no interval is started while paused. */
    method Effect(now: real)
      modifies this
      ensures running == playing == old(playing)
      ensures control == old(control) && time == old(time)
      ensures ta == if playing then now else old(ta)
    {
      running := playing;
      if !playing {
        return;
      }
      ta := now;
    }

    /**
     * One tick at clock reading `tb`: the control and `timeAtom` both move
     * to the same next time, computed from `timeAtom`.
     */
    method Tick(tb: real, speed: real, length: int)
      requires running
      modifies this
      ensures control == time == Play(old(time), speed, old(ta), [tb], length)
      ensures ta == tb && running && playing == old(playing)
    {
      var next := NextTime(time, speed, tb - ta, length);
      control := next;
      time := next;
      ta := tb;
    }
  }
}
