/**
 * The in-memory run of `src/client/run.ts`: the list of steps received so
 * far, the gap-filling append that keeps it contiguous in clock, its derived
 * length and timespan, and the parsing of a solution file into agent paths.
 */
module Run {
  import opened Js
  import opened Text
  import opened Ticks
  import Interp

  /** What appending an update does to the stored steps. */
  datatype Appended =
    | Stored(result: seq<Step>)
      /** `update.agents[j]` is undefined for some agent `j` of the tail: a TypeError. */
    | TypeError
      /**
       * The update repeats the tail's clock: the progress divides by zero and
       * the source stores a step of infinite or NaN poses, which this model
       * does not represent.
       */
    | NonFinite

  /** lodash `range(start, end)` with the default step: counting up when `start < end`, down otherwise. */
  function Range(start: int, end: int): (r: seq<int>)
    ensures |r| == if start < end then end - start else start - end
    ensures forall n :: 0 <= n < |r| ==> r[n] == if start < end then start + n else start - n
  {
    if start < end then seq(end - start, n => start + n)
    else seq(start - end, n => start - n)
  }

  /** How far clock `i` lies from the tail's clock toward the update's. */
  function Progress(tailClock: int, updateClock: int, i: int): real
    requires tailClock != updateClock
  {
    (i - tailClock) as real / (updateClock - tailClock) as real
  }

  /**
   * The step synthesised for clock `i`: every tail agent blended toward the
   * update's agent of the same index, by how far `i` lies between their clocks.
   */
  function SynthesisedStep(tail: Step, update: Step, i: int): (s: Step)
    requires tail.clock != update.clock && |update.agents| >= |tail.agents|
    ensures s.clock == i && |s.agents| == |tail.agents| && s.kind == None
    ensures forall j :: 0 <= j < |tail.agents| ==>
      s.agents[j] == LerpPose(tail.agents[j], update.agents[j], Progress(tail.clock, update.clock, i))
  {
    var p := Progress(tail.clock, update.clock, i);
    Step(i, seq(|tail.agents|, j requires 0 <= j < |tail.agents| =>
      LerpPose(tail.agents[j], update.agents[j], p)), None)
  }

  /** The clocks `range(tail.clock + 1, update.clock)` that `appendAtom` synthesises. */
  function GapClocks(tail: Step, update: Step): seq<int>
  {
    Range(tail.clock + 1, update.clock)
  }

  /**
   * `appendAtom(update)` on the stored steps `previous`. It throws when there
   * are clocks to fill (the update's clock is not the tail's plus one) and
   * the update has fewer agents than the tail; with the tail's own clock
   * (where `range` still yields one clock) it divides by zero.
   */
  function Append(previous: seq<Step>, update: Step): (r: Appended)
    ensures previous == [] ==> r == Stored([update])
    ensures r.TypeError? <==>
      previous != [] && Last(previous).clock + 1 != update.clock
      && |update.agents| < |Last(previous).agents|
    ensures r.NonFinite? <==>
      previous != [] && Last(previous).clock == update.clock
      && |update.agents| >= |Last(previous).agents|
    ensures r.Stored? && previous != [] ==>
      var gap := GapClocks(Last(previous), update);
      |r.result| == |previous| + |gap| + 1
      && r.result[..|previous|] == previous && Last(r.result) == update
      && forall n :: 0 <= n < |gap| ==> r.result[|previous| + n].clock == gap[n]
    ensures r.Stored? && previous != [] ==>
      var tail, gap := Last(previous), GapClocks(Last(previous), update);
      forall n :: 0 <= n < |gap| ==> r.result[|previous| + n] == SynthesisedStep(tail, update, gap[n])
  {
    if previous == [] then Stored([update])
    else
      var tail := Last(previous);
      var gap := GapClocks(tail, update);
      if |gap| > 0 && |update.agents| < |tail.agents| then TypeError
      else if tail.clock == update.clock then NonFinite
      else
        var filled := seq(|gap|, n requires 0 <= n < |gap| => SynthesisedStep(tail, update, gap[n]));
        Stored(previous + filled + [update])
  }

  /**
   * After a tail at clock `c` and an update at a later clock `u`, the steps
   * added are one per clock `c + 1 … u - 1`, in order, each with the tail's
   * number of agents and a progress strictly between 0 and 1, and then the
   * update itself; every synthesised position lies, coordinate by
   * coordinate, between the tail's and the update's.
   */
  lemma AppendFillsGap(previous: seq<Step>, update: Step)
    requires previous != [] && Last(previous).clock < update.clock
    requires |update.agents| >= |Last(previous).agents|
    ensures Append(previous, update).Stored?
    ensures var tail, r := Last(previous), Append(previous, update).result;
      |r| == |previous| + (update.clock - tail.clock - 1) + 1
      && (forall n :: |previous| <= n < |r| - 1 ==>
            r[n].clock == tail.clock + 1 + (n - |previous|)
            && |r[n].agents| == |tail.agents|
            && 0.0 < Progress(tail.clock, update.clock, r[n].clock) < 1.0)
      && (forall n, j :: |previous| <= n < |r| - 1 && 0 <= j < |tail.agents| ==>
            Between(tail.agents[j], update.agents[j], r[n].agents[j]))
  {
    var tail := Last(previous);
    var r := Append(previous, update).result;
    forall n | |previous| <= n < |r| - 1
      ensures r[n].clock == tail.clock + 1 + (n - |previous|)
      ensures |r[n].agents| == |tail.agents|
      ensures 0.0 < Progress(tail.clock, update.clock, r[n].clock) < 1.0
      ensures forall j :: 0 <= j < |tail.agents| ==> Between(tail.agents[j], update.agents[j], r[n].agents[j])
    {
      var i := r[n].clock;
      var p := Progress(tail.clock, update.clock, i);
      FractionStrictlyBetween(i - tail.clock, update.clock - tail.clock);
      forall j | 0 <= j < |tail.agents|
        ensures Between(tail.agents[j], update.agents[j], r[n].agents[j])
      {
        var a, b := tail.agents[j], update.agents[j];
        Interp.LerpBetween(a.x, b.x, p);
        Interp.LerpBetween(a.y, b.y, p);
        Interp.LerpBetween(a.z, b.z, p);
      }
    }
  }

  /** Each of `e`'s coordinates x, y and z lies between those of `a` and `b`. */
  predicate Between(a: Pose, b: Pose, e: Pose)
  {
    MinR(a.x, b.x) <= e.x <= MaxR(a.x, b.x)
    && MinR(a.y, b.y) <= e.y <= MaxR(a.y, b.y)
    && MinR(a.z, b.z) <= e.z <= MaxR(a.z, b.z)
  }

  lemma FractionStrictlyBetween(num: int, den: int)
    requires 0 < num < den
    ensures 0.0 < num as real / den as real < 1.0
  {
  }

  /**
   * When the update's clock does not exceed the tail's, `range` counts down:
   * the clocks `tail.clock + 1` down to `update.clock + 1` are synthesised,
   * one more than the difference of the clocks, before the update.
   */
  lemma AppendBackwards(previous: seq<Step>, update: Step)
    requires previous != [] && update.clock < Last(previous).clock
    requires |update.agents| >= |Last(previous).agents|
    ensures Append(previous, update).Stored?
    ensures var tail, r := Last(previous), Append(previous, update).result;
      |r| == |previous| + (tail.clock - update.clock + 1) + 1
      && r[|previous|].clock == tail.clock + 1
      && r[|r| - 2].clock == update.clock + 1
  {
  }

  /** The clocks of `steps` are consecutive integers. */
  predicate Contiguous(steps: seq<Step>)
  {
    forall n :: 0 <= n < |steps| ==> steps[n].clock == steps[0].clock + n
  }

  /** One append after a contiguous run and an earlier tail keeps the run contiguous. */
  lemma AppendContiguous(previous: seq<Step>, update: Step)
    requires Contiguous(previous)
    requires previous != [] ==> Last(previous).clock < update.clock
    requires previous != [] ==> |update.agents| >= |Last(previous).agents|
    ensures Append(previous, update).Stored?
    ensures var r := Append(previous, update).result;
      Contiguous(r) && Last(r) == update
      && r[0].clock == (if previous == [] then update.clock else previous[0].clock)
  {
    if previous != [] {
      AppendFillsGap(previous, update);
      var r := Append(previous, update).result;
      forall n | 0 <= n < |r| ensures r[n].clock == r[0].clock + n {
        if n < |previous| {
          assert r[n] == previous[n];
        }
      }
    }
  }

  /** Ingesting a batch of updates one after another, stopping at the first failure. */
  function IngestAll(previous: seq<Step>, updates: seq<Step>): Appended
    decreases |updates|
  {
    if updates == [] then Stored(previous)
    else
      match Append(previous, updates[0])
      case Stored(r) => IngestAll(r, updates[1..])
      case other => other
  }

  /** Clocks strictly increase and every update has at least as many agents as the one before. */
  predicate WellOrdered(updates: seq<Step>)
  {
    forall n :: 0 < n < |updates| ==>
      updates[n - 1].clock < updates[n].clock
      && |updates[n].agents| >= |updates[n - 1].agents|
  }

  /**
   * Ingesting well-ordered updates into a contiguous run leaves a run that is
   * contiguous from its first clock up to the last update's clock.
   */
  lemma {:induction false} IngestContiguous(previous: seq<Step>, updates: seq<Step>)
    requires Contiguous(previous) && WellOrdered(updates) && updates != []
    requires previous != [] ==> Last(previous).clock < updates[0].clock
    requires previous != [] ==> |updates[0].agents| >= |Last(previous).agents|
    ensures IngestAll(previous, updates).Stored?
    ensures var r := IngestAll(previous, updates).result;
      |r| > 0 && Contiguous(r) && Last(r) == Last(updates)
      && r[0].clock == (if previous == [] then updates[0].clock else previous[0].clock)
    decreases |updates|
  {
    AppendContiguous(previous, updates[0]);
    var r := Append(previous, updates[0]).result;
    if |updates| > 1 {
      var rest := updates[1..];
      assert WellOrdered(rest) by {
        forall n | 0 < n < |rest| ensures rest[n - 1].clock < rest[n].clock {
          assert rest[n - 1] == updates[n] && rest[n] == updates[n + 1];
        }
      }
      IngestContiguous(r, rest);
      assert Last(rest) == Last(updates);
    }
  }

  /**
   * Starting from an empty run, well-ordered updates leave one step per clock
   * from the first update's clock to the last one's.
   */
  lemma IngestFromEmpty(updates: seq<Step>)
    requires WellOrdered(updates) && updates != []
    ensures IngestAll([], updates).Stored?
    ensures var r := IngestAll([], updates).result;
      |r| == Last(updates).clock - updates[0].clock + 1
      && (forall n :: 0 <= n < |r| ==> r[n].clock == updates[0].clock + n)
      && Length(r) == |r| && Timespan(r) == Last(updates).clock
  {
    IngestContiguous([], updates);
    var r := IngestAll([], updates).result;
    assert Last(r).clock == r[0].clock + |r| - 1;
  }

  /** `timespanAtom`: the last stored clock, or 0 when nothing is stored. */
  function Timespan(result: seq<Step>): int
  {
    if result == [] then 0 else Last(result).clock
  }

  /** `lengthAtom`: the number of stored steps. */
  function Length(result: seq<Step>): nat
  {
    |result|
  }

  /** `clearAtom`: the stored steps become empty. */
  function Clear(result: seq<Step>): (r: seq<Step>)
    ensures Length(r) == 0 && Timespan(r) == 0
  {
    []
  }

  /** A grid cell of an agent's path: the two coordinates `+x` and `+y`. */
  datatype Point = Point(x: Number, y: Number)

  /** `const [x, y] = trim(p, "()").split(","); { x: +x, y: +y }`; a missing `y` is NaN. */
  function ParsePoint(piece: string): Point
  {
    var fields := Split(TrimChars(piece, {'(', ')'}), ",");
    Point(ToNumber(fields[0]), if |fields| > 1 then ToNumber(fields[1]) else NaN)
  }

  /** `pairs.filter(identity)`: the non-empty pieces, in order. */
  function NonEmpty(pieces: seq<string>): (r: seq<string>)
    ensures forall p :: p in r <==> p in pieces && p != []
    ensures |r| <= |pieces|
  {
    if pieces == [] then []
    else (if pieces[0] != [] then [pieces[0]] else []) + NonEmpty(pieces[1..])
  }

  /**
   * One line of the solution: the text after its first `:`, split on `->`,
   * empty pieces dropped, each read as a point. A line without `:` leaves
   * `p` undefined and `p.split` throws.
   */
  function ParseLine(line: string): Option<seq<Point>>
  {
    var fields := Split(line, ":");
    if |fields| < 2 then None
    else
      var pieces := NonEmpty(Split(fields[1], "->"));
      Some(seq(|pieces|, n requires 0 <= n < |pieces| => ParsePoint(pieces[n])))
  }

  /** Every line parsed, or `None` as soon as one line throws. */
  function ParseLines(lines: seq<string>): (r: Option<seq<seq<Point>>>)
    ensures r.None? <==> exists n :: 0 <= n < |lines| && ParseLine(lines[n]).None?
    ensures r.Some? ==> |r.value| == |lines|
    ensures r.Some? ==> forall n :: 0 <= n < |lines| ==> Some(r.value[n]) == ParseLine(lines[n])
  {
    if lines == [] then Some([])
    else
      match (ParseLine(lines[0]), ParseLines(lines[1..]))
      case (Some(p), Some(ps)) =>
        assert forall n :: 1 <= n < |lines| ==> lines[n] == lines[1..][n - 1];
        Some([p] + ps)
      case (None, _) => None
      case (_, None) =>
        var n :| 0 <= n < |lines[1..]| && ParseLine(lines[1..][n]).None?;
        assert ParseLine(lines[n + 1]).None?;
        None
  }

  /** `pathsAtom`: no paths for an empty file, otherwise one path per trimmed line. */
  function Paths(text: string): Option<seq<seq<Point>>>
  {
    var lines := Split(Trim(text), "\n");
    if text == [] then Some([]) else ParseLines(lines)
  }

  /** `agentCountAtom`: the number of `\n`-separated lines of the trimmed text. */
  function AgentCount(text: string): nat
  {
    |Split(Trim(text), "\n")|
  }

  /**
   * There is one more agent than line feeds inside the trimmed text, so an
   * empty file counts one agent; a non-empty file that parses has one path
   * per agent, and it fails to parse exactly when some line has no `:`.
   */
  lemma AgentCountMatchesPaths(text: string)
    ensures AgentCount(text) == Count(Trim(text), '\n') + 1
    ensures text == [] ==> AgentCount(text) == 1 && Paths(text) == Some([])
    ensures text != [] ==>
      var lines := Split(Trim(text), "\n");
      (Paths(text).Some? ==> |Paths(text).value| == AgentCount(text))
      && (Paths(text).None? <==> exists n :: 0 <= n < |lines| && |Split(lines[n], ":")| < 2)
  {
    SplitCount(Trim(text), '\n');
    if text == [] {
      assert Trim(text) == [];
    }
  }
}
