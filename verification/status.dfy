/**
 * The robot status panel of `src/Status.tsx`: the coloured badge and label
 * derived from an agent's status tag and constraining agents, and the
 * rotation shown in degrees.
 */
module Status {
  import opened Js
  import opened Text
  import opened TimelineCache

  /** The four badge colours of the theme. */
  datatype Colour = Idle | Error | Warning | Success

  datatype Badge = Badge(colour: Colour, caption: string)

  /** lodash `uniq` after the ids in `seen`: first occurrences only, in order. */
  function UniqAfter(xs: seq<int>, seen: set<int>): (r: seq<int>)
    ensures forall x :: x in r <==> x in xs && x !in seen
    ensures forall i, j :: 0 <= i < j < |r| ==> r[i] != r[j]
  {
    if xs == [] then []
    else if xs[0] in seen then UniqAfter(xs[1..], seen)
    else [xs[0]] + UniqAfter(xs[1..], seen + {xs[0]})
  }

  /** lodash `uniq`: the distinct ids, each where it first occurs. */
  function Uniq(xs: seq<int>): (r: seq<int>)
    ensures forall x :: x in r <==> x in xs
    ensures forall i, j :: 0 <= i < j < |r| ==> r[i] != r[j]
  {
    UniqAfter(xs, {})
  }

  /**
   * A later id is listed at the end exactly when it has not occurred
   * before, which fixes the order of the result to that of first
   * occurrences.
   */
  lemma {:induction false} UniqAfterSnoc(xs: seq<int>, x: int, seen: set<int>)
    ensures UniqAfter(xs + [x], seen) == UniqAfter(xs, seen) + (if x in xs || x in seen then [] else [x])
  {
    if xs != [] {
      assert (xs + [x])[0] == xs[0] && (xs + [x])[1..] == xs[1..] + [x];
      if xs[0] in seen {
        UniqAfterSnoc(xs[1..], x, seen);
      } else {
        UniqAfterSnoc(xs[1..], x, seen + {xs[0]});
      }
    }
  }

  lemma UniqSnoc(xs: seq<int>, x: int)
    ensures Uniq(xs + [x]) == Uniq(xs) + (if x in xs then [] else [x])
  {
    UniqAfterSnoc(xs, x, {});
  }

  /** Ids that are already distinct are listed unchanged. */
  lemma {:induction false} UniqAfterDistinct(xs: seq<int>, seen: set<int>)
    requires forall i, j :: 0 <= i < j < |xs| ==> xs[i] != xs[j]
    requires forall x :: x in xs ==> x !in seen
    ensures UniqAfter(xs, seen) == xs
  {
    if xs != [] {
      forall x | x in xs[1..] ensures x !in seen + {xs[0]} {
        var j :| 0 <= j < |xs[1..]| && xs[1..][j] == x;
        assert xs[j + 1] == x;
      }
      UniqAfterDistinct(xs[1..], seen + {xs[0]});
    }
  }

  lemma UniqDistinct(xs: seq<int>)
    requires forall i, j :: 0 <= i < j < |xs| ==> xs[i] != xs[j]
    ensures Uniq(xs) == xs
  {
    UniqAfterDistinct(xs, {});
  }

  /** The constraining ids, de-duplicated and joined by `", "`. */
  function ConstraintList(constraints: Option<seq<int>>): string
  {
    var ids := Uniq(if constraints.Some? then constraints.value else []);
    Join(seq(|ids|, i requires 0 <= i < |ids| => IntToString(ids[i])), ", ")
  }

  /** `a.constraints?.length` is truthy. */
  predicate Constrained(info: AgentInfo)
  {
    info.constraints.Some? && |info.constraints.value| > 0
  }

  /** The status tags that are shown with their own label rather than "Active". */
  predicate Quiet(state: Option<string>)
  {
    state.None? || state == Some("idle") || state == Some("finished") || state == Some("unknown")
  }

  /** The badge of an agent. */
  function Classify(info: AgentInfo): Badge
  {
    if Constrained(info) || Quiet(info.state) then
      Badge(
        if info.state.None? || info.state == Some("finished") || info.state == Some("unknown") then Idle
        else if info.state == Some("idle") then Error
        else Warning,
        if info.state.None? then "Initialising"
        else if info.state == Some("unknown") then "Not simulated"
        else if info.state == Some("finished") then "Finished"
        else (if info.state == Some("idle") then "Waiting for" else "Constrained by") + " " + ConstraintList(info.constraints))
    else Badge(Success, "Active")
  }

  /** The panel: nothing without agent information, the badge otherwise. */
  function StatusOf(a: Option<AgentInfo>): (r: Option<Badge>)
    ensures r.None? <==> a.None?
  {
    if a.None? then None else Some(Classify(a.value))
  }

  /**
   * Each fixed caption names exactly one case: "Initialising" no tag, "Not
   * simulated" the `unknown` tag, "Finished" the `finished` tag, and
   * "Active" no constraints under any other tag. The `idle` tag waits for
   * the listed agents, and constraints under any other tag are listed after
   * "Constrained by".
   */
  lemma ClassifyCaptions(info: AgentInfo)
    ensures Classify(info).caption == "Initialising" <==> info.state.None?
    ensures Classify(info).caption == "Not simulated" <==> info.state == Some("unknown")
    ensures Classify(info).caption == "Finished" <==> info.state == Some("finished")
    ensures Classify(info).caption == "Active" <==> !Constrained(info) && !Quiet(info.state)
    ensures info.state == Some("idle") ==> Classify(info).caption == "Waiting for " + ConstraintList(info.constraints)
    ensures !Quiet(info.state) && Constrained(info) ==>
      Classify(info).caption == "Constrained by " + ConstraintList(info.constraints)
  {
    var c := Classify(info).caption;
    if info.state.None? {
      assert c[0] == 'I';
    } else if info.state == Some("unknown") {
      assert c[0] == 'N';
    } else if info.state == Some("finished") {
      assert c[0] == 'F';
    } else if info.state == Some("idle") {
      assert c == "Waiting for " + ConstraintList(info.constraints);
      assert c[0] == 'W';
    } else if Constrained(info) {
      assert c == "Constrained by " + ConstraintList(info.constraints);
      assert c[0] == 'C';
    } else {
      assert c[0] == 'A';
    }
  }

  /**
   * "Active" and the success colour go together, and both mean exactly: no
   * constraints and a tag other than the four quiet ones. The error colour
   * means exactly the `idle` tag.
   */
  lemma ClassifyColours(info: AgentInfo)
    ensures Classify(info).colour == Success <==> !Constrained(info) && !Quiet(info.state)
    ensures Classify(info).caption == "Active" <==> Classify(info).colour == Success
    ensures Classify(info).colour == Error <==> info.state == Some("idle")
    ensures Classify(info).colour == Idle <==>
      info.state.None? || info.state == Some("finished") || info.state == Some("unknown")
    ensures Classify(info).colour == Warning <==> Constrained(info) && !Quiet(info.state)
  {
    ClassifyCaptions(info);
  }

  /** The displayed rotation: radians times 180 over π. */
  function Degrees(radians: real): real
  {
    radians * 180.0 / Pi
  }

  /**
   * The display scale: a heading in [-π, π) shows in [-180, 180), a whole
   * turn adds 360, larger angles show larger, and the degrees convert
   * back to the radians.
   */
  lemma DegreesScale(radians: real, other: real)
    ensures -Pi <= radians < Pi ==> -180.0 <= Degrees(radians) < 180.0
    ensures Degrees(radians + Tau) == Degrees(radians) + 360.0
    ensures radians < other ==> Degrees(radians) < Degrees(other)
    ensures Degrees(radians) * Pi / 180.0 == radians
  {
  }
}
