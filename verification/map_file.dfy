/**
 * The map file reader of `src/utils/parseMap.ts`: four header lines (the
 * type, height and width among them), then one line of cells per map row,
 * where `@` and `T` mark obstacles.
 */
module MapFile {
  import opened Js
  import opened Text

  /** The lines of the trimmed map text, split at `\n` or `\r\n`. */
  function MapLines(text: string): seq<string>
  {
    SplitLines(Trim(text))
  }

  /** Whether a map character is an obstacle. */
  predicate IsObstacle(c: char)
  {
    c == '@' || c == 'T'
  }

  /** `[...row].map((val) => val === "@" || val === "T")`. */
  function ParseRow(row: string): (cells: seq<bool>)
    ensures |cells| == |row|
    ensures forall j :: 0 <= j < |row| ==> (cells[j] <==> IsObstacle(row[j]))
  {
    seq(|row|, j requires 0 <= j < |row| => IsObstacle(row[j]))
  }

  /**
   * `parseMap`: every line after the first four becomes a row of cells, one
   * per character, true exactly at obstacles.
   */
  function ParseMap(text: string): (grid: seq<seq<bool>>)
    ensures var lines := MapLines(text);
      |grid| == Max(0, |lines| - 4)
      && forall i :: 0 <= i < |grid| ==>
           |grid[i]| == |lines[i + 4]|
           && forall j :: 0 <= j < |grid[i]| ==> (grid[i][j] <==> IsObstacle(lines[i + 4][j]))
  {
    var lines := MapLines(text);
    var body := if |lines| <= 4 then [] else lines[4..];
    seq(|body|, i requires 0 <= i < |body| => ParseRow(body[i]))
  }

  /** Trimming keeps the property that every carriage return precedes a line feed. */
  lemma TrimKeepsCrBeforeLf(s: string)
    requires CrOnlyBeforeLf(s)
    ensures CrOnlyBeforeLf(Trim(s))
  {
    var r := Trim(s);
    var i := SkipForward(s, Whitespace, 0);
    assert r == s[i..i + |r|];
    if r != [] {
      assert r[|r| - 1] != '\r';
    }
    forall k | 0 <= k < |r| && r[k] == '\r' ensures k + 1 < |r| && r[k + 1] == '\n' {
      assert s[i + k] == '\r';
      assert r[k + 1] == s[i + k + 1];
    }
  }

  /**
   * The lines that become map rows hold no line feed, and when every
   * carriage return of the file ends a line, no carriage return either: a
   * `\r\n` line ending never becomes a cell.
   */
  lemma MapRowsHaveNoLineBreaks(text: string)
    ensures forall l, j :: l in MapLines(text) && 0 <= j < |l| ==> l[j] != '\n'
    ensures CrOnlyBeforeLf(text) ==>
      forall l, j :: l in MapLines(text) && 0 <= j < |l| ==> l[j] != '\r'
  {
    SplitLinesHaveNoLf(Trim(text));
    if CrOnlyBeforeLf(text) {
      TrimKeepsCrBeforeLf(text);
      SplitLinesDropsCr(Trim(text));
    }
  }

  /** The header fields of a map file. */
  datatype Meta = Meta(width: Number, height: Number, kind: string)

  /** `last(c.split(" "))`: the last space-separated token of a header line. */
  function LastToken(line: string): string
  {
    Last(Split(line, " "))
  }

  /**
   * The last token is the suffix of the line after its last space: it
   * contains no space and is either the whole line or preceded by a space.
   */
  lemma LastTokenIsLastWord(line: string)
    ensures var token := LastToken(line);
      |token| <= |line| && token == line[|line| - |token|..]
      && (forall j :: 0 <= j < |token| ==> token[j] != ' ')
      && (|token| == |line| || line[|line| - |token| - 1] == ' ')
  {
    var token := LastToken(line);
    SplitLastPiece(line, " ", token);
    SplitPiecesAvoidSeparator(line, " ");
    NoOccurrenceOfChar(token, ' ');
    if |token| < |line| {
      var j := |line| - |token| - 1;
      assert OccursAt(line, " ", j);
      assert line[j] == line[j..j + 1][0];
    }
  }

  /**
   * `parseMapMeta`: the last token of the first line is the type, that of
   * the second the height and that of the third the width, read as numbers.
   * A file of fewer than three lines leaves a line undefined, and
   * `c.split` throws.
   */
  function ParseMapMeta(text: string): (meta: Option<Meta>)
    ensures var lines := MapLines(text);
      (meta.None? <==> |lines| < 3)
      && (meta.Some? ==>
            meta.value.kind == LastToken(lines[0])
            && meta.value.height == ToNumber(LastToken(lines[1]))
            && meta.value.width == ToNumber(LastToken(lines[2])))
  {
    var lines := MapLines(text);
    if |lines| < 3 then None
    else Some(Meta(ToNumber(LastToken(lines[2])), ToNumber(LastToken(lines[1])), LastToken(lines[0])))
  }

  /** The positions of a suffix without spaces hold no space. */
  lemma SpaceFreeSuffix(line: string, suffix: string)
    requires |suffix| <= |line| && suffix == line[|line| - |suffix|..]
    requires forall j :: 0 <= j < |suffix| ==> suffix[j] != ' '
    ensures forall j :: |line| - |suffix| <= j < |line| ==> line[j] != ' '
  {
    forall j | |line| - |suffix| <= j < |line| ensures line[j] != ' ' {
      assert line[j] == suffix[j - (|line| - |suffix|)];
    }
  }

  /** A header line `name value` with a decimal value yields that value. */
  lemma HeaderValue(name: string, n: nat)
    requires forall j :: 0 <= j < |name| ==> name[j] != ' '
    ensures ToNumber(LastToken(name + " " + NatToString(n))) == Num(n as real)
  {
    var digits := NatToString(n);
    var line := name + " " + digits;
    var token := LastToken(line);
    LastTokenIsLastWord(line);
    assert digits == line[|line| - |digits|..];
    assert forall j :: 0 <= j < |digits| ==> digits[j] != ' ' by {
      forall j | 0 <= j < |digits| ensures digits[j] != ' ' {
        assert IsDigit(digits[j]);
      }
    }
    SpaceFreeSuffix(line, digits);
    SpaceFreeSuffix(line, token);
    assert line[|line| - |digits| - 1] == ' ';
    assert |token| == |digits|;
    IntToStringRoundTrip(n);
  }
}
