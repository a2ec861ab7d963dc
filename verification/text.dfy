/**
 * The string built-ins the visualiser relies on: `String.prototype.trim`,
 * lodash `trim(s, chars)`, `split` on a literal separator, `split(/\r?\n/)`,
 * `join`, and the conversions between strings and numbers that `+s` and
 * template literals perform.
 */
module Text {
  import opened Js

  /** The characters JavaScript's `trim` and the pattern `\s` treat as white space. */
  const Whitespace: set<char> := {
    '\t', '\n', '\U{000B}', '\U{000C}', '\r', ' ', '\U{00A0}', '\U{1680}',
    '\U{2000}', '\U{2001}', '\U{2002}', '\U{2003}', '\U{2004}', '\U{2005}',
    '\U{2006}', '\U{2007}', '\U{2008}', '\U{2009}', '\U{200A}', '\U{2028}',
    '\U{2029}', '\U{202F}', '\U{205F}', '\U{3000}', '\U{FEFF}'
  }

  function Last<T>(s: seq<T>): T
    requires |s| > 0
  {
    s[|s| - 1]
  }

  /** The first index at or after `i` whose character is not in `drop`, or `|s|`. */
  function SkipForward(s: string, drop: set<char>, i: nat): (j: nat)
    requires i <= |s|
    ensures i <= j <= |s|
    ensures forall k :: i <= k < j ==> s[k] in drop
    ensures j == |s| || s[j] !in drop
    decreases |s| - i
  {
    if i < |s| && s[i] in drop then SkipForward(s, drop, i + 1) else i
  }

  /** The end of `s[lo..e]` once the characters of `drop` at its end are removed. */
  function SkipBackward(s: string, drop: set<char>, lo: nat, e: nat): (j: nat)
    requires lo <= e <= |s|
    ensures lo <= j <= e
    ensures forall k :: j <= k < e ==> s[k] in drop
    ensures j == lo || s[j - 1] !in drop
    decreases e
  {
    if lo < e && s[e - 1] in drop then SkipBackward(s, drop, lo, e - 1) else e
  }

  /**
   * lodash `trim(s, chars)`: strips characters of `drop` from both ends. The
   * result is the slice of `s` that starts at the first character outside
   * `drop`; everything before and after it is in `drop`, and it neither
   * starts nor ends with a character of `drop`.
   */
  function TrimChars(s: string, drop: set<char>): (r: string)
    ensures var i := SkipForward(s, drop, 0);
      i + |r| <= |s| && r == s[i..i + |r|]
      && (forall k :: 0 <= k < i ==> s[k] in drop)
      && (forall k :: i + |r| <= k < |s| ==> s[k] in drop)
      && (r == [] || (r[0] !in drop && r[|r| - 1] !in drop))
  {
    var i := SkipForward(s, drop, 0);
    s[i..SkipBackward(s, drop, i, |s|)]
  }

  /** `s.trim()`, and lodash `trim(s)` with no character list. */
  function Trim(s: string): string
  {
    TrimChars(s, Whitespace)
  }

  /** `sep` occurs in `s` starting at index `i`. */
  predicate OccursAt(s: string, sep: string, i: int)
  {
    0 <= i && i + |sep| <= |s| && s[i..i + |sep|] == sep
  }

  /** `s.indexOf(sep)`: the first index at which `sep` occurs, or -1. */
  function IndexOf(s: string, sep: string): (k: int)
    ensures -1 <= k <= |s|
    ensures k >= 0 ==> OccursAt(s, sep, k)
    ensures forall i :: 0 <= i && (k < 0 || i < k) ==> !OccursAt(s, sep, i)
    decreases |s|
  {
    if |s| < |sep| then -1
    else if s[..|sep|] == sep then 0
    else
      var j := IndexOf(s[1..], sep);
      ShiftOccurrence(s, sep);
      if j < 0 then -1 else j + 1
  }

  lemma ShiftOccurrence(s: string, sep: string)
    requires |s| > 0
    ensures forall i :: 1 <= i ==> (OccursAt(s, sep, i) <==> OccursAt(s[1..], sep, i - 1))
  {
    forall i | 1 <= i ensures OccursAt(s, sep, i) <==> OccursAt(s[1..], sep, i - 1) {
      if i + |sep| <= |s| {
        var a, b := s[i..i + |sep|], s[1..][i - 1..i - 1 + |sep|];
        assert |a| == |b|;
        forall t | 0 <= t < |a| ensures a[t] == b[t] {
          assert a[t] == s[i + t];
          assert b[t] == s[1..][i - 1 + t];
        }
        assert a == b;
      }
    }
  }

  /** `s.split(sep)` for a non-empty literal separator. */
  function Split(s: string, sep: string): (parts: seq<string>)
    requires |sep| > 0
    ensures |parts| >= 1
    decreases |s|
  {
    var k := IndexOf(s, sep);
    if k < 0 then [s] else [s[..k]] + Split(s[k + |sep|..], sep)
  }

  /** `parts.join(sep)`. */
  function Join(parts: seq<string>, sep: string): string
  {
    if |parts| == 0 then []
    else if |parts| == 1 then parts[0]
    else parts[0] + sep + Join(parts[1..], sep)
  }

  /** Splitting and joining again with the same separator gives back the text. */
  lemma {:induction false} SplitJoin(s: string, sep: string)
    requires |sep| > 0
    ensures Join(Split(s, sep), sep) == s
    decreases |s|
  {
    var k := IndexOf(s, sep);
    if k >= 0 {
      var rest := Split(s[k + |sep|..], sep);
      SplitJoin(s[k + |sep|..], sep);
      assert Split(s, sep) == [s[..k]] + rest;
      assert ([s[..k]] + rest)[1..] == rest;
      assert s == s[..k] + s[k..k + |sep|] + s[k + |sep|..];
    }
  }

  /** No piece of a split contains the separator. */
  lemma {:induction false} SplitPiecesAvoidSeparator(s: string, sep: string)
    requires |sep| > 0
    ensures forall p, i :: p in Split(s, sep) ==> !OccursAt(p, sep, i)
    decreases |s|
  {
    var k := IndexOf(s, sep);
    if k >= 0 {
      SplitPiecesAvoidSeparator(s[k + |sep|..], sep);
      forall i | OccursAt(s[..k], sep, i) ensures false {
        assert s[..k][i..i + |sep|] == s[i..i + |sep|];
        assert OccursAt(s, sep, i);
      }
    }
  }

  /** The first piece of a split is a prefix, ended by the text's end or by a separator. */
  lemma SplitFirstPiece(s: string, sep: string)
    requires |sep| > 0
    ensures var p := Split(s, sep)[0];
      p == s[..|p|] && (|p| == |s| || OccursAt(s, sep, |p|))
  {
  }

  /** The last piece of a split is a suffix, begun by the text's start or by a separator. */
  lemma {:induction false} SplitLastPiece(s: string, sep: string, p: string)
    requires |sep| > 0 && p == Last(Split(s, sep))
    ensures |p| <= |s| && p == s[|s| - |p|..]
    ensures |p| == |s| || OccursAt(s, sep, |s| - |p| - |sep|)
    decreases |s|
  {
    var k := IndexOf(s, sep);
    if k >= 0 {
      var rest := s[k + |sep|..];
      SplitLastOfRest(s, sep, k, p);
      SplitLastPiece(rest, sep, p);
      LastPieceStep(s, sep, k + |sep|, p);
    } else {
      assert Split(s, sep) == [s];
    }
  }

  /** Past the first separator, the last piece is the last piece of the rest. */
  lemma SplitLastOfRest(s: string, sep: string, k: int, p: string)
    requires |sep| > 0 && k == IndexOf(s, sep) && k >= 0 && p == Last(Split(s, sep))
    ensures p == Last(Split(s[k + |sep|..], sep))
  {
    var parts := Split(s[k + |sep|..], sep);
    assert Split(s, sep) == [s[..k]] + parts;
  }

  lemma LastPieceStep(s: string, sep: string, off: nat, p: string)
    requires |sep| <= off <= |s|
    requires |p| <= |s| - off && p == s[off..][|s| - off - |p|..]
    requires |p| == |s| - off || OccursAt(s[off..], sep, |s| - off - |p| - |sep|)
    requires OccursAt(s, sep, off - |sep|)
    ensures |p| <= |s| && p == s[|s| - |p|..]
    ensures |p| == |s| || OccursAt(s, sep, |s| - |p| - |sep|)
  {
    SuffixOfSuffix(s, off, |p|);
    if |p| < |s| - off {
      OccursInSuffix(s, sep, off, |s| - off - |p| - |sep|);
    }
  }

  lemma SuffixOfSuffix(s: string, off: nat, n: nat)
    requires off + n <= |s|
    ensures s[off..][|s| - off - n..] == s[|s| - n..]
  {
  }

  lemma OccursInSuffix(s: string, sep: string, off: nat, j: int)
    requires off <= |s| && OccursAt(s[off..], sep, j)
    ensures OccursAt(s, sep, off + j)
  {
    assert s[off..][j..j + |sep|] == s[off + j..off + j + |sep|];
  }

  /** A text in which a one-character separator does not occur avoids that character. */
  lemma NoOccurrenceOfChar(p: string, c: char)
    requires forall i :: !OccursAt(p, [c], i)
    ensures forall i :: 0 <= i < |p| ==> p[i] != c
  {
    forall i | 0 <= i < |p| ensures p[i] != c {
      assert !OccursAt(p, [c], i);
      assert p[i..i + 1] == [p[i]];
    }
  }

  /** The number of occurrences of `c` in `s`. */
  function Count(s: string, c: char): nat
  {
    if s == [] then 0 else (if s[0] == c then 1 else 0) + Count(s[1..], c)
  }

  lemma {:induction false} CountConcat(a: string, b: string, c: char)
    ensures Count(a + b, c) == Count(a, c) + Count(b, c)
  {
    if a == [] {
      assert a + b == b;
    } else {
      assert (a + b)[0] == a[0];
      assert (a + b)[1..] == a[1..] + b;
      CountConcat(a[1..], b, c);
    }
  }

  lemma {:induction false} CountAbsent(s: string, c: char)
    requires forall i :: 0 <= i < |s| ==> s[i] != c
    ensures Count(s, c) == 0
  {
    if s != [] {
      CountAbsent(s[1..], c);
    }
  }

  /** Splitting on one character gives one more piece than it has occurrences. */
  lemma {:induction false} SplitCount(s: string, c: char)
    ensures |Split(s, [c])| == Count(s, c) + 1
    decreases |s|
  {
    var k := IndexOf(s, [c]);
    forall i | 0 <= i < |s| && (k < 0 || i < k) ensures s[i] != c {
      assert !OccursAt(s, [c], i);
      assert s[i..i + 1] == [s[i]];
    }
    if k < 0 {
      CountAbsent(s, c);
    } else {
      assert s[k..k + 1] == [c];
      SplitCount(s[k + 1..], c);
      CountAbsent(s[..k], c);
      assert s == s[..k] + [c] + s[k + 1..];
      CountConcat(s[..k] + [c], s[k + 1..], c);
      CountConcat(s[..k], [c], c);
    }
  }

  /** Removes one trailing carriage return. */
  function DropCr(p: string): string
  {
    if |p| > 0 && Last(p) == '\r' then p[..|p| - 1] else p
  }

  /**
   * `s.split(/\r?\n/)`: the pieces between line feeds, where a carriage
   * return directly before a line feed is consumed with it. The last piece
   * is not followed by a line feed and keeps its characters.
   */
  function SplitLines(s: string): (lines: seq<string>)
    ensures |lines| == |Split(s, "\n")|
  {
    var parts := Split(s, "\n");
    seq(|parts|, i requires 0 <= i < |parts| =>
      if i < |parts| - 1 then DropCr(parts[i]) else parts[i])
  }

  /** Every carriage return in `s` is immediately followed by a line feed. */
  predicate CrOnlyBeforeLf(s: string)
  {
    forall i :: 0 <= i < |s| && s[i] == '\r' ==> i + 1 < |s| && s[i + 1] == '\n'
  }

  /** Before the first line feed of `s` there is no line feed. */
  lemma NoLfBeforeFirst(s: string, k: int)
    requires k == IndexOf(s, "\n")
    ensures forall j :: 0 <= j < |s| && (k < 0 || j < k) ==> s[j] != '\n'
  {
    forall j | 0 <= j < |s| && (k < 0 || j < k) ensures s[j] != '\n' {
      assert !OccursAt(s, "\n", j);
      assert s[j..j + 1] == [s[j]];
    }
  }

  /**
   * When every carriage return precedes a line feed, the only carriage
   * return before the first line feed stands directly in front of it.
   */
  lemma CrBeforeFirstLf(s: string, k: int)
    requires CrOnlyBeforeLf(s) && k == IndexOf(s, "\n")
    ensures forall j :: 0 <= j < |s| && (k < 0 || j < k) && s[j] == '\r' ==> j == k - 1
  {
    NoLfBeforeFirst(s, k);
    forall j | 0 <= j < |s| && (k < 0 || j < k) && s[j] == '\r' ensures j == k - 1 {
      assert s[j + 1] == '\n';
    }
  }

  /**
   * In a split on line feeds of text whose carriage returns all stand before
   * a line feed, a carriage return can only be the last character of a piece
   * that is not the last piece.
   */
  lemma {:induction false} SplitLfLeavesCrAtEnds(s: string, parts: seq<string>)
    requires CrOnlyBeforeLf(s) && parts == Split(s, "\n")
    ensures forall i, j :: 0 <= i < |parts| && 0 <= j < |parts[i]| && parts[i][j] == '\r' ==>
        i < |parts| - 1 && j == |parts[i]| - 1
    decreases |s|
  {
    var k := IndexOf(s, "\n");
    CrBeforeFirstLf(s, k);
    if k >= 0 {
      var rest := s[k + 1..];
      assert CrOnlyBeforeLf(rest) by {
        forall i | 0 <= i < |rest| && rest[i] == '\r' ensures i + 1 < |rest| && rest[i + 1] == '\n' {
          assert s[k + 1 + i] == '\r';
        }
      }
      var restParts := Split(rest, "\n");
      SplitLfLeavesCrAtEnds(rest, restParts);
      assert parts == [s[..k]] + restParts;
      forall i, j | 0 <= i < |parts| && 0 <= j < |parts[i]| && parts[i][j] == '\r'
        ensures i < |parts| - 1 && j == |parts[i]| - 1
      {
        if i == 0 {
          assert parts[0] == s[..k] && s[j] == '\r';
        } else {
          assert parts[i] == restParts[i - 1];
        }
      }
    } else {
      assert parts == [s];
      forall j | 0 <= j < |s| ensures s[j] != '\r' {
      }
    }
  }

  /** When every carriage return precedes a line feed, no line keeps one. */
  lemma SplitLinesDropsCr(s: string)
    requires CrOnlyBeforeLf(s)
    ensures forall l, j :: l in SplitLines(s) && 0 <= j < |l| ==> l[j] != '\r'
  {
    var parts := Split(s, "\n");
    var lines := SplitLines(s);
    SplitLfLeavesCrAtEnds(s, parts);
    forall i, j | 0 <= i < |lines| && 0 <= j < |lines[i]| ensures lines[i][j] != '\r' {
      var p := parts[i];
      if i < |parts| - 1 && |p| > 0 && p[|p| - 1] == '\r' {
        assert lines[i] == p[..|p| - 1];
        assert lines[i][j] == p[j];
        assert j < |p| - 1;
      } else {
        assert lines[i] == p;
        assert parts[i][j] != '\r';
      }
    }
  }

  /** No line produced by `SplitLines` contains a line feed. */
  lemma SplitLinesHaveNoLf(s: string)
    ensures forall l, j :: l in SplitLines(s) && 0 <= j < |l| ==> l[j] != '\n'
  {
    var parts := Split(s, "\n");
    var lines := SplitLines(s);
    SplitPiecesAvoidSeparator(s, "\n");
    forall i, j | 0 <= i < |lines| && 0 <= j < |lines[i]| ensures lines[i][j] != '\n' {
      assert parts[i] in parts;
      assert !OccursAt(parts[i], "\n", j);
      assert lines[i][j] == parts[i][j];
      assert parts[i][j..j + 1] == [parts[i][j]];
    }
  }

  predicate IsDigit(c: char) { '0' <= c <= '9' }

  function DigitValue(c: char): nat
    requires IsDigit(c)
  {
    (c as int) - ('0' as int)
  }

  function DigitChar(d: nat): (c: char)
    requires d < 10
    ensures IsDigit(c) && DigitValue(c) == d
  {
    ('0' as int + d) as char
  }

  predicate AllDigits(s: string)
  {
    forall i :: 0 <= i < |s| ==> IsDigit(s[i])
  }

  /** The value of a string of decimal digits. */
  function DigitsValue(s: string): nat
    requires AllDigits(s)
  {
    if s == [] then 0 else DigitsValue(s[..|s| - 1]) * 10 + DigitValue(Last(s))
  }

  /**
   * `+s` (JavaScript `Number(s)`) on the integer literals the visualiser's
   * input files contain: surrounding white space is ignored, the empty string
   * is 0, and an optionally signed run of decimal digits is that integer.
   */
  function ToNumber(s: string): (n: Number)
    ensures Trim(s) == [] ==> n == Num(0.0)
  {
    var t := Trim(s);
    if t == [] then Num(0.0)
    else if AllDigits(t) then Num(DigitsValue(t) as real)
    else if |t| > 1 && t[0] in {'+', '-'} && AllDigits(t[1..]) then
      var v := DigitsValue(t[1..]) as real;
      Num(if t[0] == '-' then -v else v)
    else NaN
  }

  /** The decimal digits of `n`, as `String(n)` writes them. */
  function NatToString(n: nat): (s: string)
    ensures |s| > 0 && AllDigits(s)
  {
    if n < 10 then [DigitChar(n)] else NatToString(n / 10) + [DigitChar(n % 10)]
  }

  /** `String(n)` for an integer. */
  function IntToString(n: int): string
  {
    if n < 0 then "-" + NatToString(-n) else NatToString(n)
  }

  /** Reading back the digits of `n` gives `n`. */
  lemma {:induction false} NatToStringRoundTrip(n: nat)
    ensures DigitsValue(NatToString(n)) == n
  {
    var s := NatToString(n);
    if n >= 10 {
      NatToStringRoundTrip(n / 10);
      assert s[..|s| - 1] == NatToString(n / 10);
    }
  }

  /** `+String(n)` is `n` again for every integer. */
  lemma IntToStringRoundTrip(n: int)
    ensures ToNumber(IntToString(n)) == Num(n as real)
  {
    var s := IntToString(n);
    var d := NatToString(if n < 0 then -n else n);
    NatToStringRoundTrip(if n < 0 then -n else n);
    assert !IsDigit('-');
    assert forall i :: 0 <= i < |s| ==> s[i] !in Whitespace;
    assert Trim(s) == s;
    if n < 0 {
      assert s[1..] == d;
      assert !AllDigits(s);
    }
  }
}
