/**
 * The pieces of Python's `str` behaviour that the environment manager relies on
 * when it parses the output of the version manager: `isspace`, `strip`,
 * `lstrip(chars)`, `split()` and `splitlines()`.
 */
module Text {

  import opened Values

  /** `c.isspace()` in Python 3: the characters `str.strip()` and `str.split()` break on. */
  predicate IsSpace(c: char)
  {
    || c == ' ' || c == '\t' || c == '\n' || c == '\r'
    || c == '\U{0B}' || c == '\U{0C}'
    || c == '\U{1C}' || c == '\U{1D}' || c == '\U{1E}' || c == '\U{1F}'
    || c == '\U{85}' || c == '\U{A0}' || c == '\U{1680}'
    || ('\U{2000}' <= c <= '\U{200A}')
    || c == '\U{2028}' || c == '\U{2029}' || c == '\U{202F}' || c == '\U{205F}'
    || c == '\U{3000}'
  }

  /** The line boundaries recognised by `str.splitlines()`. */
  predicate IsLineBreak(c: char)
  {
    || c == '\n' || c == '\r' || c == '\U{0B}' || c == '\U{0C}'
    || c == '\U{1C}' || c == '\U{1D}' || c == '\U{1E}'
    || c == '\U{85}' || c == '\U{2028}' || c == '\U{2029}'
  }

  /** The number of whitespace characters at the start of `s`. */
  function SpaceRun(s: string): (k: nat)
    ensures k <= |s|
    ensures forall i :: 0 <= i < k ==> IsSpace(s[i])
    ensures k < |s| ==> !IsSpace(s[k])
  {
    if s != [] && IsSpace(s[0]) then 1 + SpaceRun(s[1..]) else 0
  }

  /** The number of whitespace characters at the end of `s`. */
  function TrailingSpaceRun(s: string): (k: nat)
    ensures k <= |s|
    ensures forall i :: |s| - k <= i < |s| ==> IsSpace(s[i])
    ensures k < |s| ==> !IsSpace(s[|s| - 1 - k])
  {
    if s != [] && IsSpace(s[|s| - 1]) then 1 + TrailingSpaceRun(s[..|s| - 1]) else 0
  }

  /** `s.lstrip()`. */
  function TrimStart(s: string): string
  {
    s[SpaceRun(s)..]
  }

  /** `s.rstrip()`. */
  function TrimEnd(s: string): string
  {
    s[..|s| - TrailingSpaceRun(s)]
  }

  /**
   * `s.strip()`: the part of `s` that starts after its leading whitespace and ends
   * before its trailing whitespace; neither end of it is whitespace, and it is empty
   * exactly when `s` is all whitespace.
   */
  function Strip(s: string): (r: string)
    ensures SpaceRun(s) + |r| <= |s| && r == s[SpaceRun(s)..SpaceRun(s) + |r|]
    ensures forall i :: SpaceRun(s) + |r| <= i < |s| ==> IsSpace(s[i])
    ensures r == [] || (!IsSpace(r[0]) && !IsSpace(r[|r| - 1]))
    ensures r == [] <==> forall i :: 0 <= i < |s| ==> IsSpace(s[i])
  {
    var a := SpaceRun(s);
    var t := TrimStart(s);
    assert t == [] || !IsSpace(t[0]);
    var r := TrimEnd(t);
    assert forall i :: a + |r| <= i < |s| ==> s[i] == t[i - a];
    r
  }

  /** The number of copies of `c` at the start of `s`. */
  function CharRun(s: string, c: char): (k: nat)
    ensures k <= |s|
    ensures forall i :: 0 <= i < k ==> s[i] == c
    ensures k < |s| ==> s[k] != c
  {
    if s != [] && s[0] == c then 1 + CharRun(s[1..], c) else 0
  }

  /** `s.lstrip(c)` for a one-character argument: drops every leading `c`. */
  function DropLeading(s: string, c: char): string
  {
    s[CharRun(s, c)..]
  }

  /** The length of the longest prefix of `s` holding no whitespace. */
  function WordLength(s: string): (k: nat)
    ensures k <= |s|
    ensures forall i :: 0 <= i < k ==> !IsSpace(s[i])
    ensures k < |s| ==> IsSpace(s[k])
  {
    if s != [] && !IsSpace(s[0]) then 1 + WordLength(s[1..]) else 0
  }

  /** `s.split()[0]`: the first whitespace-separated token, or None where Python raises IndexError. */
  function FirstToken(s: string): (r: Option<string>)
    ensures r.None? <==> forall i :: 0 <= i < |s| ==> IsSpace(s[i])
    ensures r.Some? ==> r.value != [] && forall i :: 0 <= i < |r.value| ==> !IsSpace(r.value[i])
    ensures r.Some? ==> SpaceRun(s) + |r.value| <= |s| && r.value == s[SpaceRun(s)..SpaceRun(s) + |r.value|]
    ensures r.Some? && SpaceRun(s) + |r.value| < |s| ==> IsSpace(s[SpaceRun(s) + |r.value|])
  {
    var t := TrimStart(s);
    if t == [] then None else Some(t[..WordLength(t)])
  }

  /** Leading whitespace does not change the first token. */
  lemma {:induction false} FirstTokenAfterSpaces(s: string, a: nat)
    requires a <= |s| && forall i :: 0 <= i < a ==> IsSpace(s[i])
    ensures FirstToken(s) == FirstToken(s[a..])
  {
    var b := SpaceRun(s[a..]);
    assert a + b < |s| ==> s[a + b] == s[a..][b];
    assert SpaceRun(s) == a + b by {
      assert forall i :: a <= i < a + b ==> s[i] == s[a..][i - a];
    }
    assert TrimStart(s) == TrimStart(s[a..]);
  }

  /** Trailing whitespace does not change the first token. */
  lemma {:induction false} FirstTokenBeforeSpaces(s: string, e: nat)
    requires e <= |s| && forall i :: e <= i < |s| ==> IsSpace(s[i])
    ensures FirstToken(s) == FirstToken(s[..e])
  {
    var x := s[..e];
    var b := SpaceRunOfPrefix(s, e);
    if b < e {
      WordOfPadded(TrimStart(x), TrimStart(s));
    }
  }

  /**
   * Whitespace that runs to the end of `s` after `e`: the leading whitespace of `s`
   * is that of `s[..e]`, or all of `s` when `s[..e]` is blank.
   */
  lemma {:induction false} SpaceRunOfPrefix(s: string, e: nat) returns (b: nat)
    requires e <= |s| && forall i :: e <= i < |s| ==> IsSpace(s[i])
    ensures b == SpaceRun(s[..e])
    ensures b < e ==> SpaceRun(s) == b && TrimStart(s[..e]) == TrimStart(s)[..e - b]
    ensures b == e ==> TrimStart(s) == []
  {
    var x := s[..e];
    b := SpaceRun(x);
    assert forall i :: 0 <= i < e ==> s[i] == x[i];
    if b < e {
      assert s[b] == x[b];
      assert TrimStart(x) == TrimStart(s)[..e - b];
    }
  }

  /** A word followed only by whitespace, or by nothing, has the word's length. */
  lemma {:induction false} WordOfPadded(t: string, u: string)
    requires |t| <= |u| && t == u[..|t|]
    requires forall i :: |t| <= i < |u| ==> IsSpace(u[i])
    ensures WordLength(u) == WordLength(t) && u[..WordLength(u)] == t[..WordLength(t)]
  {
    var k := WordLength(t);
    assert forall i :: 0 <= i < |t| ==> u[i] == t[i];
    if k < |t| {
      assert IsSpace(u[k]);
    } else if k < |u| {
      assert IsSpace(u[k]);
    }
  }

  /** `strip()` does not change the first token. */
  lemma {:induction false} StripKeepsFirstToken(u: string)
    ensures FirstToken(Strip(u)) == FirstToken(u)
  {
    var a := StripOfRest(u);
    FirstTokenAfterSpaces(u, a);
    FirstTokenBeforeSpaces(u[a..], |Strip(u)|);
  }

  /** `strip()` is `lstrip()` cut before a run of whitespace that lasts to the end. */
  lemma {:induction false} StripOfRest(u: string) returns (a: nat)
    ensures a == SpaceRun(u) && |Strip(u)| <= |u[a..]| && Strip(u) == u[a..][..|Strip(u)|]
    ensures forall i :: |Strip(u)| <= i < |u[a..]| ==> IsSpace(u[a..][i])
  {
    a := SpaceRun(u);
    var r := Strip(u);
    var v := u[a..];
    assert forall i :: |r| <= i < |v| ==> v[i] == u[a + i];
    assert v[..|r|] == r;
  }

  /** The index of the first line boundary in `s`, or `|s|` when there is none. */
  function LineEnd(s: string): (k: nat)
    ensures k <= |s|
    ensures forall j :: 0 <= j < k ==> !IsLineBreak(s[j])
    ensures k < |s| ==> IsLineBreak(s[k])
  {
    if s == [] || IsLineBreak(s[0]) then 0 else 1 + LineEnd(s[1..])
  }

  /**
   * `s.splitlines()`: the lines of `s` without their boundaries; "\r\n" is one
   * boundary, and a boundary at the very end does not start another line.
   */
  function SplitLines(s: string): (lines: seq<string>)
    ensures forall i, j :: 0 <= i < |lines| && 0 <= j < |lines[i]| ==> !IsLineBreak(lines[i][j])
    ensures s == [] <==> lines == []
    ensures s != [] && (forall j :: 0 <= j < |s| ==> !IsLineBreak(s[j])) ==> lines == [s]
    decreases |s|
  {
    if s == [] then []
    else
      var k := LineEnd(s);
      if k == |s| then [s]
      else
        var next := if s[k] == '\r' && k + 1 < |s| && s[k + 1] == '\n' then k + 2 else k + 1;
        [s[..k]] + SplitLines(s[next..])
  }

  /** Every line followed by "\n", as a program that prints the lines would write them. */
  function Terminated(lines: seq<string>): string
  {
    if lines == [] then [] else lines[0] + "\n" + Terminated(lines[1..])
  }

  /** Splitting text printed one line per "\n" gives back exactly the printed lines. */
  lemma {:induction false} SplitTerminated(lines: seq<string>)
    requires forall i, j :: 0 <= i < |lines| && 0 <= j < |lines[i]| ==> !IsLineBreak(lines[i][j])
    ensures SplitLines(Terminated(lines)) == lines
  {
    SplitPrinted(lines, []);
    assert Terminated(lines) + [] == Terminated(lines);
  }

  /**
   * Splitting text printed one line per "\n", followed by a last line without a
   * final newline, gives back the printed lines and that last line (when it is
   * not empty).
   */
  lemma {:induction false} SplitPrinted(lines: seq<string>, last: string)
    requires forall i, j :: 0 <= i < |lines| && 0 <= j < |lines[i]| ==> !IsLineBreak(lines[i][j])
    requires forall j :: 0 <= j < |last| ==> !IsLineBreak(last[j])
    ensures SplitLines(Terminated(lines) + last) == lines + (if last == [] then [] else [last])
  {
    if lines == [] {
      assert Terminated(lines) + last == last;
    } else {
      var rest := Terminated(lines[1..]) + last;
      assert Terminated(lines) + last == lines[0] + "\n" + rest;
      SplitAfterLine(lines[0], rest);
      SplitPrinted(lines[1..], last);
      assert lines == [lines[0]] + lines[1..];
    }
  }

  /** A line without boundaries followed by "\n" splits off as the first line. */
  lemma {:induction false} SplitAfterLine(head: string, rest: string)
    requires forall j :: 0 <= j < |head| ==> !IsLineBreak(head[j])
    ensures SplitLines(head + "\n" + rest) == [head] + SplitLines(rest)
  {
    var s := head + "\n" + rest;
    assert s[..|head|] == head;
    assert s[|head|] == '\n';
    LineEndAt(s, |head|);
    assert s[|head| + 1..] == rest;
  }

  /** A boundary at `k` with none before it is where `LineEnd` stops. */
  lemma {:induction false} LineEndAt(s: string, k: nat)
    requires k < |s| && IsLineBreak(s[k])
    requires forall j :: 0 <= j < k ==> !IsLineBreak(s[j])
    ensures LineEnd(s) == k
  {
    if k > 0 {
      LineEndAt(s[1..], k - 1);
    }
  }
}
