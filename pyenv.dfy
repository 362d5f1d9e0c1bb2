/**
 * The interpreter-resolution helpers of `EnvironmentManager`
 * (env_manager/environment.py): the full-version check, the two `pyenv which`
 * lookups with their fallback to the running interpreter, and the parsing of
 * `pyenv versions` that decides whether `pyenv install` is needed.
 *
 * Every subprocess result is a `Launch` parameter: the model does not run anything.
 */
module Pyenv {

  import opened Values
  import opened Text
  import opened Utils

  // ---------------------------------------------------------------------------
  // _is_valid_python_version: re.match(r"^\d+\.\d+\.\d+$", version)
  // ---------------------------------------------------------------------------

  predicate IsDigit(c: char)
  {
    '0' <= c <= '9'
  }

  predicate AllDigits(s: string)
  {
    forall i :: 0 <= i < |s| ==> IsDigit(s[i])
  }

  /** The length of the run of digits at the start of `s` (what a greedy `\d+` consumes). */
  function DigitRun(s: string): (k: nat)
    ensures k <= |s|
    ensures k < |s| ==> !IsDigit(s[k])
  {
    if s != [] && IsDigit(s[0]) then 1 + DigitRun(s[1..]) else 0
  }

  /** `\d+\.` at the start of `s`: a digit run followed by a dot. */
  predicate StartsWithNumberDot(s: string)
  {
    var k := DigitRun(s);
    0 < k < |s| && s[k] == '.'
  }

  /** What follows the leading `\d+\.` of `s`. */
  function AfterNumberDot(s: string): string
    requires StartsWithNumberDot(s)
  {
    s[DigitRun(s) + 1..]
  }

  /** `\d+`: a non-empty run of decimal digits. */
  predicate IsNumber(s: string)
  {
    s != [] && AllDigits(s)
  }

  /** `\d+$`: a number that ends the string, or is followed by one final newline. */
  predicate IsFinalNumber(s: string)
  {
    IsNumber(s) || (s != [] && s[|s| - 1] == '\n' && IsNumber(s[..|s| - 1]))
  }

  /**
   * The match of `^\d+\.\d+\.\d+$`: three digit runs separated by dots; Python's `$`
   * also matches just before one newline that ends the string.
   */
  predicate IsValidPythonVersion(version: string)
    ensures IsValidPythonVersion(version) ==> |version| >= 5 && IsDigit(version[0])
    ensures IsValidPythonVersion(version) ==>
      IsDigit(version[|version| - 1]) || (version[|version| - 1] == '\n' && IsDigit(version[|version| - 2]))
  {
    && StartsWithNumberDot(version)
    && StartsWithNumberDot(AfterNumberDot(version))
    && IsFinalNumber(AfterNumberDot(AfterNumberDot(version)))
  }

  /** The strings the pattern describes: `major.minor.micro`, optionally followed by "\n". */
  function FullVersion(major: string, minor: string, micro: string, newline: bool): string
  {
    major + (['.'] + (minor + (['.'] + (micro + (if newline then "\n" else "")))))
  }

  /** A digit run stops where the number does. */
  lemma {:induction false} DigitRunOfNumber(a: string, rest: string)
    requires AllDigits(a)
    requires rest == [] || !IsDigit(rest[0])
    ensures DigitRun(a + rest) == |a|
  {
    if a != [] {
      assert (a + rest)[1..] == a[1..] + rest;
      DigitRunOfNumber(a[1..], rest);
    }
  }

  /** A number followed by `sep` and anything: the digit run stops exactly at `sep`. */
  lemma {:induction false} NumberBeforeSeparator(number: string, sep: char, rest: string)
    requires IsNumber(number) && !IsDigit(sep)
    ensures DigitRun(number + ([sep] + rest)) == |number|
    ensures (number + ([sep] + rest))[|number|] == sep
    ensures (number + ([sep] + rest))[|number| + 1..] == rest
  {
    DigitRunOfNumber(number, [sep] + rest);
  }

  /** Every `major.minor.micro` made of decimal numbers is accepted, with or without one trailing newline. */
  lemma {:induction false} FullVersionsAccepted(major: string, minor: string, micro: string, newline: bool)
    requires IsNumber(major) && IsNumber(minor) && IsNumber(micro)
    ensures IsValidPythonVersion(FullVersion(major, minor, micro, newline))
  {
    var u := micro + (if newline then "\n" else "");
    var t := minor + (['.'] + u);
    NumberBeforeSeparator(major, '.', t);
    NumberBeforeSeparator(minor, '.', u);
    if newline {
      assert u[..|u| - 1] == micro;
    }
  }

  /** A string starting with `\d+\.` is that number, the dot, and what follows. */
  lemma {:induction false} SplitAtDot(s: string) returns (number: string, rest: string)
    requires StartsWithNumberDot(s)
    ensures IsNumber(number) && rest == AfterNumberDot(s)
    ensures s == number + (['.'] + rest)
  {
    var k := DigitRun(s);
    number, rest := s[..k], s[k + 1..];
    DigitRunDigits(s);
    assert s == number + ([s[k]] + rest);
  }

  /** What a digit run covers is all digits. */
  lemma {:induction false} DigitRunDigits(s: string)
    ensures AllDigits(s[..DigitRun(s)])
  {
    if s != [] && IsDigit(s[0]) {
      DigitRunDigits(s[1..]);
      assert s[..DigitRun(s)] == [s[0]] + s[1..][..DigitRun(s[1..])];
    }
  }

  /** Everything accepted has that shape: the check admits nothing but full versions. */
  lemma {:induction false} AcceptedAreFullVersions(version: string) returns (major: string, minor: string, micro: string, newline: bool)
    requires IsValidPythonVersion(version)
    ensures IsNumber(major) && IsNumber(minor) && IsNumber(micro)
    ensures version == FullVersion(major, minor, micro, newline)
  {
    var t: string, u: string;
    major, t := SplitAtDot(version);
    minor, u := SplitAtDot(t);
    micro, newline := SplitFinalNumber(u);
  }

  /** A final `\d+$` is a number, possibly followed by one newline. */
  lemma {:induction false} SplitFinalNumber(s: string) returns (number: string, newline: bool)
    requires IsFinalNumber(s)
    ensures IsNumber(number) && s == number + (if newline then "\n" else "")
  {
    newline := !IsNumber(s);
    if newline {
      number := s[..|s| - 1];
      NewlineAtEnd(s);
    } else {
      number := s;
      EmptySuffix(s);
    }
  }

  /** A string ending in a newline is its other characters followed by "\n". */
  lemma {:induction false} NewlineAtEnd(s: string)
    requires s != [] && s[|s| - 1] == '\n'
    ensures s == s[..|s| - 1] + "\n"
  {
  }

  /** Appending the empty string changes nothing. */
  lemma {:induction false} EmptySuffix(s: string)
    ensures s == s + ""
  {
  }

  /** A release with a two-digit minor number is accepted. */
  lemma {:induction false} ValidVersionExample()
    ensures IsValidPythonVersion("3.10.0")
  {
    FullVersionsAccepted("3", "10", "0", false);
    assert FullVersion("3", "10", "0", false) == "3.10.0";
  }

  /** A string whose last character is not a newline and that holds a non-digit is no final `\d+$`. */
  lemma {:induction false} NotFinalNumber(s: string, i: nat)
    requires i < |s| - 1 && !IsDigit(s[i]) && s[|s| - 1] != '\n'
    ensures !IsFinalNumber(s)
  {
  }

  /** Versions with fewer than three numbers, or with a prefix, are rejected. */
  lemma {:induction false} ShortVersionsRejected()
    ensures !IsValidPythonVersion("3") && !IsValidPythonVersion("3.8") && !IsValidPythonVersion("python3.8")
  {
    assert DigitRun("3") == 1;
    assert DigitRun("3.8") == 1 && AfterNumberDot("3.8") == "8";
    assert DigitRun("8") == 1;
    assert DigitRun("python3.8") == 0;
  }

  /** A pre-release suffix after the micro number is rejected. */
  lemma {:induction false} PrereleaseRejected()
    ensures !IsValidPythonVersion("3.8.0-dev")
  {
    assert DigitRun("3.8.0-dev") == 1 && AfterNumberDot("3.8.0-dev") == "8.0-dev";
    assert DigitRun("8.0-dev") == 1 && AfterNumberDot("8.0-dev") == "0-dev";
    NotFinalNumber("0-dev", 1);
  }

  // ---------------------------------------------------------------------------
  // _get_pyenv_python_path and _find_python
  // ---------------------------------------------------------------------------

  /**
   * `_get_pyenv_python_path`: the answer of `pyenv which python<version>` when the
   * command exits with 0 and prints something besides whitespace; None otherwise,
   * including when the command cannot be started (the exception is caught).
   */
  function GetPyenvPythonPath(which: Launch): (r: Option<string>)
    ensures r.Some? <==> which.Exited? && which.rc == 0 && Strip(which.stdout) != ""
    ensures r.Some? ==> r.value == Strip(which.stdout)
  {
    match RunCommand(which)
    case Raised(_) => None
    case Ok(reply) => if reply.rc == 0 && Strip(reply.out) != "" then Some(Strip(reply.out)) else None
  }

  /**
   * `_find_python`: first `pyenv which python<version>` (`which`); failing that, and
   * only for a full `x.y.z` version, the same query a second time (`whichAgain`);
   * failing both, the running interpreter `sys.executable`. It never yields None.
   */
  function FindPython(version: string, which: Launch, whichAgain: Launch, sysExecutable: string): (r: string)
    ensures GetPyenvPythonPath(which).Some? ==> r == GetPyenvPythonPath(which).value
    ensures GetPyenvPythonPath(which).None? && !IsValidPythonVersion(version) ==> r == sysExecutable
    ensures r == sysExecutable || (r != "" && !IsSpace(r[0]) && !IsSpace(r[|r| - 1]))
  {
    match GetPyenvPythonPath(which)
    case Some(path) => path
    case None =>
      if IsValidPythonVersion(version) then
        match GetPyenvPythonPath(whichAgain)
        case Some(path) => path
        case None => sysExecutable
      else sysExecutable
  }

  /**
   * When neither query gives an answer (pyenv missing or failing, or printing only
   * whitespace), every version resolves to the running interpreter.
   */
  lemma {:induction false} FindPythonWithoutBackend(version: string, which: Launch, whichAgain: Launch, sysExecutable: string)
    requires GetPyenvPythonPath(which).None? && GetPyenvPythonPath(whichAgain).None?
    ensures FindPython(version, which, whichAgain, sysExecutable) == sysExecutable
  {
  }

  /** The second query is made only for full versions: otherwise its answer cannot matter. */
  lemma {:induction false} SecondQueryOnlyForFullVersions(version: string, which: Launch, again1: Launch, again2: Launch, sysExecutable: string)
    requires !IsValidPythonVersion(version)
    ensures FindPython(version, which, again1, sysExecutable) == FindPython(version, which, again2, sysExecutable)
  {
  }

  /**
   * A full version whose first query gives no answer (pyenv missing or failing, or
   * printing only whitespace) is answered by the second query when that one succeeds.
   */
  lemma {:induction false} SecondQueryAnswers(version: string, which: Launch, whichAgain: Launch, sysExecutable: string)
    requires IsValidPythonVersion(version) && GetPyenvPythonPath(which).None?
    requires whichAgain.Exited? && whichAgain.rc == 0 && Strip(whichAgain.stdout) != ""
    ensures FindPython(version, which, whichAgain, sysExecutable) == Strip(whichAgain.stdout)
  {
  }

  // ---------------------------------------------------------------------------
  // _install_python_version, _list_pyenv_versions, _ensure_pyenv_version
  // ---------------------------------------------------------------------------

  /** `_install_python_version`: whether `pyenv install <version>` exited with 0; failures to start it count as False. */
  function InstallPythonVersion(install: Launch): (ok: bool)
    ensures ok <==> install.Exited? && install.rc == 0
  {
    match RunCommand(install)
    case Raised(_) => false
    case Ok(reply) => reply.rc == 0
  }

  /**
   * A line with nothing but a marker: whitespace, then only "*"s, then whitespace
   * (a blank line included).
   */
  predicate MarkerOnly(line: string)
  {
    var w := TrimStart(line);
    forall i :: CharRun(w, '*') <= i < |w| ==> IsSpace(w[i])
  }

  /**
   * One line of `pyenv versions`: `line.strip().lstrip("*").strip().split()[0]`;
   * None exactly for a marker-only line, where `split()` gives no token and Python
   * raises IndexError.
   */
  function VersionToken(line: string): (r: Option<string>)
    ensures r.Some? ==> r.value != [] && forall i :: 0 <= i < |r.value| ==> !IsSpace(r.value[i])
    ensures r.None? <==> MarkerOnly(line)
    ensures r == FirstToken(DropLeading(TrimStart(line), '*'))
  {
    var stripped := Strip(line);
    var unmarked := DropLeading(stripped, '*');
    MarkerOnlyIsBlank(line);
    TokenAfterMarker(line);
    FirstToken(Strip(unmarked))
  }

  /**
   * The inner `strip()` calls do not change the token: it is the first word after
   * the line's leading whitespace and its run of "*"s.
   */
  lemma {:induction false} TokenAfterMarker(line: string)
    ensures FirstToken(Strip(DropLeading(Strip(line), '*'))) == FirstToken(DropLeading(TrimStart(line), '*'))
  {
    var w := TrimStart(line);
    var m := StripOfTrimmed(line);
    var e := StarsOfPrefix(w, m);
    FirstTokenOfStrip(DropLeading(w, '*'), e);
  }

  /**
   * For a prefix `w[..m]` followed only by whitespace: dropping its leading stars
   * leaves a prefix of `w` with its stars dropped, and only whitespace follows it.
   */
  lemma {:induction false} StarsOfPrefix(w: string, m: nat) returns (e: nat)
    requires m <= |w| && forall i :: m <= i < |w| ==> IsSpace(w[i])
    ensures e <= |DropLeading(w, '*')| && DropLeading(w[..m], '*') == DropLeading(w, '*')[..e]
    ensures forall i :: e <= i < |DropLeading(w, '*')| ==> IsSpace(DropLeading(w, '*')[i])
  {
    CharRunPrefix(w, '*', m);
    if m < |w| {
      assert IsSpace(w[m]);
    }
    var c := CharRun(w, '*');
    e := m - c;
    assert forall i :: e <= i < |w[c..]| ==> w[c..][i] == w[c + i];
  }

  /** A prefix followed only by whitespace has the first token of the whole string once stripped. */
  lemma {:induction false} FirstTokenOfStrip(t: string, e: nat)
    requires e <= |t| && forall i :: e <= i < |t| ==> IsSpace(t[i])
    ensures FirstToken(Strip(t[..e])) == FirstToken(t)
  {
    StripKeepsFirstToken(t[..e]);
    FirstTokenBeforeSpaces(t, e);
  }

  /** The stars counted on a prefix are those of the whole string, up to the prefix's length. */
  lemma {:induction false} CharRunPrefix(s: string, c: char, m: nat)
    requires m <= |s|
    ensures CharRun(s[..m], c) == (if CharRun(s, c) < m then CharRun(s, c) else m)
  {
    if m > 0 && s[0] == c {
      assert s[..m][1..] == s[1..][..m - 1];
      CharRunPrefix(s[1..], c, m - 1);
    }
  }

  /** What is left once the line is stripped and its marker dropped is blank exactly for a marker-only line. */
  lemma {:induction false} MarkerOnlyIsBlank(line: string)
    ensures (forall i :: 0 <= i < |DropLeading(Strip(line), '*')| ==> IsSpace(DropLeading(Strip(line), '*')[i]))
      <==> MarkerOnly(line)
  {
    var w := TrimStart(line);
    var m := StripOfTrimmed(line);
    DropLeadingBlank(w, m);
  }

  /** `strip()` keeps a prefix of the line's `lstrip()`, and only whitespace follows it. */
  lemma {:induction false} StripOfTrimmed(line: string) returns (m: nat)
    ensures m <= |TrimStart(line)| && Strip(line) == TrimStart(line)[..m]
    ensures forall i :: m <= i < |TrimStart(line)| ==> IsSpace(TrimStart(line)[i])
  {
    var a := SpaceRun(line);
    var w := TrimStart(line);
    m := |Strip(line)|;
    assert forall i :: m <= i < |w| ==> w[i] == line[a + i];
  }

  /**
   * For a prefix of `w` followed only by whitespace: dropping its leading stars leaves
   * only whitespace exactly when everything in `w` after its leading stars is whitespace.
   */
  lemma {:induction false} DropLeadingBlank(w: string, m: nat)
    requires m <= |w| && forall i :: m <= i < |w| ==> IsSpace(w[i])
    ensures (forall i :: 0 <= i < |DropLeading(w[..m], '*')| ==> IsSpace(DropLeading(w[..m], '*')[i]))
      <==> (forall i :: CharRun(w, '*') <= i < |w| ==> IsSpace(w[i]))
  {
    var c := CharRun(w[..m], '*');
    CharRunPrefix(w, '*', m);
    var d := DropLeading(w[..m], '*');
    assert d == w[c..m];
    if forall i :: 0 <= i < |d| ==> IsSpace(d[i]) {
      assert c == CharRun(w, '*') by {
        if m < |w| {
          assert IsSpace(w[m]);
        }
      }
      forall i | c <= i < |w|
        ensures IsSpace(w[i])
      {
        if i < m {
          assert w[i] == d[i - c];
        }
      }
    } else {
      var i :| 0 <= i < |d| && !IsSpace(d[i]);
      assert w[c + i] == d[i];
    }
  }

  /**
   * A line as `pyenv versions` prints it: a marker ("*" for the selected version,
   * a space otherwise), a space, the version, and an optional annotation such as
   * "(set by ...)" after whitespace. Its token is the version.
   */
  lemma {:induction false} ListedLineToken(marker: char, version: string, note: string)
    requires marker == '*' || marker == ' '
    requires version != [] && version[0] != '*'
    requires forall i :: 0 <= i < |version| ==> !IsSpace(version[i])
    requires note == [] || IsSpace(note[0])
    ensures VersionToken([marker, ' '] + version + note) == Some(version)
  {
    var pad, rest := DropMarker(marker, version, note);
    var k := StripAround(pad, version, rest);
    FirstTokenOfWord(version, rest[..k]);
  }

  /** The first token of a word followed by whitespace, or by nothing, is that word. */
  lemma {:induction false} FirstTokenOfWord(w: string, rest: string)
    requires w != [] && forall i :: 0 <= i < |w| ==> !IsSpace(w[i])
    requires rest == [] || IsSpace(rest[0])
    ensures FirstToken(w + rest) == Some(w)
  {
    var s := w + rest;
    assert SpaceRun(s) == 0;
    assert s[0..] == s;
    assert forall i :: 0 <= i < |w| ==> s[i] == w[i];
    assert |w| < |s| ==> s[|w|] == rest[0];
    assert WordLength(s) == |w|;
    assert s[..|w|] == w;
  }

  /** `n` spaces. */
  function Blanks(n: nat): string
  {
    if n == 0 then [] else [' '] + Blanks(n - 1)
  }

  /** The outer `strip().lstrip("*")` of a listed line leaves at most a space, the version and part of the annotation. */
  lemma {:induction false} DropMarker(marker: char, version: string, note: string) returns (pad: nat, rest: string)
    requires marker == '*' || marker == ' '
    requires version != [] && version[0] != '*'
    requires forall i :: 0 <= i < |version| ==> !IsSpace(version[i])
    ensures |rest| <= |note| && rest == note[..|rest|]
    ensures DropLeading(Strip([marker, ' '] + version + note), '*') == Blanks(pad) + (version + rest)
  {
    if marker == '*' {
      rest := DropStarMarker(version, note);
      pad := 1;
    } else {
      rest := DropBlankMarker(version, note);
      pad := 0;
    }
  }

  /** A line marked "*": stripping and dropping the star leaves a space, the version and part of the annotation. */
  lemma {:induction false} DropStarMarker(version: string, note: string) returns (rest: string)
    requires version != [] && version[0] != '*'
    requires forall i :: 0 <= i < |version| ==> !IsSpace(version[i])
    ensures |rest| <= |note| && rest == note[..|rest|]
    ensures DropLeading(Strip(['*', ' '] + version + note), '*') == Blanks(1) + (version + rest)
  {
    var head := ['*', ' '] + version;
    var k := StripWord(head, note);
    rest := note[..k];
    var p := head + rest;
    assert p[0] == '*' && p[1] == ' ';
    assert CharRun(p, '*') == 1;
    assert p[1..] == Blanks(1) + (version + rest);
  }

  /** An unmarked line: stripping leaves the version and part of the annotation, with no star to drop. */
  lemma {:induction false} DropBlankMarker(version: string, note: string) returns (rest: string)
    requires version != [] && version[0] != '*'
    requires forall i :: 0 <= i < |version| ==> !IsSpace(version[i])
    ensures |rest| <= |note| && rest == note[..|rest|]
    ensures DropLeading(Strip([' ', ' '] + version + note), '*') == Blanks(0) + (version + rest)
  {
    var line := [' ', ' '] + version + note;
    var k := StripAround(2, version, note);
    assert Strip(line) == version + note[..k] by {
      assert line == Blanks(2) + (version + note);
    }
    rest := note[..k];
    var p := version + rest;
    assert p[0] == version[0];
    assert CharRun(p, '*') == 0;
    assert p[0..] == Blanks(0) + p;
  }

  /**
   * `strip()` of a word that starts and ends with non-space characters, between
   * leading blanks and a trailing remainder: the word and a prefix of the remainder.
   */
  lemma {:induction false} StripAround(pad: nat, w: string, note: string) returns (k: nat)
    requires w != [] && !IsSpace(w[0]) && !IsSpace(w[|w| - 1])
    ensures k <= |note| && Strip(Blanks(pad) + (w + note)) == w + note[..k]
  {
    SpaceRunPastBlanks(pad, w + note);
    k := TrimEndAfterWord(w, note);
  }

  /** `strip()` of a word followed by a remainder, as `StripAround` with no blanks in front. */
  lemma {:induction false} StripWord(w: string, note: string) returns (k: nat)
    requires w != [] && !IsSpace(w[0]) && !IsSpace(w[|w| - 1])
    ensures k <= |note| && Strip(w + note) == w + note[..k]
  {
    assert (w + note)[0] == w[0];
    assert TrimStart(w + note) == w + note;
    k := TrimEndAfterWord(w, note);
  }

  /** `rstrip()` of a word ending in a non-space, followed by a remainder, keeps the word. */
  lemma {:induction false} TrimEndAfterWord(w: string, note: string) returns (k: nat)
    requires w != [] && !IsSpace(w[|w| - 1])
    ensures k <= |note| && TrimEnd(w + note) == w + note[..k]
  {
    var t := w + note;
    var m := TrailingSpaceRun(t);
    assert t[|w| - 1] == w[|w| - 1];
    k := |note| - m;
    assert t[..|t| - m] == w + note[..k];
  }

  /** Blanks before a non-space are exactly the leading whitespace. */
  lemma {:induction false} SpaceRunPastBlanks(n: nat, s: string)
    requires s == [] || !IsSpace(s[0])
    ensures SpaceRun(Blanks(n) + s) == n && |Blanks(n)| == n
    ensures (Blanks(n) + s)[n..] == s
  {
    if n > 0 {
      assert Blanks(n) + s == [' '] + (Blanks(n - 1) + s);
      SpaceRunPastBlanks(n - 1, s);
    }
  }

  /** The token of every line, in order. */
  function LineTokens(lines: seq<string>): (tokens: seq<Option<string>>)
    ensures |tokens| == |lines|
    ensures forall i :: 0 <= i < |lines| ==> tokens[i] == VersionToken(lines[i])
  {
    seq(|lines|, i requires 0 <= i < |lines| => VersionToken(lines[i]))
  }

  /** The versions named by the lines' tokens, or IndexError at the first line that names none. */
  function Collect(tokens: seq<Option<string>>): (r: Result<seq<string>>)
    ensures r.Ok? <==> forall i :: 0 <= i < |tokens| ==> tokens[i].Some?
    ensures r.Raised? ==> r.error == IndexError
    ensures r.Ok? ==> |r.value| == |tokens| && forall i :: 0 <= i < |tokens| ==> tokens[i] == Some(r.value[i])
  {
    if tokens == [] then Ok([])
    else match tokens[0]
      case None => Raised(IndexError)
      case Some(v) =>
        match Collect(tokens[1..])
        case Raised(e) => Raised(e)
        case Ok(vs) => Ok([v] + vs)
  }

  /**
   * What `_list_pyenv_versions` returns for one run of `pyenv versions`: [] for a
   * nonzero exit status (a missing `pyenv` included), one version per output line
   * otherwise. A failure to start the command is not caught here.
   */
  function InstalledVersions(listing: Launch): (r: Result<seq<string>>)
    ensures listing.LaunchFailed? ==> r == Raised(OSError)
    ensures listing.ExecutableMissing? || (listing.Exited? && listing.rc != 0) ==> r == Ok([])
    ensures listing.Exited? && listing.rc == 0 ==>
      (r.Ok? <==> forall i :: 0 <= i < |SplitLines(listing.stdout)| ==> !MarkerOnly(SplitLines(listing.stdout)[i]))
    ensures listing.Exited? && listing.rc == 0 && r.Ok? ==> |r.value| == |SplitLines(listing.stdout)|
    ensures listing.Exited? && listing.rc == 0 && r.Ok? ==>
      forall i :: 0 <= i < |r.value| ==> VersionToken(SplitLines(listing.stdout)[i]) == Some(r.value[i])
    ensures r.Raised? ==> r.error == (if listing.LaunchFailed? then OSError else IndexError)
  {
    match RunCommand(listing)
    case Raised(e) => Raised(e)
    case Ok(reply) =>
      if reply.rc != 0 then Ok([])
      else
        var lines := SplitLines(reply.out);
        CollectLines(lines);
        Collect(LineTokens(lines))
  }

  /** The lines yield a version each exactly when none of them is marker-only. */
  lemma {:induction false} CollectLines(lines: seq<string>)
    ensures Collect(LineTokens(lines)).Ok? <==> forall i :: 0 <= i < |lines| ==> !MarkerOnly(lines[i])
  {
    var tokens := LineTokens(lines);
    assert forall i :: 0 <= i < |lines| ==> (tokens[i].None? <==> MarkerOnly(lines[i]));
  }

  /** One row as `pyenv versions` prints it: a marker column, a blank, the version and an annotation. */
  datatype ListedRow = ListedRow(marker: char, version: string, note: string)

  /** The printed line of a row. */
  function RowLine(row: ListedRow): string
  {
    [row.marker, ' '] + row.version + row.note
  }

  /**
   * The rows the listing is made of: the marker is "*" for the active version or a
   * blank, the version is one word not starting with "*", and the annotation (such
   * as " (set by ...)") starts with whitespace and holds no line break.
   */
  predicate WellFormedRow(row: ListedRow)
  {
    && (row.marker == '*' || row.marker == ' ')
    && row.version != [] && row.version[0] != '*'
    && (forall i :: 0 <= i < |row.version| ==> !IsSpace(row.version[i]))
    && (row.note == [] || IsSpace(row.note[0]))
    && (forall i :: 0 <= i < |row.note| ==> !IsLineBreak(row.note[i]))
  }

  /** The line of a well-formed row holds no line boundary. */
  lemma {:induction false} RowLineUnbroken(row: ListedRow)
    requires WellFormedRow(row)
    ensures forall j :: 0 <= j < |RowLine(row)| ==> !IsLineBreak(RowLine(row)[j])
  {
    var line := RowLine(row);
    forall j | 0 <= j < |line|
      ensures !IsLineBreak(line[j])
    {
      if 2 <= j < 2 + |row.version| {
        assert line[j] == row.version[j - 2];
      } else if j >= 2 + |row.version| {
        assert line[j] == row.note[j - 2 - |row.version|];
      }
    }
  }

  /** The printed lines of a listing, one per row. */
  function RowLines(rows: seq<ListedRow>): (lines: seq<string>)
    ensures |lines| == |rows| && forall i :: 0 <= i < |rows| ==> lines[i] == RowLine(rows[i])
  {
    seq(|rows|, i requires 0 <= i < |rows| => RowLine(rows[i]))
  }

  /** The versions of a listing, one per row. */
  function RowVersions(rows: seq<ListedRow>): (versions: seq<string>)
    ensures |versions| == |rows| && forall i :: 0 <= i < |rows| ==> versions[i] == rows[i].version
  {
    seq(|rows|, i requires 0 <= i < |rows| => rows[i].version)
  }

  /** Every well-formed row yields its version as its token. */
  lemma {:induction false} RowTokens(rows: seq<ListedRow>)
    requires forall i :: 0 <= i < |rows| ==> WellFormedRow(rows[i])
    ensures Collect(LineTokens(RowLines(rows))) == Ok(RowVersions(rows))
  {
    var tokens, versions := LineTokens(RowLines(rows)), RowVersions(rows);
    forall i | 0 <= i < |tokens|
      ensures tokens[i] == Some(versions[i])
    {
      ListedLineToken(rows[i].marker, rows[i].version, rows[i].note);
    }
    assert Collect(tokens).value == versions;
  }

  /**
   * A successful listing printed one row per line yields exactly the listed
   * versions, in order, whichever of them is marked active.
   */
  lemma {:induction false} ListingYieldsVersions(rows: seq<ListedRow>, err: string)
    requires forall i :: 0 <= i < |rows| ==> WellFormedRow(rows[i])
    ensures InstalledVersions(Exited(0, Terminated(RowLines(rows)), err)) == Ok(RowVersions(rows))
  {
    var lines := RowLines(rows);
    forall i | 0 <= i < |lines|
      ensures forall j :: 0 <= j < |lines[i]| ==> !IsLineBreak(lines[i][j])
    {
      RowLineUnbroken(rows[i]);
    }
    SplitTerminated(lines);
    RowTokens(rows);
  }

  /**
   * The same for a listing whose last row has no final newline, as a captured
   * output whose trailing newline was cut off has.
   */
  lemma {:induction false} ListingWithoutFinalNewline(rows: seq<ListedRow>, last: ListedRow, err: string)
    requires forall i :: 0 <= i < |rows| ==> WellFormedRow(rows[i])
    requires WellFormedRow(last)
    ensures InstalledVersions(Exited(0, Terminated(RowLines(rows)) + RowLine(last), err)) == Ok(RowVersions(rows + [last]))
  {
    var lines := RowLines(rows);
    forall i | 0 <= i < |lines|
      ensures forall j :: 0 <= j < |lines[i]| ==> !IsLineBreak(lines[i][j])
    {
      RowLineUnbroken(rows[i]);
    }
    RowLineUnbroken(last);
    SplitPrinted(lines, RowLine(last));
    assert lines + [RowLine(last)] == RowLines(rows + [last]);
    RowTokens(rows + [last]);
  }

  /**
   * A successful listing holding a line with nothing but a marker (a blank line, say)
   * makes `_list_pyenv_versions` raise IndexError.
   */
  lemma {:induction false} MarkerOnlyLineRaises(out: string, err: string, i: nat)
    requires i < |SplitLines(out)| && MarkerOnly(SplitLines(out)[i])
    ensures InstalledVersions(Exited(0, out, err)) == Raised(IndexError)
  {
  }

  /** `_list_pyenv_versions`: the loop over the output lines that collects one version per line. */
  method ListPyenvVersions(listing: Launch) returns (r: Result<seq<string>>)
    ensures r == InstalledVersions(listing)
  {
    var reply := RunCommand(listing);
    if reply.Raised? {
      return Raised(reply.error);
    }
    if reply.value.rc != 0 {
      return Ok([]);
    }
    r := CollectTokens(LineTokens(SplitLines(reply.value.out)));
  }

  /** The loop of `_list_pyenv_versions` over the tokens of the lines: stops at the first line without one. */
  method CollectTokens(tokens: seq<Option<string>>) returns (r: Result<seq<string>>)
    ensures r == Collect(tokens)
  {
    var versions: seq<string> := [];
    for i := 0 to |tokens|
      invariant |versions| == i
      invariant forall k :: 0 <= k < i ==> tokens[k] == Some(versions[k])
    {
      if tokens[i].None? {
        return Raised(IndexError);
      }
      versions := versions + [tokens[i].value];
    }
    var expected := Collect(tokens).value;
    assert forall k :: 0 <= k < |tokens| ==> expected[k] == versions[k];
    assert expected == versions;
    return Ok(versions);
  }

  /**
   * `_ensure_pyenv_version`: True without installing when the version is listed,
   * otherwise the outcome of `pyenv install`; an IndexError from the listing escapes.
   */
  method EnsurePyenvVersion(version: string, listing: Launch, install: Launch) returns (r: Result<bool>)
    ensures InstalledVersions(listing).Raised? ==> r == Raised(InstalledVersions(listing).error)
    ensures InstalledVersions(listing).Ok? && version in InstalledVersions(listing).value ==> r == Ok(true)
    ensures InstalledVersions(listing).Ok? && version !in InstalledVersions(listing).value ==>
              r == Ok(install.Exited? && install.rc == 0)
  {
    var installed := ListPyenvVersions(listing);
    if installed.Raised? {
      return Raised(installed.error);
    }
    if version in installed.value {
      return Ok(true);
    }
    return Ok(InstallPythonVersion(install));
  }
}
