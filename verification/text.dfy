/** The string operations of Python that the core relies on (`in`, `startswith`,
    `endswith`, `split`, `strip`, `lower`, `replace`, `splitlines`) and POSIX
    `os.path.join`, with the facts about them that the other modules use. */
module Text {
  import opened Outcomes

  predicate StartsWith(s: string, prefix: string) {
    |prefix| <= |s| && s[..|prefix|] == prefix
  }

  predicate EndsWith(s: string, suffix: string) {
    |suffix| <= |s| && s[|s| - |suffix|..] == suffix
  }

  /** `sub` occurs in `s` starting at index `i`. */
  predicate OccursAt(s: string, sub: string, i: nat) {
    i + |sub| <= |s| && s[i..i + |sub|] == sub
  }

  /** Python's `sub in s`. */
  predicate Contains(s: string, sub: string) {
    exists i: nat | i <= |s| :: OccursAt(s, sub, i)
  }

  lemma OccursShift(s: string, sub: string)
    requires s != []
    ensures forall j: nat :: OccursAt(s, sub, j + 1) <==> OccursAt(s[1..], sub, j)
  {
    forall j: nat ensures OccursAt(s, sub, j + 1) <==> OccursAt(s[1..], sub, j) {
      if j + 1 + |sub| <= |s| {
        assert s[1..][j..j + |sub|] == s[j + 1..j + 1 + |sub|];
      }
    }
  }

  /** Python's `s.find(sub)`: the first index where `sub` occurs, or -1. */
  function IndexOf(s: string, sub: string): (r: int)
    ensures r == -1 || (0 <= r && OccursAt(s, sub, r))
    decreases |s|
  {
    if OccursAt(s, sub, 0) then 0
    else if s == [] then -1
    else
      OccursShift(s, sub);
      var k := IndexOf(s[1..], sub);
      if k == -1 then -1 else k + 1
  }

  /** `find` answers -1 exactly when `sub` does not occur, and otherwise no earlier
      occurrence exists. */
  lemma {:induction false} IndexOfFirst(s: string, sub: string)
    ensures IndexOf(s, sub) == -1 <==> !Contains(s, sub)
    ensures IndexOf(s, sub) >= 0 ==> forall j: nat :: j < IndexOf(s, sub) ==> !OccursAt(s, sub, j)
    decreases |s|
  {
    if !OccursAt(s, sub, 0) && s != [] {
      OccursShift(s, sub);
      IndexOfFirst(s[1..], sub);
      if Contains(s, sub) {
        var i: nat :| i <= |s| && OccursAt(s, sub, i);
        assert i > 0;
        assert OccursAt(s[1..], sub, i - 1);
      }
      if Contains(s[1..], sub) {
        var i: nat :| i <= |s[1..]| && OccursAt(s[1..], sub, i);
        assert OccursAt(s, sub, i + 1);
      }
      forall j: nat | j < IndexOf(s, sub) ensures !OccursAt(s, sub, j) {
        if j > 0 {
          assert OccursAt(s, sub, j) <==> OccursAt(s[1..], sub, j - 1);
        }
      }
    } else if OccursAt(s, sub, 0) {
      assert Contains(s, sub);
    } else {
      forall i: nat | i <= |s| ensures !OccursAt(s, sub, i) {
      }
    }
  }

  /** Python's `s.split(sep)` for a non-empty separator: the pieces between
      non-overlapping occurrences of `sep`, scanned from the left. */
  function Split(s: string, sep: string): (parts: seq<string>)
    requires sep != []
    ensures |parts| >= 1
    decreases |s|
  {
    var i := IndexOf(s, sep);
    if i == -1 then [s] else [s[..i]] + Split(s[i + |sep|..], sep)
  }

  /** Python's `sep.join(parts)`. */
  function Join(parts: seq<string>, sep: string): string {
    if |parts| == 0 then ""
    else if |parts| == 1 then parts[0]
    else parts[0] + sep + Join(parts[1..], sep)
  }

  function Last<T>(xs: seq<T>): T
    requires xs != []
  {
    xs[|xs| - 1]
  }

  /** A single-character separator: `c in p` and `[c] in p` (as a substring) agree. */
  lemma ContainsChar(p: string, c: char)
    ensures Contains(p, [c]) <==> c in p
  {
    if c in p {
      var i :| 0 <= i < |p| && p[i] == c;
      assert OccursAt(p, [c], i);
    }
    if Contains(p, [c]) {
      var i: nat :| i <= |p| && OccursAt(p, [c], i);
      assert p[i..i + 1][0] == p[i];
    }
  }

  /** Joining pieces free of a one-character separator and splitting again gives the
      pieces back. */
  lemma {:induction false} SplitJoin(parts: seq<string>, c: char)
    requires parts != [] && forall p :: p in parts ==> c !in p
    ensures Split(Join(parts, [c]), [c]) == parts
    decreases |parts|
  {
    var p0 := parts[0];
    ContainsChar(p0, c);
    if |parts| > 1 {
      var rest := Join(parts[1..], [c]);
      var s := Join(parts, [c]);
      assert s == p0 + [c] + rest;
      assert OccursAt(s, [c], |p0|);
      forall j: nat | j < |p0| ensures !OccursAt(s, [c], j) {
        assert s[j] == p0[j];
        assert s[j..j + 1] == [s[j]];
      }
      IndexOfFirst(s, [c]);
      assert IndexOf(s, [c]) == |p0|;
      assert s[..|p0|] == p0 && s[|p0| + 1..] == rest;
      SplitJoin(parts[1..], c);
    }
  }

  /** Joining two or more pieces puts the separator in the result. */
  lemma JoinHasSeparator(parts: seq<string>, c: char)
    requires |parts| >= 2
    ensures c in Join(parts, [c])
  {
    var s := Join(parts, [c]);
    assert s == parts[0] + [c] + Join(parts[1..], [c]);
    assert s[|parts[0]|] == c;
  }

  /** Splitting and joining back with the same separator gives the original text. */
  lemma {:induction false} JoinSplit(s: string, sep: string)
    requires sep != []
    ensures Join(Split(s, sep), sep) == s
    decreases |s|
  {
    if |Split(s, sep)| > 1 {
      var head, rest := SplitStep(s, sep);
      JoinSplit(rest, sep);
      var restParts := Split(rest, sep);
      assert ([head] + restParts)[1..] == restParts;
      assert Join([head] + restParts, sep) == head + sep + Join(restParts, sep);
    } else {
      SplitSingle(s, sep);
    }
  }

  /** A split into one piece leaves the text whole. */
  lemma SplitSingle(s: string, sep: string)
    requires sep != []
    ensures |Split(s, sep)| == 1 ==> Split(s, sep) == [s]
  {
    var i := IndexOf(s, sep);
    if i != -1 {
      assert |Split(s, sep)| == 1 + |Split(s[i + |sep|..], sep)|;
    }
  }

  /** No piece of a split contains the separator. */
  lemma {:induction false} SplitPiecesFree(s: string, sep: string)
    requires sep != []
    ensures forall p :: p in Split(s, sep) ==> !Contains(p, sep)
    decreases |s|
  {
    var i := IndexOf(s, sep);
    IndexOfFirst(s, sep);
    if i != -1 {
      var head, rest := s[..i], s[i + |sep|..];
      SplitPiecesFree(rest, sep);
      forall j: nat | j <= |head| ensures !OccursAt(head, sep, j) {
        if OccursAt(head, sep, j) {
          assert head[j..j + |sep|] == s[j..j + |sep|];
          assert OccursAt(s, sep, j);
        }
      }
      assert Split(s, sep) == [head] + Split(rest, sep);
    }
  }

  lemma EndsWithAppend(p: string, s: string, suffix: string)
    requires EndsWith(s, suffix)
    ensures EndsWith(p + s, suffix)
  {
    assert (p + s)[|p + s| - |suffix|..] == s[|s| - |suffix|..];
  }

  lemma LastStep(s: string, head: string, sep: string, rest: string, l: string)
    requires s == head + sep + rest
    requires l == rest || EndsWith(rest, sep + l)
    ensures EndsWith(s, sep + l)
  {
    if l == rest {
      assert s == head + (sep + l);
      assert EndsWith(sep + l, sep + l);
      EndsWithAppend(head, sep + l, sep + l);
    } else {
      EndsWithAppend(head + sep, rest, sep + l);
    }
  }

  /** A split with more than one piece peels off its first piece and a separator. */
  lemma SplitStep(s: string, sep: string) returns (head: string, rest: string)
    requires sep != [] && |Split(s, sep)| > 1
    ensures s == head + sep + rest && |rest| < |s|
    ensures Split(s, sep) == [head] + Split(rest, sep)
  {
    var i := IndexOf(s, sep);
    head, rest := s[..i], s[i + |sep|..];
    assert s[i..i + |sep|] == sep;
    assert s == s[..i] + s[i..i + |sep|] + rest;
  }

  /** The last piece of a split is the text after the last separator (all of `s`
      when there is none). */
  lemma {:induction false} SplitLast(s: string, sep: string)
    requires sep != []
    ensures |Split(s, sep)| == 1 ==> Last(Split(s, sep)) == s
    ensures |Split(s, sep)| > 1 ==> EndsWith(s, sep + Last(Split(s, sep)))
    decreases |s|
  {
    if |Split(s, sep)| > 1 {
      var head, rest := SplitStep(s, sep);
      SplitLast(rest, sep);
      assert Last(Split(s, sep)) == Last(Split(rest, sep));
      LastStep(s, head, sep, rest, Last(Split(rest, sep)));
    }
  }

  /** Whatever the split, its last piece is a suffix of the text. */
  lemma SplitLastSuffix(s: string, sep: string)
    requires sep != []
    ensures EndsWith(s, Last(Split(s, sep)))
  {
    SplitLast(s, sep);
    var l := Last(Split(s, sep));
    if |Split(s, sep)| > 1 {
      assert s[|s| - |l|..] == s[|s| - |sep + l|..][|sep|..];
    }
  }

  /** A text that starts with the separator splits into an empty first piece and more. */
  lemma SplitAtStart(s: string, sep: string)
    requires sep != [] && StartsWith(s, sep)
    ensures |Split(s, sep)| >= 2 && Split(s, sep)[0] == ""
    ensures Split(s, sep)[1] == Split(s[|sep|..], sep)[0]
  {
    assert OccursAt(s, sep, 0);
    assert IndexOf(s, sep) == 0;
    assert Split(s, sep) == [""] + Split(s[|sep|..], sep);
  }

  /** The first piece of a split is a prefix of the text that holds no separator, and
      either it is the whole text or a separator follows it. */
  lemma SplitFirst(s: string, sep: string)
    requires sep != []
    ensures var p := Split(s, sep)[0];
      StartsWith(s, p) && !Contains(p, sep) && (p == s || OccursAt(s, sep, |p|))
  {
    SplitPiecesFree(s, sep);
    assert Split(s, sep)[0] in Split(s, sep);
  }

  /** `line.split(marker)[1]` for a line that starts with `marker`: the text after the
      first `marker`, up to the next occurrence of `marker` or the end of the line. */
  function AfterMarker(line: string, marker: string): (r: string)
    requires marker != [] && StartsWith(line, marker)
    ensures StartsWith(line[|marker|..], r) && !Contains(r, marker)
    ensures r == line[|marker|..] || OccursAt(line[|marker|..], marker, |r|)
  {
    SplitAtStart(line, marker);
    SplitFirst(line[|marker|..], marker);
    Split(line, marker)[1]
  }

  /** The value after `marker` on the first line that starts with it (a `for` loop
      with `break`, and `None` when the loop ends without one). */
  function FirstValue(lines: seq<string>, marker: string): (r: Option<string>)
    requires marker != []
  {
    if lines == [] then None
    else if StartsWith(lines[0], marker) then Some(AfterMarker(lines[0], marker))
    else FirstValue(lines[1..], marker)
  }

  /** A value is found exactly when some line starts with the marker, and it comes from
      the first such line. */
  lemma {:induction false} FirstValueFound(lines: seq<string>, marker: string)
    requires marker != []
    ensures FirstValue(lines, marker).Some? <==>
              exists i :: 0 <= i < |lines| && StartsWith(lines[i], marker)
    ensures FirstValue(lines, marker).Some? ==>
              exists i :: (0 <= i < |lines| && StartsWith(lines[i], marker)
                && (forall j :: 0 <= j < i ==> !StartsWith(lines[j], marker))
                && FirstValue(lines, marker).value == AfterMarker(lines[i], marker))
  {
    if lines != [] && !StartsWith(lines[0], marker) {
      FirstValueFound(lines[1..], marker);
      assert forall i :: 1 <= i < |lines| ==> lines[i] == lines[1..][i - 1];
      if FirstValue(lines, marker).Some? {
        var i :| (0 <= i < |lines[1..]| && StartsWith(lines[1..][i], marker)
                  && (forall j :: 0 <= j < i ==> !StartsWith(lines[1..][j], marker))
                  && FirstValue(lines, marker).value == AfterMarker(lines[1..][i], marker));
        assert forall j :: 0 <= j < i + 1 ==> !StartsWith(lines[j], marker);
      }
    } else if lines != [] {
      assert StartsWith(lines[0], marker);
    }
  }

  // ---- strip ----

  /** The characters for which Python's `str.isspace()` holds. */
  const Whitespace: set<char> := {
    ' ', '\t', '\n', '\r', '\U{0B}', '\U{0C}', '\U{1C}', '\U{1D}', '\U{1E}', '\U{1F}',
    '\U{85}', '\U{A0}', '\U{1680}', '\U{2000}', '\U{2001}', '\U{2002}', '\U{2003}',
    '\U{2004}', '\U{2005}', '\U{2006}', '\U{2007}', '\U{2008}', '\U{2009}', '\U{200A}',
    '\U{2028}', '\U{2029}', '\U{202F}', '\U{205F}', '\U{3000}'
  }

  /** Python's `s.lstrip(chars)`. */
  function TrimLeft(s: string, cs: set<char>): string {
    if s != [] && s[0] in cs then TrimLeft(s[1..], cs) else s
  }

  /** Python's `s.rstrip(chars)`. */
  function TrimRight(s: string, cs: set<char>): string {
    if s != [] && s[|s| - 1] in cs then TrimRight(s[..|s| - 1], cs) else s
  }

  /** `lstrip` keeps a suffix, drops only characters of `cs`, and stops at one not in it. */
  lemma {:induction false} TrimLeftShape(s: string, cs: set<char>)
    ensures var r := TrimLeft(s, cs);
      |r| <= |s| && r == s[|s| - |r|..]
      && (forall i :: 0 <= i < |s| - |r| ==> s[i] in cs)
      && (r == [] || r[0] !in cs)
    decreases |s|
  {
    if s != [] && s[0] in cs {
      TrimLeftShape(s[1..], cs);
      var r := TrimLeft(s, cs);
      assert s[1..][|s| - 1 - |r|..] == s[|s| - |r|..];
      forall i | 1 <= i < |s| - |r| ensures s[i] in cs {
        assert s[1..][i - 1] == s[i];
      }
    }
  }

  /** `rstrip` keeps a prefix, drops only characters of `cs`, and stops at one not in it. */
  lemma {:induction false} TrimRightShape(s: string, cs: set<char>)
    ensures var r := TrimRight(s, cs);
      |r| <= |s| && r == s[..|r|]
      && (forall i :: |r| <= i < |s| ==> s[i] in cs)
      && (r == [] || r[|r| - 1] !in cs)
    decreases |s|
  {
    if s != [] && s[|s| - 1] in cs {
      TrimRightShape(s[..|s| - 1], cs);
      var r := TrimRight(s, cs);
      assert s[..|s| - 1][..|r|] == s[..|r|];
      forall i | |r| <= i < |s| - 1 ensures s[i] in cs {
        assert s[..|s| - 1][i] == s[i];
      }
    }
  }

  /** Python's `s.strip(chars)`: the longest middle slice whose ends are not in `cs`. */
  function Trim(s: string, cs: set<char>): string {
    TrimRight(TrimLeft(s, cs), cs)
  }

  /** The result of a strip is a slice of the input with every removed character in
      `cs` and no character of `cs` at either end; stripping twice changes nothing. */
  lemma TrimSlice(s: string, cs: set<char>)
    ensures exists a, b :: (0 <= a <= b <= |s| && Trim(s, cs) == s[a..b]
      && (forall i :: 0 <= i < a ==> s[i] in cs) && (forall i :: b <= i < |s| ==> s[i] in cs))
    ensures var r := Trim(s, cs); r == [] || (r[0] !in cs && r[|r| - 1] !in cs)
    ensures Trim(Trim(s, cs), cs) == Trim(s, cs)
  {
    var l := TrimLeft(s, cs);
    var r := TrimRight(l, cs);
    TrimLeftShape(s, cs);
    TrimRightShape(l, cs);
    var a := |s| - |l|;
    var b := a + |r|;
    assert s[a..b] == l[..|r|];
    assert forall i :: b <= i < |s| ==> s[i] == l[i - a];
  }

  // ---- case and replacement ----

  function AsciiLower(c: char): char {
    if 'A' <= c <= 'Z' then (c as int + 32) as char else c
  }

  /** `s.lower()`, restricted to the ASCII letters. */
  function Lower(s: string): (r: string)
    ensures |r| == |s| && forall i :: 0 <= i < |s| ==> r[i] == AsciiLower(s[i])
  {
    seq(|s|, i requires 0 <= i < |s| => AsciiLower(s[i]))
  }

  /** `s.replace(a, b)` for single characters. */
  function ReplaceChar(s: string, a: char, b: char): (r: string)
    ensures |r| == |s| && forall i :: 0 <= i < |s| ==> r[i] == (if s[i] == a then b else s[i])
  {
    seq(|s|, i requires 0 <= i < |s| => if s[i] == a then b else s[i])
  }

  // ---- splitlines ----

  /** The line boundaries of Python's `str.splitlines()` (`\r\n` counts as one). */
  const LineBreaks: set<char> := {
    '\n', '\r', '\U{0B}', '\U{0C}', '\U{1C}', '\U{1D}', '\U{1E}', '\U{85}', '\U{2028}', '\U{2029}'
  }

  /** The index of the first character of `cs` in `s`, or `|s|`. */
  function FirstOf(s: string, cs: set<char>): (i: nat)
    ensures i <= |s| && (i < |s| ==> s[i] in cs)
    ensures forall j :: 0 <= j < i ==> s[j] !in cs
  {
    if s == [] || s[0] in cs then 0 else 1 + FirstOf(s[1..], cs)
  }

  /** Python's `s.splitlines()`: the lines without their terminators, and no empty
      line after a final terminator. */
  function SplitLines(s: string): (lines: seq<string>)
    decreases |s|
  {
    if s == [] then []
    else
      var i := FirstOf(s, LineBreaks);
      if i == |s| then [s]
      else
        var next := if s[i] == '\r' && i + 1 < |s| && s[i + 1] == '\n' then i + 2 else i + 1;
        [s[..i]] + SplitLines(s[next..])
  }

  /** `s` holds no line boundary. */
  predicate Unbroken(s: string) {
    forall k :: 0 <= k < |s| ==> s[k] !in LineBreaks
  }

  /** No line of `splitlines` holds a line boundary, and a text without one is a
      single line (or none when empty). */
  lemma {:induction false} SplitLinesClean(s: string)
    ensures forall l :: l in SplitLines(s) ==> Unbroken(l)
    ensures Unbroken(s) ==> SplitLines(s) == (if s == [] then [] else [s])
    decreases |s|
  {
    if s != [] {
      var i := FirstOf(s, LineBreaks);
      if i < |s| {
        var next := if s[i] == '\r' && i + 1 < |s| && s[i + 1] == '\n' then i + 2 else i + 1;
        var head := s[..i];
        SplitLinesClean(s[next..]);
        assert SplitLines(s) == [head] + SplitLines(s[next..]);
        assert Unbroken(head) by {
          forall k | 0 <= k < |head| ensures head[k] !in LineBreaks {
            assert head[k] == s[k];
          }
        }
        assert !Unbroken(s) by {
          assert s[i] in LineBreaks;
        }
      }
    }
  }

  // ---- paths ----

  /** A directory path with exactly the trailing separator `os.path.join` adds. */
  function DirPrefix(p: string): string {
    if p != [] && p[|p| - 1] == '/' then p else p + "/"
  }

  /** POSIX `os.path.join(a, b)`: an absolute `b` replaces `a`; an empty `a` adds nothing. */
  function PathJoin(a: string, b: string): string {
    if StartsWith(b, "/") then b
    else if a == [] then b
    else DirPrefix(a) + b
  }

  /** `q` is `p` itself or lies below it. */
  predicate Under(q: string, p: string) {
    q == p || StartsWith(q, DirPrefix(p))
  }

  /** Joining a relative name onto a non-empty directory stays under that directory,
      and joins nest. */
  lemma JoinUnder(a: string, b: string)
    requires a != [] && !StartsWith(b, "/")
    ensures Under(PathJoin(a, b), a)
    ensures forall c :: !StartsWith(c, "/") ==> Under(PathJoin(PathJoin(a, b), c), a)
  {
    var ab := PathJoin(a, b);
    assert ab == DirPrefix(a) + b;
    assert StartsWith(ab, DirPrefix(a));
    forall c | !StartsWith(c, "/") ensures Under(PathJoin(ab, c), a) {
      if ab == [] {
        assert false;
      } else {
        var abc := DirPrefix(ab) + c;
        assert PathJoin(ab, c) == abc;
        assert abc[..|DirPrefix(a)|] == DirPrefix(a);
      }
    }
  }
}
