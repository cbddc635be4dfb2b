/** The pre-generation hook (hooks/pre_gen_project.py): before a project is rendered,
    the answer for `project_slug` must read as a Python module name and the answer for
    `author_email` as an e-mail address; the first failed check prints an error and ends
    the hook with exit status 1. */
module PreGen {
  import opened Text

  /** `[_a-zA-Z]`. */
  predicate NameStart(c: char) {
    c == '_' || ('a' <= c <= 'z') || ('A' <= c <= 'Z')
  }

  /** `[_a-zA-Z0-9]`. */
  predicate NameChar(c: char) {
    NameStart(c) || ('0' <= c <= '9')
  }

  /** How many characters at the front of `s` the greedy `[_a-zA-Z0-9]+` takes. */
  function NameRun(s: string): (n: nat)
    ensures n <= |s|
    ensures forall i :: 0 <= i < n ==> NameChar(s[i])
    ensures n < |s| ==> !NameChar(s[n])
  {
    if s != [] && NameChar(s[0]) then 1 + NameRun(s[1..]) else 0
  }

  /** `re.match(MODULE_REGEX, s)` with `MODULE_REGEX = ^[_a-zA-Z][_a-zA-Z0-9]+$`: one
      start character, a greedy run of at least one name character, then Python's `$`,
      which holds at the end of the text or just before a newline that ends it. A shorter
      run never helps, since `$` cannot hold before a name character. */
  predicate ModuleNameMatches(s: string) {
    |s| >= 1 && NameStart(s[0]) &&
    var n := NameRun(s[1..]);
    n >= 1 && (1 + n == |s| || (2 + n == |s| && s[|s| - 1] == '\n'))
  }

  /** A name without a newline passes exactly when it has at least two characters, the
      first a letter or `_` and the rest letters, digits or `_`; so a one-character name
      fails. */
  lemma ModuleNameRule(s: string)
    requires '\n' !in s
    ensures ModuleNameMatches(s) <==>
              |s| >= 2 && NameStart(s[0]) && forall i :: 1 <= i < |s| ==> NameChar(s[i])
  {
    if ModuleNameMatches(s) {
      var n := NameRun(s[1..]);
      forall i | 1 <= i < |s| ensures NameChar(s[i]) {
        assert s[1..][i - 1] == s[i];
      }
    }
  }

  /** Python's `$` lets one newline trail an otherwise valid name. */
  lemma ModuleNameTrailingNewline(s: string)
    requires '\n' !in s
    ensures ModuleNameMatches(s + "\n") <==> ModuleNameMatches(s)
  {
    var t := s + "\n";
    if |s| >= 1 {
      assert t[1..] == s[1..] + "\n";
      NameRunStops(s[1..]);
    }
  }

  /** A run of name characters stops at an appended newline. */
  lemma {:induction false} NameRunStops(s: string)
    ensures NameRun(s + "\n") == NameRun(s)
  {
    if s != [] {
      assert (s + "\n")[1..] == s[1..] + "\n";
      NameRunStops(s[1..]);
    }
  }

  /** `s` holds no `@`. */
  predicate NoAt(s: string) {
    '@' !in s
  }

  /** `re.match(EMAIL_REGEX, s)` with `EMAIL_REGEX = ^[^@]+@[^@]+\.[^@]+$`: the text
      is a non-empty `@`-free local part, the `@` at `i`, a non-empty `@`-free host part,
      the `.` at `j` and a non-empty `@`-free tail. A newline before which `$` could hold
      is itself matched by `[^@]`, so the anchor adds no further case. */
  predicate EmailMatches(s: string) {
    exists i, j :: 0 < i && i + 1 < j < |s| - 1 && s[i] == '@' && s[j] == '.'
                   && NoAt(s[..i]) && NoAt(s[i + 1..j]) && NoAt(s[j + 1..])
  }

  /** A domain part holds a `.` that is neither its first nor its last character. */
  predicate InnerDot(d: string) {
    exists j :: 0 < j < |d| - 1 && d[j] == '.'
  }

  /** An address passes exactly when it has one `@`, with something before it, and its
      domain holds a `.` that is neither the domain's first nor its last character. */
  lemma EmailRule(s: string)
    ensures EmailMatches(s) <==>
              exists p :: 0 < p < |s| && s[p] == '@' && OnlyAt(s, p) && InnerDot(s[p + 1..])
  {
    if EmailMatches(s) {
      var i, j :| 0 < i && i + 1 < j < |s| - 1 && s[i] == '@' && s[j] == '.'
                  && NoAt(s[..i]) && NoAt(s[i + 1..j]) && NoAt(s[j + 1..]);
      EmailParts(s, i, j);
    }
    if exists p :: 0 < p < |s| && s[p] == '@' && OnlyAt(s, p) && InnerDot(s[p + 1..]) {
      var p :| 0 < p < |s| && s[p] == '@' && OnlyAt(s, p) && InnerDot(s[p + 1..]);
      EmailFromShape(s, p);
    }
  }

  /** An address of that shape splits into the pieces the pattern asks for. */
  lemma EmailFromShape(s: string, p: nat)
    requires 0 < p < |s| && s[p] == '@' && OnlyAt(s, p) && InnerDot(s[p + 1..])
    ensures EmailMatches(s)
  {
    var d :| 0 < d < |s[p + 1..]| - 1 && s[p + 1..][d] == '.';
    var j := p + 1 + d;
    NoAtBetween(s, p, 0, p);
    NoAtBetween(s, p, p + 1, j);
    NoAtBetween(s, p, j + 1, |s|);
    assert s[0..p] == s[..p] && s[j + 1..|s|] == s[j + 1..];
    assert 0 < p && p + 1 < j < |s| - 1 && s[p] == '@' && s[j] == '.';
  }

  /** The only `@` of `s` is at `p`. */
  predicate OnlyAt(s: string, p: nat) {
    forall k :: 0 <= k < |s| && s[k] == '@' ==> k == p
  }

  /** The pieces of a match leave the `@` at `i` as the only one, and the `.` at `j`
      inside the domain. */
  lemma EmailParts(s: string, i: nat, j: nat)
    requires 0 < i && i + 1 < j < |s| - 1 && s[i] == '@' && s[j] == '.'
    requires NoAt(s[..i]) && NoAt(s[i + 1..j]) && NoAt(s[j + 1..])
    ensures OnlyAt(s, i) && InnerDot(s[i + 1..])
  {
    assert s[i + 1..][j - i - 1] == '.';
  }

  /** A stretch that avoids the only `@` holds none. */
  lemma NoAtBetween(s: string, p: nat, a: nat, b: nat)
    requires a <= b <= |s| && OnlyAt(s, p) && (p < a || b <= p)
    ensures NoAt(s[a..b])
  {
  }

  /** What the hook printed, one entry per `print`, and its exit status. */
  datatype HookRun = HookRun(lines: seq<string>, status: int)

  const ModuleHint := "Please use only letters, " + "numbers, and underscores, " + "and start with a letter or underscore."

  /** The line printed when both checks pass. */
  function SuccessLine(moduleName: string): string {
    "✅ Pre-generation validation passed for " + moduleName
  }

  /** The hook with the rendered answers: the module-name check first, then the e-mail
      check, and the success line only when both pass. */
  function Validate(moduleName: string, email: string): (r: HookRun)
    ensures r.status == 0 <==> ModuleNameMatches(moduleName) && EmailMatches(email)
    ensures r.status == 0 || r.status == 1
    ensures r.status == 0 ==> r.lines == [SuccessLine(moduleName)]
    ensures (SuccessLine(moduleName) in r.lines) <==> r.status == 0
    ensures !ModuleNameMatches(moduleName) ==>
              r.lines == ["ERROR: " + moduleName + " is not a valid Python module name!", ModuleHint]
    ensures ModuleNameMatches(moduleName) && !EmailMatches(email) ==>
              r.lines == ["ERROR: " + email + " is not a valid email address!"]
  {
    assert SuccessLine(moduleName)[0] == '✅' && ModuleHint[0] == 'P';
    assert ("ERROR: " + moduleName + " is not a valid Python module name!")[0] == 'E';
    assert ("ERROR: " + email + " is not a valid email address!")[0] == 'E';
    if !ModuleNameMatches(moduleName) then
      HookRun(["ERROR: " + moduleName + " is not a valid Python module name!", ModuleHint], 1)
    else if !EmailMatches(email) then
      HookRun(["ERROR: " + email + " is not a valid email address!"], 1)
    else
      HookRun([SuccessLine(moduleName)], 0)
  }
}
