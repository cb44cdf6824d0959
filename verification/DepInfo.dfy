/**
  `parse_depinfo` of `docs/agent/mutate.py`: the dependencies of the first rule
  of a Make-style dep-info file, with its continuation lines and escapes.

  `Printed` writes such a file; `ParsedPrinted` says the parser reads back
  exactly the paths that were written.
*/
module DepInfo {
  import opened Prelude

  // ------------------------------------------------------------- the parser

  /** The text before the first blank line. */
  function FirstRule(s: string): string {
    if s == "" || (|s| > 1 && s[0] == '\n' && s[1] == '\n') then "" else [s[0]] + FirstRule(s[1..])
  }

  /** Continuation lines joined: a backslash at the end of a line becomes a space. */
  function Unfolded(s: string): string
    decreases |s|
  {
    if s == "" then ""
    else if |s| > 1 && s[0] == '\\' && s[1] == '\n' then " " + Unfolded(s[2..])
    else [s[0]] + Unfolded(s[1..])
  }

  /** The rule after the colon that ends its target: the first that is not escaped and has white space behind it. */
  function AfterTarget(rule: string): Option<string>
    decreases |rule|
  {
    if |rule| < 2 then None
    else if rule[0] == '\\' then AfterTarget(rule[2..])
    else if rule[0] == ':' && rule[1] in " \n" then Some(rule[1..])
    else AfterTarget(rule[1..])
  }

  function Flushed(cur: string): seq<string> { if cur == "" then [] else [cur] }

  /** The words of the rest of a rule, `cur` being the word begun. */
  function Words(body: string, cur: string, space: char -> bool): seq<string>
    decreases |body|
  {
    if body == "" then Flushed(cur)
    else if body[0] == '\\' && |body| > 1 && body[1] in " #\\" then Words(body[2..], cur + [body[1]], space)
    else if space(body[0]) then Flushed(cur) + Words(body[1..], "", space)
    else Words(body[1..], cur + [body[0]], space)
  }

  function Parsed(text: string, space: char -> bool): seq<string> {
    match AfterTarget(Unfolded(FirstRule(text)))
    case None => []
    case Some(body) => Words(body, "", space)
  }

  /** `parse_depinfo`. */
  method ParseDepInfo(text: string, space: char -> bool) returns (deps: seq<string>)
    ensures deps == Parsed(text, space)
  {
    var rule := Unfolded(FirstRule(text));
    var i := 0;
    var targetEnd: Option<nat> := None;
    while i < |rule| - 1 && targetEnd.None?
      invariant 0 <= i <= |rule| + 1
      invariant targetEnd.None? ==> AfterTarget(rule) == AfterTarget(rule[if i < |rule| then i else |rule|..])
      invariant targetEnd.Some? ==> targetEnd.value < |rule| && AfterTarget(rule) == Some(rule[targetEnd.value + 1..])
      decreases |rule| - i, if targetEnd.None? then 1 else 0
    {
      var rest := rule[i..];
      if rule[i] == '\\' {
        assert rest[2..] == rule[i + 2..];
        i := i + 2;
      } else if rule[i] == ':' && rule[i + 1] in " \n" {
        assert rest[1..] == rule[i + 1..];
        targetEnd := Some(i);
      } else {
        assert rest[1..] == rule[i + 1..];
        i := i + 1;
      }
    }
    if targetEnd.None? { return []; }
    deps := Split(rule[targetEnd.value + 1..], space);
  }

  /** The second loop of `parse_depinfo`. */
  method Split(body: string, space: char -> bool) returns (deps: seq<string>)
    ensures deps == Words(body, "", space)
  {
    deps := [];
    var cur := "";
    var i := 0;
    while i < |body|
      invariant 0 <= i <= |body|
      invariant deps + Words(body[i..], cur, space) == Words(body, "", space)
    {
      var c := body[i];
      ghost var rest := body[i..];
      if c == '\\' && i + 1 < |body| && body[i + 1] in " #\\" {
        assert rest[2..] == body[i + 2..];
        cur := cur + [body[i + 1]];
        i := i + 2;
      } else {
        assert rest[1..] == body[i + 1..];
        if space(c) {
          ghost var done := deps;
          deps := deps + Flushed(cur);
          assert deps + Words(body[i + 1..], "", space) == done + (Flushed(cur) + Words(body[i + 1..], "", space));
          cur := "";
        } else {
          cur := cur + [c];
        }
        i := i + 1;
      }
    }
    assert body[i..] == "";
    deps := deps + Flushed(cur);
  }

  // ------------------------------------------------------------ the printer

  /** A dependency, and whether a line is broken before it. */
  datatype Dep = Dep(path: string, broken: bool)

  function EscapedChar(c: char): string { if c in " #\\" then ['\\', c] else [c] }

  /** A path with its spaces, hashes and backslashes escaped, then `tail`. */
  function Escaped(path: string, tail: string): string {
    if path == "" then tail else EscapedChar(path[0]) + Escaped(path[1..], tail)
  }

  function Body(deps: seq<Dep>, tail: string): string {
    if deps == [] then tail
    else (if deps[0].broken then " \\\n" else " ") + Escaped(deps[0].path, Body(deps[1..], tail))
  }

  /** The rule as it is once continuation lines are joined. */
  function Joined(deps: seq<Dep>, tail: string): string {
    if deps == [] then tail
    else (if deps[0].broken then "  " else " ") + Escaped(deps[0].path, Joined(deps[1..], tail))
  }

  function Printed(target: string, deps: seq<Dep>, end: string): string {
    Escaped(target, ":" + Body(deps, end))
  }

  function Paths(deps: seq<Dep>): seq<string> {
    if deps == [] then [] else [deps[0].path] + Paths(deps[1..])
  }

  /** A path that can be written: its only white space is the space. */
  predicate Writable(path: string, space: char -> bool) {
    forall k :: 0 <= k < |path| ==> path[k] != '\n' && (space(path[k]) ==> path[k] == ' ')
  }

  predicate WritableDeps(deps: seq<Dep>, space: char -> bool) {
    forall k :: 0 <= k < |deps| ==> deps[k].path != "" && Writable(deps[k].path, space)
  }

  /** The file ends with the rule, or a blank line follows it. */
  predicate RuleEnd(end: string) {
    end == "" || (|end| > 1 && end[0] == '\n' && end[1] == '\n')
  }

  // ---------------------------------------------------------------- the proof

  lemma RuleChar(c: char, t: string)
    requires c != '\n'
    ensures FirstRule([c] + t) == [c] + FirstRule(t)
    ensures !(c == '\\' && t != "" && t[0] == '\n') ==> Unfolded([c] + t) == [c] + Unfolded(t)
  {
    assert ([c] + t)[1..] == t;
  }

  /** One escaped character goes through the first two steps as it is, unless a newline follows it at once. */
  lemma CharUnfolded(c: char, t: string)
    requires c != '\n'
    ensures FirstRule(EscapedChar(c) + t) == EscapedChar(c) + FirstRule(t)
    ensures t == "" || t[0] != '\n' ==> Unfolded(EscapedChar(c) + t) == EscapedChar(c) + Unfolded(t)
  {
    hide FirstRule, Unfolded;
    RuleChar(c, t);
    if c in " #\\" {
      assert forall u: string :: ['\\', c] + u == ['\\'] + ([c] + u);
      RuleChar('\\', [c] + t);
    }
  }

  /** So does an escaped path. */
  lemma {:induction false} EscapedUnfolded(path: string, tail: string)
    requires forall k :: 0 <= k < |path| ==> path[k] != '\n'
    ensures FirstRule(Escaped(path, tail)) == Escaped(path, FirstRule(tail))
    ensures (path == "" || tail == "" || tail[0] != '\n') ==> Unfolded(Escaped(path, tail)) == Escaped(path, Unfolded(tail))
    decreases |path|
  {
    hide FirstRule, Unfolded, EscapedChar;
    if path != "" {
      EscapedUnfolded(path[1..], tail);
      EscapedHead(path[1..], tail);
      CharUnfolded(path[0], Escaped(path[1..], tail));
    }
  }

  lemma EscapedHead(path: string, tail: string)
    requires forall k :: 0 <= k < |path| ==> path[k] != '\n'
    ensures path == "" ==> Escaped(path, tail) == tail
    ensures path != "" ==> Escaped(path, tail) != "" && Escaped(path, tail)[0] != '\n'
  {
  }

  lemma {:induction false} BodyUnfolded(deps: seq<Dep>, end: string, space: char -> bool)
    requires WritableDeps(deps, space) && RuleEnd(end)
    ensures Unfolded(FirstRule(Body(deps, end))) == Joined(deps, "")
    ensures deps != [] ==> Body(deps, end) != "" && Body(deps, end)[0] == ' '
    ensures var r := FirstRule(Body(deps, end)); r == "" || r[0] != '\n'
    decreases |deps|
  {
    if deps != [] {
      var d, rest := deps[0], Body(deps[1..], end);
      BodyUnfolded(deps[1..], end, space);
      EscapedUnfolded(d.path, rest);
      EscapedUnfolded(d.path, FirstRule(rest));
      EscapedHead(d.path, rest);
      SeparatorUnfolded(d.broken, Escaped(d.path, rest));
    }
  }

  /** The separators: a space, or a space and a continuation line. */
  lemma SeparatorUnfolded(broken: bool, t: string)
    requires t != "" && t[0] != '\n'
    ensures FirstRule((if broken then " \\\n" else " ") + t) == (if broken then " \\\n" else " ") + FirstRule(t)
    ensures Unfolded((if broken then " \\\n" else " ") + FirstRule(t)) == (if broken then "  " else " ") + Unfolded(FirstRule(t))
  {
    hide FirstRule, Unfolded;
    RuleChar(' ', t);
    RuleChar(' ', FirstRule(t));
    BrokenRule(t);
    BrokenUnfolded(FirstRule(t));
  }

  lemma Three(a: char, b: char, c: char, t: string)
    ensures [a, b, c] + t == [a] + ([b] + ([c] + t))
  {
  }

  lemma BrokenRule(t: string)
    requires t != "" && t[0] != '\n'
    ensures FirstRule(" \\\n" + t) == " \\\n" + FirstRule(t)
  {
    hide FirstRule;
    Three(' ', '\\', '\n', t);
    Three(' ', '\\', '\n', FirstRule(t));
    RuleChar(' ', ['\\'] + (['\n'] + t));
    RuleChar('\\', ['\n'] + t);
    NewlineChar(t);
  }

  lemma BrokenUnfolded(t: string)
    ensures Unfolded(" \\\n" + t) == "  " + Unfolded(t)
  {
    hide Unfolded;
    Three(' ', '\\', '\n', t);
    assert "\\\n" + t == ['\\'] + (['\n'] + t);
    RuleChar(' ', ['\\'] + (['\n'] + t));
    FoldedChar(t);
    assert [' '] + (" " + Unfolded(t)) == "  " + Unfolded(t);
  }

  lemma NewlineChar(t: string)
    requires t != "" && t[0] != '\n'
    ensures FirstRule(['\n'] + t) == ['\n'] + FirstRule(t)
  {
    assert (['\n'] + t)[1..] == t;
  }

  lemma FoldedChar(t: string)
    ensures Unfolded("\\\n" + t) == " " + Unfolded(t)
  {
    assert ("\\\n" + t)[2..] == t;
  }

  lemma {:induction false} TargetSkipped(target: string, body: string)
    requires body != "" && body[0] in " \n"
    requires forall k :: 0 <= k < |target| ==> target[k] != '\n'
    ensures AfterTarget(Escaped(target, ":" + body)) == Some(body)
    decreases |target|
  {
    if target == "" {
      assert (":" + body)[1..] == body;
    } else {
      var c, rest := target[0], Escaped(target[1..], ":" + body);
      TargetSkipped(target[1..], body);
      TargetHead(target[1..], ":" + body);
      if c in " #\\" {
        assert (['\\', c] + rest)[2..] == rest;
      } else {
        assert ([c] + rest)[1..] == rest;
      }
    }
  }

  lemma TargetHead(target: string, tail: string)
    requires forall k :: 0 <= k < |target| ==> target[k] != '\n'
    requires tail != "" && tail[0] == ':'
    ensures var t := Escaped(target, tail); t != "" && t[0] != ' ' && t[0] != '\n'
  {
  }

  /** Without a colon that has white space behind it there is no target, and nothing is read. */
  lemma {:induction false} TargetAlone(target: string)
    requires forall k :: 0 <= k < |target| ==> target[k] != '\n'
    ensures AfterTarget(Escaped(target, ":")) == None
    decreases |target|
  {
    if target != "" {
      var c, rest := target[0], Escaped(target[1..], ":");
      TargetAlone(target[1..]);
      TargetHead(target[1..], ":");
      if c in " #\\" {
        assert (['\\', c] + rest)[2..] == rest;
      } else {
        assert ([c] + rest)[1..] == rest;
      }
    }
  }

  /** An escaped path is read as itself, on to what follows it. */
  lemma {:induction false} PathRead(path: string, tail: string, cur: string, space: char -> bool)
    requires Writable(path, space) && !space('\\') && !space('#')
    ensures Words(Escaped(path, tail), cur, space) == Words(tail, cur + path, space)
    decreases |path|
  {
    if path == "" {
      assert cur + path == cur;
    } else {
      var c, rest := path[0], Escaped(path[1..], tail);
      PathRead(path[1..], tail, cur + [c], space);
      assert cur + [c] + path[1..] == cur + path;
      if c in " #\\" {
        assert Escaped(path, tail)[2..] == rest;
      } else {
        assert Escaped(path, tail)[1..] == rest;
      }
    }
  }

  lemma {:induction false} JoinedRead(deps: seq<Dep>, end: string, cur: string, space: char -> bool)
    requires WritableDeps(deps, space) && space(' ') && !space('\\') && !space('#')
    requires end == "" || (end == "\n" && space('\n'))
    ensures Words(Joined(deps, end), cur, space) == Flushed(cur) + Paths(deps)
    decreases |deps|
  {
    if deps == [] {
      assert Flushed(cur) + Paths(deps) == Flushed(cur);
      assert "\n"[1..] == "" && Flushed(cur) + Flushed("") == Flushed(cur);
    } else {
      var d, rest := deps[0], Escaped(deps[0].path, Joined(deps[1..], end));
      SpacesRead(d.broken, rest, cur, space);
      PathRead(d.path, Joined(deps[1..], end), "", space);
      assert "" + d.path == d.path;
      JoinedRead(deps[1..], end, d.path, space);
    }
  }

  lemma SpacesRead(broken: bool, t: string, cur: string, space: char -> bool)
    requires space(' ')
    ensures Words((if broken then "  " else " ") + t, cur, space) == Flushed(cur) + Words(t, "", space)
  {
    assert (" " + t)[1..] == t;
    if broken {
      assert ("  " + t)[1..] == " " + t;
      assert Flushed("") + Words(t, "", space) == Words(t, "", space);
    }
  }

  /** Whatever the target and the paths, wherever lines are broken, and whatever
      follows a blank line: the parser returns exactly the paths. */
  lemma ParsedPrinted(target: string, deps: seq<Dep>, end: string, space: char -> bool)
    requires Writable(target, space) && WritableDeps(deps, space) && RuleEnd(end)
    requires space(' ') && !space('\\') && !space('#')
    ensures Parsed(Printed(target, deps, end), space) == Paths(deps)
  {
    var body := Body(deps, end);
    BodyUnfolded(deps, end, space);
    EscapedUnfolded(target, ":" + body);
    RuleChar(':', body);
    EscapedUnfolded(target, ":" + FirstRule(body));
    RuleChar(':', FirstRule(body));
    if deps == [] {
      TargetAlone(target);
      assert ":" + Joined(deps, "") == ":";
    } else {
      TargetSkipped(target, Joined(deps, ""));
      JoinedRead(deps, "", "", space);
      assert Flushed("") + Paths(deps) == Paths(deps);
    }
  }

  // ------------------------------------------------- a single newline at the end

  predicate EndsInBackslash(path: string) { path != "" && path[|path| - 1] == '\\' }

  /** What is made of the last path when a newline follows it: its final
      backslash is taken for a continuation line, and what is left escapes the space. */
  function AsRead(deps: seq<Dep>): seq<Dep> {
    if deps == [] then []
    else if |deps| > 1 then [deps[0]] + AsRead(deps[1..])
    else if EndsInBackslash(deps[0].path) then [deps[0].(path := deps[0].path[..|deps[0].path| - 1] + " ")]
    else deps
  }

  predicate LastEndsInBackslash(deps: seq<Dep>) { deps != [] && EndsInBackslash(deps[|deps| - 1].path) }

  /** A path just before the newline. */
  lemma {:induction false} PathBeforeNewline(path: string)
    requires path != "" && forall k :: 0 <= k < |path| ==> path[k] != '\n'
    ensures Unfolded(Escaped(path, "\n")) ==
            if EndsInBackslash(path) then Escaped(path[..|path| - 1] + " ", "") else Escaped(path, "\n")
    decreases |path|
  {
    var (c, rest) := (path[0], path[1..]);
    if rest == "" {
      OneBeforeNewline(c);
      assert path == [c] && path[..0] + " " == " ";
    } else {
      PathBeforeNewline(rest);
      EscapedHead(rest, "\n");
      CharUnfolded(c, Escaped(rest, "\n"));
      assert path[..|path| - 1] + " " == [c] + (rest[..|rest| - 1] + " ");
      EscapedFirst(c, rest[..|rest| - 1] + " ");
    }
  }

  lemma EscapedFirst(c: char, path: string)
    ensures Escaped([c] + path, "") == EscapedChar(c) + Escaped(path, "")
  {
    assert ([c] + path)[1..] == path;
  }

  lemma OneBeforeNewline(c: char)
    requires c != '\n'
    ensures Unfolded(Escaped([c], "\n")) == if c == '\\' then Escaped(" ", "") else Escaped([c], "\n")
  {
    assert [c][1..] == "" && " "[1..] == "" && "\n"[1..] == "";
    assert Escaped([c], "\n") == EscapedChar(c) + "\n" && Escaped(" ", "") == "\\ ";
    if c == '\\' {
      assert Escaped([c], "\n") == ['\\'] + "\\\n";
      FoldedChar("");
      assert "\\\n" + "" == "\\\n" && " " + Unfolded("") == " " && Unfolded("\\\n") == " ";
      RuleChar('\\', "\\\n");
      assert ['\\'] + " " == "\\ ";
    } else if c in " #" {
      assert ['\\', c] + "\n" == ['\\'] + ([c] + "\n");
      RuleChar('\\', [c] + "\n");
      RuleChar(c, "\n");
    } else {
      RuleChar(c, "\n");
    }
  }

  /** The body of a rule that ends with a newline. */
  lemma {:induction false} BodyBeforeNewline(deps: seq<Dep>, space: char -> bool)
    requires WritableDeps(deps, space)
    ensures FirstRule(Body(deps, "\n")) == Body(deps, "\n") != ""
    ensures deps != [] ==> Body(deps, "\n")[0] == ' '
    ensures Unfolded(Body(deps, "\n")) == Joined(AsRead(deps), if LastEndsInBackslash(deps) then "" else "\n")
    decreases |deps|
  {
    if deps == [] {
      assert "\n"[1..] == "";
    } else {
      var d, rest := deps[0], Body(deps[1..], "\n");
      BodyBeforeNewline(deps[1..], space);
      EscapedHead(d.path, rest);
      EscapedUnfolded(d.path, rest);
      SeparatorUnfolded(d.broken, Escaped(d.path, rest));
      if |deps| == 1 {
        PathBeforeNewline(d.path);
      }
    }
  }

  lemma {:induction false} AsReadDiffers(deps: seq<Dep>, space: char -> bool)
    requires WritableDeps(deps, space) && space(' ')
    ensures WritableDeps(AsRead(deps), space)
    ensures Paths(AsRead(deps)) == Paths(deps) <==> !LastEndsInBackslash(deps)
    decreases |deps|
  {
    if |deps| > 1 {
      AsReadDiffers(deps[1..], space);
      assert Paths(AsRead(deps))[1..] == Paths(AsRead(deps[1..])) && Paths(deps)[1..] == Paths(deps[1..]);
    } else if LastEndsInBackslash(deps) {
      assert Paths(AsRead(deps))[0][|deps[0].path| - 1] == ' ';
    }
  }

  /** Where the file ends with one newline the paths are read back exactly if the last one does not end in a backslash. */
  lemma ParsedBeforeNewline(target: string, deps: seq<Dep>, space: char -> bool)
    requires Writable(target, space) && WritableDeps(deps, space)
    requires space(' ') && space('\n') && !space('\\') && !space('#')
    ensures Parsed(Printed(target, deps, "\n"), space) == Paths(AsRead(deps))
    ensures Parsed(Printed(target, deps, "\n"), space) == Paths(deps) <==> !LastEndsInBackslash(deps)
  {
    var body, end := Body(deps, "\n"), if LastEndsInBackslash(deps) then "" else "\n";
    BodyBeforeNewline(deps, space);
    EscapedUnfolded(target, ":" + body);
    RuleChar(':', body);
    AsReadDiffers(deps, space);
    JoinedRead(AsRead(deps), end, "", space);
    assert Flushed("") + Paths(AsRead(deps)) == Paths(AsRead(deps));
    TargetSkipped(target, Joined(AsRead(deps), end));
  }
}
