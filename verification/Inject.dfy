/**
  `inject` of `docs/agent/mutate.py`: the one replacement a mutation makes, and
  the reasons to refuse it before any test is run.
*/
module Inject {
  import opened Prelude
  import opened RustScanner
  import RustTokens

  /** The code of `s`, without its comments. */
  ghost function CodeOf(s: string, alnum: char -> bool): string {
    var src := Source(s, alnum);
    src.CodeText(src.Segments(0, 0))
  }

  /** `re.sub(r"\s+", "", …)`. */
  function Squeezed(s: string, space: char -> bool): string {
    if s == "" then "" else (if space(s[0]) then "" else [s[0]]) + Squeezed(s[1..], space)
  }

  /** White space goes and everything else stays, in its order, wherever a text is cut. */
  lemma {:induction false} SqueezedMeans(a: string, b: string, space: char -> bool)
    ensures Squeezed(a + b, space) == Squeezed(a, space) + Squeezed(b, space)
    decreases |a|
  {
    if a == "" {
      assert a + b == b;
    } else {
      SqueezedMeans(a[1..], b, space);
      assert (a + b)[1..] == a[1..] + b && (a + b)[0] == a[0];
      Joins(if space(a[0]) then "" else [a[0]], Squeezed(a[1..], space), Squeezed(b, space));
    }
  }

  lemma Joins(a: string, b: string, c: string)
    ensures a + (b + c) == (a + b) + c
  {
  }

  lemma SqueezedChar(c: char, space: char -> bool)
    ensures Squeezed([c], space) == if space(c) then "" else [c]
  {
    assert [c][1..] == "";
  }

  predicate Contains(s: string, pat: string) { Find(s, pat, 0).Some? }

  /** `anchor` stands at `at` and at no place that does not overlap it. */
  ghost predicate OnlyAt(s: string, anchor: string, at: nat) {
    Occurs(s, anchor, at) && forall k: nat :: k < at || at + |anchor| <= k ==> !Occurs(s, anchor, k)
  }

  function Replaced(s: string, at: nat, n: nat, repl: string): string
    requires at + n <= |s|
  {
    s[..at] + repl + s[at + n..]
  }

  /** A mutation is accepted if and only if the anchor is unique, is not kept
      whole by the replacement, and the code changes in more than white space. */
  method Inject(s: string, anchor: string, repl: string, alnum: char -> bool, space: char -> bool) returns (r: Option<string>)
    ensures r.Some? ==> exists at: nat :: OnlyAt(s, anchor, at) && at + |anchor| <= |s| && r.value == s[..at] + repl + s[at + |anchor|..]
    ensures r.Some? ==> !Contains(repl, anchor)
    ensures r.Some? ==> Squeezed(CodeOf(s, alnum), space) != Squeezed(CodeOf(r.value, alnum), space)
    ensures forall at: nat ::
      (OnlyAt(s, anchor, at) && !Contains(repl, anchor)
       && Squeezed(CodeOf(s, alnum), space) != Squeezed(CodeOf(Replaced(s, at, |anchor|, repl), alnum), space)
       ==> r.Some?)
  {
    var first := Find(s, anchor, 0);
    if first.None? { return None; }
    var at := first.value;
    var second := Find(s, anchor, at + |anchor|);
    if second.Some? { return None; }
    if anchor == repl {
      assert Occurs(repl, anchor, 0);
      return None;
    }
    if Contains(repl, anchor) { return None; }
    var out := Replaced(s, at, |anchor|, repl);
    assert OnlyAt(s, anchor, at);
    assert forall k: nat :: OnlyAt(s, anchor, k) ==> k == at;
    var before := Source(s, alnum).CodeOnly();
    var after := Source(out, alnum).CodeOnly();
    if Squeezed(before, space) == Squeezed(after, space) { return None; }
    return Some(out);
  }

  /** Well-formed sources that differ only in their comments have the same
      code, so `inject` refuses to make one of the other. */
  lemma CommentsAreNoCode(alnum: char -> bool, space: char -> bool, ts: seq<RustTokens.Token>, us: seq<RustTokens.Token>)
    requires RustTokens.WellFormed(alnum, "", ts) && RustTokens.WellFormed(alnum, "", us)
    ensures Squeezed(CodeOf(RustTokens.Rendered(ts), alnum), space) == Squeezed(CodeOf(RustTokens.Rendered(us), alnum), space)
      <==> Squeezed(RustTokens.Code(ts), space) == Squeezed(RustTokens.Code(us), space)
  {
    RustTokens.CodeOnlyOfTokens(alnum, ts);
    RustTokens.CodeOnlyOfTokens(alnum, us);
  }
}
