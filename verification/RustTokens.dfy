/**
  Rust source as it is written, token by token, and the theorem that
  `code_only` gives back exactly what is not a comment.
*/
module RustTokens {
  import opened Prelude
  import opened RustScanner

  /** A character of a string literal, as it stands or escaped. */
  datatype Chr = Lit(c: char) | Esc(c: char)

  /** The inside of a block comment: text, and block comments nested in it. */
  datatype Inside = Nil | Text(c: char, tail: Inside) | Nest(inner: Inside, tail: Inside)

  datatype Token =
    | Plain(c: char)                                        // one character outside of any literal
    | Str(body: seq<Chr>)                                   // "…", the prefix of b"…" being plain
    | Raw(prefix: string, hashes: nat, text: string)        // r#"…"#
    | Letter(c: char)                                       // 'x'
    | EscapedLetter(c: char, more: string)                  // '\n', '\u{…}'
    | Tick                                                  // the quote of a lifetime
    | LineComment(text: string)
    | BlockComment(inside: Inside)

  function Hashes(n: nat): (r: string)
    ensures |r| == n && forall k :: 0 <= k < n ==> r[k] == '#'
  {
    seq(n, _ => '#')
  }

  function QuotedChr(ch: Chr): string {
    match ch
    case Lit(c) => [c]
    case Esc(c) => ['\\', c]
  }

  function Quoted(body: seq<Chr>): string {
    if body == [] then "" else QuotedChr(body[0]) + Quoted(body[1..])
  }

  function Commented(inside: Inside): string {
    match inside
    case Nil => ""
    case Text(c, tail) => [c] + Commented(tail)
    case Nest(inner, tail) => "/*" + (Commented(inner) + "*/") + Commented(tail)
  }

  function Written(t: Token): string {
    match t
    case Plain(c) => [c]
    case Str(body) => "\"" + (Quoted(body) + "\"")
    case Raw(prefix, hashes, text) => prefix + (Hashes(hashes) + ("\"" + (text + ("\"" + Hashes(hashes)))))
    case Letter(c) => ['\'', c, '\'']
    case EscapedLetter(c, more) => ['\'', '\\', c] + (more + "'")
    case Tick => "'"
    case LineComment(text) => "//" + text
    case BlockComment(inside) => "/*" + (Commented(inside) + "*/")
  }

  function Rendered(ts: seq<Token>): string {
    if ts == [] then "" else Written(ts[0]) + Rendered(ts[1..])
  }

  predicate IsComment(t: Token) { t.LineComment? || t.BlockComment? }

  /** What kind of segment a token belongs to. */
  function KindOf(t: Token): Kind {
    match t
    case LineComment(_) => Line
    case BlockComment(_) => Block
    case _ => RustScanner.Code
  }

  /** The token that holds the character at offset `p` of what is written. */
  function TokenAt(ts: seq<Token>, p: nat): Option<Token> {
    if ts == [] then None
    else if p < |Written(ts[0])| then Some(ts[0])
    else TokenAt(ts[1..], p - |Written(ts[0])|)
  }

  /** What is written of the tokens that are no comments. */
  function Code(ts: seq<Token>): string {
    if ts == [] then "" else (if IsComment(ts[0]) then "" else Written(ts[0])) + Code(ts[1..])
  }

  predicate Starts(u: string, c: char) { |u| > 0 && u[0] == c }

  /** Neither `/*` nor `*/` comes about in the text of a comment that ends as `after` says. */
  predicate GoodInside(inside: Inside) {
    match inside
    case Nil => true
    case Text(c, tail) =>
      var next := (Commented(tail) + "*/")[0];
      !(c == '/' && next == '*') && !(c == '*' && next == '/') && GoodInside(tail)
    case Nest(inner, tail) => GoodInside(inner) && GoodInside(tail)
  }

  /** Whether a raw string opens at the start of `u`: a prefix, hashes, and a quote. */
  predicate OpensRaw(u: string) {
    if Starts(u, 'r') then HashesThenQuote(u[1..])
    else |u| > 1 && u[0] in "bc" && u[1] == 'r' && HashesThenQuote(u[2..])
  }

  predicate HashesThenQuote(u: string) {
    |u| > 0 && (u[0] == '"' || (u[0] == '#' && HashesThenQuote(u[1..])))
  }

  /** An identifier goes on after `before`. */
  predicate InIdent(alnum: char -> bool, before: string) {
    |before| > 0 && (alnum(before[|before| - 1]) || before[|before| - 1] == '_')
  }

  /** The token may stand between what is written before it and what is written
      after it, and is read there as itself. */
  predicate Fits(alnum: char -> bool, before: string, t: Token, after: string) {
    match t
    case Plain(c) =>
      && c != '"' && c != '\''
      && !(c == '/' && (Starts(after, '/') || Starts(after, '*')))
      && !(OpensRaw([c] + after) && !InIdent(alnum, before))
    case Str(body) => forall k :: 0 <= k < |body| && body[k].Lit? ==> body[k].c != '"' && body[k].c != '\\'
    case Raw(prefix, hashes, text) =>
      && prefix in ["r", "br", "cr"] && !InIdent(alnum, before)
      && forall k: nat :: k < |text| ==> !Occurs(text + ("\"" + Hashes(hashes)), "\"" + Hashes(hashes), k)
    case Letter(c) => c != '\\'
    case EscapedLetter(c, more) => '\'' !in more
    case Tick => !Starts(after, '\\') && !(|after| > 1 && after[1] == '\'')
    case LineComment(text) => '\n' !in text && (after == "" || after[0] == '\n')
    case BlockComment(inside) => GoodInside(inside)
  }

  predicate WellFormed(alnum: char -> bool, before: string, ts: seq<Token>)
    decreases |ts|
  {
    ts == [] || (Fits(alnum, before, ts[0], Rendered(ts[1..])) && WellFormed(alnum, before + Written(ts[0]), ts[1..]))
  }

  // --------------------------------------------- one step reads one token

  lemma Parts(s: string, a: string, b: string, i: nat)
    requires Occurs(s, a + b, i)
    ensures Occurs(s, a, i) && Occurs(s, b, i + |a|)
  {
    assert s[i..i + |a|] == (a + b)[..|a|];
    assert s[i + |a|..i + |a + b|] == (a + b)[|a|..];
  }

  lemma ThreeParts(s: string, a: string, b: string, c: string, d: string, i: nat)
    requires Occurs(s, (a + b + c) + d, i)
    ensures Occurs(s, a, i) && Occurs(s, b, i + |a|) && Occurs(s, c + d, i + |a| + |b|)
  {
    assert (a + b + c) + d == a + (b + (c + d));
    Parts(s, a, b + (c + d), i);
    Parts(s, b, c + d, i + |a|);
  }

  lemma Char(s: string, a: string, i: nat, k: nat)
    requires Occurs(s, a, i) && k < |a|
    ensures s[i + k] == a[k]
  {
    assert s[i + k] == s[i..i + |a|][k];
  }

  lemma ChrStep(src: Source, i: nat, ch: Chr, tail: string)
    requires Occurs(src.s, QuotedChr(ch) + tail, i) && (ch.Lit? ==> ch.c != '"' && ch.c != '\\')
    ensures Occurs(src.s, tail, i + |QuotedChr(ch)|) && src.StringEnd(i) == src.StringEnd(i + |QuotedChr(ch)|)
  {
    Parts(src.s, QuotedChr(ch), tail, i);
    Char(src.s, QuotedChr(ch), i, 0);
  }

  lemma {:induction false} StringRead(src: Source, i: nat, body: seq<Chr>)
    requires Occurs(src.s, Quoted(body) + "\"", i)
    requires forall k :: 0 <= k < |body| && body[k].Lit? ==> body[k].c != '"' && body[k].c != '\\'
    ensures src.StringEnd(i) == i + |Quoted(body)| + 1
    decreases |body|
  {
    if body == [] {
      Char(src.s, Quoted(body) + "\"", i, 0);
    } else {
      Glue(QuotedChr(body[0]), Quoted(body[1..]), "\"");
      hide Occurs, Source.StringEnd, QuotedChr;
      ChrStep(src, i, body[0], Quoted(body[1..]) + "\"");
      StringRead(src, i + |QuotedChr(body[0])|, body[1..]);
    }
  }

  lemma BlockStep(src: Source, i: nat, depth: nat)
    requires i + 1 < |src.s| && depth > 0
    ensures src.Two(i, '/', '*') ==> src.BlockEnd(i, depth) == src.BlockEnd(i + 2, depth + 1)
    ensures src.Two(i, '*', '/') ==> src.BlockEnd(i, depth) == src.BlockEnd(i + 2, depth - 1)
    ensures !src.Two(i, '/', '*') && !src.Two(i, '*', '/') ==> src.BlockEnd(i, depth) == src.BlockEnd(i + 1, depth)
  {
  }

  lemma TextStands(s: string, i: nat, c: char, tail: Inside)
    requires Occurs(s, Commented(Text(c, tail)) + "*/", i)
    ensures Occurs(s, Commented(tail) + "*/", i + 1) && s[i] == c && s[i + 1] == (Commented(tail) + "*/")[0]
  {
    assert Commented(Text(c, tail)) + "*/" == [c] + (Commented(tail) + "*/");
    Parts(s, [c], Commented(tail) + "*/", i);
    Char(s, [c], i, 0);
    Char(s, Commented(tail) + "*/", i + 1, 0);
  }

  function Size(inside: Inside): nat {
    match inside
    case Nil => 0
    case Text(_, tail) => 1 + Size(tail)
    case Nest(inner, tail) => Size(inner) + 4 + Size(tail)
  }

  lemma {:induction false} SizeOf(inside: Inside)
    ensures |Commented(inside)| == Size(inside)
    decreases inside
  {
    match inside {
      case Nil =>
      case Text(_, tail) => SizeOf(tail);
      case Nest(inner, tail) => SizeOf(inner); SizeOf(tail);
    }
  }

  lemma NestStands(src: Source, i: nat, inner: Inside, tail: Inside)
    requires Occurs(src.s, Commented(Nest(inner, tail)) + "*/", i)
    ensures src.Two(i, '/', '*') && Occurs(src.s, Commented(inner) + "*/", i + 2)
    ensures Occurs(src.s, Commented(tail) + "*/", i + 4 + Size(inner))
  {
    SizeOf(inner);
    assert Commented(Nest(inner, tail)) == "/*" + (Commented(inner) + "*/") + Commented(tail);
    hide Occurs, Commented, Size;
    ThreeParts(src.s, "/*", Commented(inner) + "*/", Commented(tail), "*/", i);
    Char(src.s, "/*", i, 0);
    Char(src.s, "/*", i, 1);
  }

  lemma NilStands(src: Source, i: nat)
    requires Occurs(src.s, Commented(Nil) + "*/", i)
    ensures src.Two(i, '*', '/')
  {
    Char(src.s, Commented(Nil) + "*/", i, 0);
    Char(src.s, Commented(Nil) + "*/", i, 1);
  }

  /** The inside of a comment, and what closes it, stand at `i`, character by character. */
  predicate Stands(src: Source, i: nat, inside: Inside)
    decreases inside
  {
    match inside
    case Nil => src.Two(i, '*', '/')
    case Text(c, tail) =>
      i + 1 < |src.s| && src.s[i] == c && !src.Two(i, '/', '*') && !src.Two(i, '*', '/') && Stands(src, i + 1, tail)
    case Nest(inner, tail) => src.Two(i, '/', '*') && Stands(src, i + 2, inner) && Stands(src, i + 4 + Size(inner), tail)
  }

  lemma {:induction false} WrittenStands(src: Source, i: nat, inside: Inside)
    requires Occurs(src.s, Commented(inside) + "*/", i) && GoodInside(inside)
    ensures Stands(src, i, inside)
    decreases inside
  {
    hide Occurs, Commented;
    match inside {
      case Nil =>
        NilStands(src, i);
      case Text(c, tail) =>
        TextStands(src.s, i, c, tail);
        WrittenStands(src, i + 1, tail);
      case Nest(inner, tail) =>
        NestStands(src, i, inner, tail);
        WrittenStands(src, i + 2, inner);
        WrittenStands(src, i + 4 + Size(inner), tail);
    }
  }

  lemma {:induction false} BlockRead(src: Source, i: nat, inside: Inside, depth: nat)
    requires Stands(src, i, inside) && depth > 0
    ensures i + Size(inside) + 2 <= |src.s|
    ensures src.BlockEnd(i, depth) == src.BlockEnd(i + Size(inside) + 2, depth - 1)
    decreases inside
  {
    BlockStep(src, i, depth);
    match inside {
      case Nil =>
      case Text(c, tail) => BlockRead(src, i + 1, tail, depth);
      case Nest(inner, tail) =>
        BlockRead(src, i + 2, inner, depth + 1);
        BlockRead(src, i + 4 + Size(inner), tail, depth);
    }
  }

  lemma {:induction false} QuoteAfterHashes(src: Source, j: nat)
    requires j <= |src.s|
    ensures var k := src.HashEnd(j); (k < |src.s| && src.s[k] == '"') == HashesThenQuote(src.s[j..])
    decreases |src.s| - j
  {
    if j < |src.s| {
      assert src.s[j..][1..] == src.s[j + 1..];
      QuoteAfterHashes(src, j + 1);
    }
  }

  /** The text is `before`, then `here`, then `after`. */
  lemma Place(s: string, before: string, here: string, after: string)
    requires s == before + (here + after)
    ensures Occurs(s, here, |before|) && s[|before| + |here|..] == after
    ensures forall k :: 0 <= k < |here| ==> s[|before| + k] == here[k]
    ensures |before| > 0 ==> s[|before| - 1] == before[|before| - 1]
  {
    assert (here + after)[..|here|] == here;
    assert s[|before|..|before| + |here|] == (here + after)[..|here|];
    forall k | 0 <= k < |here| ensures s[|before| + k] == here[k] {
      assert s[|before| + k] == (here + after)[k];
    }
  }

  lemma PlainStep(src: Source, before: string, c: char, after: string)
    requires src.s == before + ([c] + after) && Fits(src.alnum, before, Plain(c), after)
    ensures src.KindAt(|before|) == RustScanner.Code && src.CodeEnd(|before|) == |before| + 1
  {
    var i := |before|;
    Place(src.s, before, [c], after);
    assert i + 1 < |src.s| ==> src.s[i + 1] == src.s[i + 1..][0];
    if src.RawPrefix(i) {
      var j := i + (if c != 'r' then 2 else 1);
      QuoteAfterHashes(src, j);
      assert src.s[j..] == if c != 'r' then after[1..] else after;
      assert ([c] + after)[1..] == after && ([c] + after)[j - i..] == src.s[j..];
    }
  }

  lemma StrStep(src: Source, i: nat, body: seq<Chr>)
    requires Occurs(src.s, "\"" + (Quoted(body) + "\""), i)
    requires forall k :: 0 <= k < |body| && body[k].Lit? ==> body[k].c != '"' && body[k].c != '\\'
    ensures src.KindAt(i) == RustScanner.Code && src.CodeEnd(i) == i + |Quoted(body)| + 2
  {
    Parts(src.s, "\"", Quoted(body) + "\"", i);
    Char(src.s, "\"", i, 0);
    StringRead(src, i + 1, body);
  }

  lemma LetterStep(src: Source, before: string, c: char, after: string)
    requires src.s == before + (['\'', c, '\''] + after) && c != '\\'
    ensures src.KindAt(|before|) == RustScanner.Code && src.CodeEnd(|before|) == |before| + 3
  {
    Place(src.s, before, ['\'', c, '\''], after);
  }

  lemma EscapedLetterStep(src: Source, i: nat, c: char, more: string)
    requires Occurs(src.s, ['\'', '\\', c] + (more + "'"), i) && '\'' !in more
    ensures src.KindAt(i) == RustScanner.Code && src.CodeEnd(i) == i + |more| + 4
  {
    var open := ['\'', '\\', c];
    Parts(src.s, open, more + "'", i);
    Char(src.s, open, i, 0);
    Char(src.s, open, i, 1);
    ClosingQuote(src.s, i + 3, more);
  }

  lemma ClosingQuote(s: string, from: nat, more: string)
    requires Occurs(s, more + "'", from) && '\'' !in more
    ensures Find(s, "'", from) == Some(from + |more|)
  {
    Parts(s, more, "'", from);
    forall k: nat | from <= k < from + |more| ensures !Occurs(s, "'", k) {
      Char(s, more, from, k - from);
      if Occurs(s, "'", k) { Char(s, "'", k, 0); }
    }
  }

  lemma TickStep(src: Source, before: string, after: string)
    requires src.s == before + ("'" + after) && Fits(src.alnum, before, Tick, after)
    ensures src.KindAt(|before|) == RustScanner.Code && src.CodeEnd(|before|) == |before| + 1
  {
    var i := |before|;
    Place(src.s, before, "'", after);
    assert i + 1 < |src.s| ==> src.s[i + 1] == src.s[i + 1..][0];
    assert i + 2 < |src.s| ==> src.s[i + 2] == src.s[i + 1..][1];
  }

  lemma LineStep(src: Source, i: nat, text: string, after: string)
    requires Occurs(src.s, "//" + text, i) && src.s[i + 2 + |text|..] == after
    requires '\n' !in text && (after == "" || after[0] == '\n')
    ensures src.KindAt(i) == Line && src.LineEnd(i) == i + 2 + |text|
  {
    Parts(src.s, "//", text, i);
    Char(src.s, "//", i, 0);
    Char(src.s, "//", i, 1);
    forall k: nat | i <= k < i + 2 + |text| ensures !Occurs(src.s, "\n", k) {
      Char(src.s, "//" + text, i, k - i);
      if Occurs(src.s, "\n", k) { Char(src.s, "\n", k, 0); }
    }
    if after != "" {
      assert src.s[i + 2 + |text|] == after[0];
      assert Occurs(src.s, "\n", i + 2 + |text|);
    }
  }

  lemma BlockCommentStep(src: Source, i: nat, inside: Inside)
    requires Occurs(src.s, "/*" + (Commented(inside) + "*/"), i) && GoodInside(inside)
    ensures src.KindAt(i) == Block && src.BlockEnd(i + 2, 1) == i + |Commented(inside)| + 4
  {
    hide Find, Occurs, GoodInside, Stands;
    Parts(src.s, "/*", Commented(inside) + "*/", i);
    Char(src.s, "/*", i, 0);
    Char(src.s, "/*", i, 1);
    WrittenStands(src, i + 2, inside);
    BlockRead(src, i + 2, inside, 1);
    SizeOf(inside);
  }

  /** A raw string is read up to its own closing quote and hashes. */
  lemma RawStep(src: Source, before: string, prefix: string, hs: string, text: string, close: string)
    requires Occurs(src.s, prefix + (hs + ("\"" + (text + close))), |before|)
    requires before <= src.s && prefix in ["r", "br", "cr"] && !InIdent(src.alnum, before)
    requires close == "\"" + hs && forall k :: 0 <= k < |hs| ==> hs[k] == '#'
    requires forall k: nat :: k < |text| ==> !Occurs(text + close, close, k)
    ensures src.KindAt(|before|) == RustScanner.Code
    ensures src.CodeEnd(|before|) == |before| + |prefix| + |hs| + 1 + |text| + |close|
  {
    hide *;
    RawParts(src.s, |before|, prefix, hs, text, close);
    RawPrefixStep(src, before, prefix);
    RawTailRead(src, |before|, |before| + |prefix|, hs, text, close);
  }

  lemma RawPrefixStep(src: Source, before: string, prefix: string)
    requires before <= src.s && Occurs(src.s, prefix, |before|)
    requires prefix in ["r", "br", "cr"] && !InIdent(src.alnum, before)
    ensures var i := |before|;
      src.KindAt(i) == RustScanner.Code && src.CodeEnd(i) == src.RawTail(i, i + |prefix|, src.HashEnd(i + |prefix|))
  {
    PrefixRead(src, before, prefix);
  }

  lemma RawTailRead(src: Source, i: nat, j: nat, hs: string, text: string, close: string)
    requires i < j && Occurs(src.s, hs, j) && j + |hs| < |src.s| && src.s[j + |hs|] == '"'
    requires close == "\"" + hs && forall k :: 0 <= k < |hs| ==> hs[k] == '#'
    requires Occurs(src.s, text + close, j + |hs| + 1)
    requires forall k: nat :: k < |text| ==> !Occurs(text + close, close, k)
    ensures src.HashEnd(j) == j + |hs|
    ensures src.RawTail(i, j, src.HashEnd(j)) == j + |hs| + 1 + |text| + |close|
  {
    hide *;
    HashesStand(src, j, hs);
    HashesAre(src.s, j, hs);
    RawTailIs(src, i, j, j + |hs|, hs, close);
    RawClose(src.s, j + |hs| + 1, text, close);
  }

  lemma HashesAre(s: string, j: nat, hs: string)
    requires Occurs(s, hs, j)
    ensures j + |hs| <= |s| && s[j..j + |hs|] == hs
  {
  }

  lemma RawTailIs(src: Source, i: nat, j: nat, k: nat, hs: string, close: string)
    requires i < j <= k < |src.s| && src.s[j..k] == hs && src.s[k] == '"' && close == "\"" + hs
    ensures Find(src.s, close, k + 1).Some? ==> src.RawTail(i, j, k) == Find(src.s, close, k + 1).value + |close|
  {
    hide Find;
  }

  lemma RawParts(s: string, i: nat, prefix: string, hs: string, text: string, close: string)
    requires Occurs(s, prefix + (hs + ("\"" + (text + close))), i)
    ensures Occurs(s, prefix, i) && Occurs(s, hs, i + |prefix|)
    ensures i + |prefix| + |hs| < |s| && s[i + |prefix| + |hs|] == '"'
    ensures Occurs(s, text + close, i + |prefix| + |hs| + 1)
  {
    Parts(s, prefix, hs + ("\"" + (text + close)), i);
    Parts(s, hs, "\"" + (text + close), i + |prefix|);
    Parts(s, "\"", text + close, i + |prefix| + |hs|);
    Char(s, "\"", i + |prefix| + |hs|, 0);
  }

  lemma PrefixRead(src: Source, before: string, prefix: string)
    requires before <= src.s && Occurs(src.s, prefix, |before|)
    requires prefix in ["r", "br", "cr"] && !InIdent(src.alnum, before)
    ensures var i := |before|; src.RawPrefix(i) && src.KindAt(i) == RustScanner.Code && |prefix| == if src.s[i] != 'r' then 2 else 1
  {
    Char(src.s, prefix, |before|, 0);
    if |prefix| == 2 { Char(src.s, prefix, |before|, 1); }
  }

  lemma HashesStand(src: Source, j: nat, hs: string)
    requires Occurs(src.s, hs, j) && j + |hs| < |src.s| && src.s[j + |hs|] == '"'
    requires forall k :: 0 <= k < |hs| ==> hs[k] == '#'
    ensures src.HashEnd(j) == j + |hs|
  {
    forall m | j <= m < j + |hs| ensures src.s[m] == '#' {
      Char(src.s, hs, j, m - j);
    }
  }

  lemma RawClose(s: string, from: nat, text: string, close: string)
    requires Occurs(s, text + close, from) && |close| > 0
    requires forall k: nat :: k < |text| ==> !Occurs(text + close, close, k)
    ensures Find(s, close, from) == Some(from + |text|)
  {
    Parts(s, text, close, from);
    var u := text + close;
    forall k: nat | from <= k < from + |text| ensures !Occurs(s, close, k) {
      if Occurs(s, close, k) {
        assert s[from..from + |u|][k - from..k - from + |close|] == s[k..k + |close|];
        assert Occurs(u, close, k - from);
      }
    }
  }

  lemma NextOf(src: Source, i: nat)
    requires i < |src.s|
    ensures src.KindAt(i) == RustScanner.Code ==> src.Next(i) == src.CodeEnd(i)
    ensures src.KindAt(i) == Line ==> src.Two(i, '/', '/') && src.Next(i) == src.LineEnd(i)
    ensures src.KindAt(i) == Block ==> i + 2 <= |src.s| && src.Next(i) == src.BlockEnd(i + 2, 1)
  {
  }

  /** A token that is no comment and no string. */
  lemma CharTokenStep(src: Source, before: string, t: Token, after: string)
    requires src.s == before + (Written(t) + after) && Fits(src.alnum, before, t, after) && !IsComment(t) && !t.Str? && !t.Raw?
    ensures |before| < |src.s| && src.KindAt(|before|) == RustScanner.Code && src.CodeEnd(|before|) == |before| + |Written(t)|
  {
    Place(src.s, before, Written(t), after);
    hide Source.Next, Source.KindAt, Source.CodeEnd, Source.LineEnd, Source.BlockEnd, Source.StringEnd, Source.HashEnd;
    hide Source.RawPrefix, Source.RawEnd, Source.RawTail, Source.TickEnd, Source.Two, Occurs, Find;
    match t {
      case Plain(c) => PlainStep(src, before, c, after);
      case Letter(c) => LetterStep(src, before, c, after);
      case EscapedLetter(c, more) => EscapedLetterStep(src, |before|, c, more);
      case Tick => TickStep(src, before, after);
    }
  }

  lemma StringTokenStep(src: Source, before: string, t: Token, after: string)
    requires src.s == before + (Written(t) + after) && Fits(src.alnum, before, t, after) && (t.Str? || t.Raw?)
    ensures |before| < |src.s| && src.KindAt(|before|) == RustScanner.Code && src.CodeEnd(|before|) == |before| + |Written(t)|
  {
    Place(src.s, before, Written(t), after);
    hide Source.Next, Source.KindAt, Source.CodeEnd, Source.LineEnd, Source.BlockEnd, Source.StringEnd, Source.HashEnd;
    hide Source.RawPrefix, Source.RawEnd, Source.RawTail, Source.TickEnd, Source.Two, Occurs, Find;
    match t {
      case Str(body) => StrStep(src, |before|, body);
      case Raw(prefix, hashes, text) => RawStep(src, before, prefix, Hashes(hashes), text, "\"" + Hashes(hashes));
    }
  }

  lemma CommentTokenStep(src: Source, before: string, t: Token, after: string)
    requires src.s == before + (Written(t) + after) && Fits(src.alnum, before, t, after) && IsComment(t)
    ensures |before| < |src.s| && src.KindAt(|before|) == KindOf(t) && src.Next(|before|) == |before| + |Written(t)|
  {
    Place(src.s, before, Written(t), after);
    NextOf(src, |before|);
    hide Source.Next, Source.KindAt, Source.CodeEnd, Source.LineEnd, Source.BlockEnd, Source.StringEnd, Source.HashEnd;
    hide Source.RawPrefix, Source.RawEnd, Source.RawTail, Source.TickEnd, Source.Two, Occurs, Find;
    match t {
      case LineComment(text) => LineStep(src, |before|, text, after);
      case BlockComment(inside) => BlockCommentStep(src, |before|, inside);
    }
  }

  lemma KindIsComment(t: Token)
    ensures KindOf(t) == RustScanner.Code <==> !IsComment(t)
    ensures t.Str? || t.Raw? ==> !IsComment(t)
  {
  }

  /** One step of the scanner reads one token, and reads it as what it is. */
  lemma TokenStep(src: Source, before: string, t: Token, after: string)
    requires src.s == before + (Written(t) + after) && Fits(src.alnum, before, t, after)
    ensures |before| < |src.s| && src.KindAt(|before|) == KindOf(t) && src.Next(|before|) == |before| + |Written(t)|
    ensures KindOf(t) == RustScanner.Code <==> !IsComment(t)
  {
    KindIsComment(t);
    hide *;
    if IsComment(t) {
      CommentTokenStep(src, before, t, after);
    } else {
      if t.Str? || t.Raw? { StringTokenStep(src, before, t, after); } else { CharTokenStep(src, before, t, after); }
      NextOf(src, |before|);
    }
  }

  lemma {:induction false} CodeTextConcat(src: Source, a: seq<Segment>, b: seq<Segment>)
    ensures src.CodeText(a + b) == src.CodeText(a) + src.CodeText(b)
    decreases |a|
  {
    if a == [] {
      assert a + b == b;
    } else {
      assert (a + b)[1..] == a[1..] + b;
      CodeTextConcat(src, a[1..], b);
    }
  }

  lemma SegmentsStep(src: Source, codeStart: nat, i: nat)
    requires codeStart <= i < |src.s|
    ensures src.KindAt(i) == RustScanner.Code ==> src.Segments(codeStart, i) == src.Segments(codeStart, src.Next(i))
    ensures src.KindAt(i) != RustScanner.Code ==>
      src.CodeText(src.Segments(codeStart, i)) == src.s[codeStart..i] + src.CodeText(src.Segments(src.Next(i), src.Next(i)))
  {
    hide Source.Next, Source.KindAt;
    if src.KindAt(i) != RustScanner.Code {
      var segment := Segment(src.KindAt(i), i, src.Next(i));
      CodeTextConcat(src, src.Flush(codeStart, i) + [segment], src.Segments(src.Next(i), src.Next(i)));
      CodeTextConcat(src, src.Flush(codeStart, i), [segment]);
      assert src.CodeText([segment]) == "";
      assert src.CodeText(src.Flush(codeStart, i)) == src.s[codeStart..i];
    }
  }

  lemma CommentJoin(src: Source, codeStart: nat, before: string, t: Token, after: string, code: string)
    requires src.s == before + (Written(t) + after) && Fits(src.alnum, before, t, after) && codeStart <= |before|
    requires IsComment(t)
    requires var n := |before| + |Written(t)|; src.CodeText(src.Segments(n, n)) == code
    ensures src.CodeText(src.Segments(codeStart, |before|)) == src.s[codeStart..|before|] + code
  {
    hide *;
    TokenStep(src, before, t, after);
    SegmentsStep(src, codeStart, |before|);
  }

  lemma CodeJoin(src: Source, codeStart: nat, before: string, t: Token, after: string, code: string)
    requires src.s == before + (Written(t) + after) && Fits(src.alnum, before, t, after) && codeStart <= |before|
    requires !IsComment(t)
    requires var n := |before| + |Written(t)|;
      n <= |src.s| && src.CodeText(src.Segments(codeStart, n)) == src.s[codeStart..n] + code
    ensures src.CodeText(src.Segments(codeStart, |before|)) == src.s[codeStart..|before|] + (Written(t) + code)
  {
    hide *;
    TokenStep(src, before, t, after);
    SegmentsStep(src, codeStart, |before|);
    Reaches(src.s, codeStart, before, Written(t), after);
    Glue(src.s[codeStart..|before|], Written(t), code);
  }

  /** On source printed from well-formed tokens the code segments hold exactly the tokens that are no comments. */
  lemma {:induction false} CodeOfTokens(src: Source, codeStart: nat, before: string, ts: seq<Token>)
    requires src.s == before + Rendered(ts) && WellFormed(src.alnum, before, ts) && codeStart <= |before|
    ensures src.CodeText(src.Segments(codeStart, |before|)) == src.s[codeStart..|before|] + Code(ts)
    decreases |ts|
  {
    hide *;
    RenderedOne(src.alnum, before, ts);
    if ts == [] {
      CodeAtEnd(src, codeStart);
    } else {
      var t, rest := ts[0], ts[1..];
      Reaches(src.s, 0, before, Written(t), Rendered(rest));
      if IsComment(t) {
        CodeOfTokens(src, |before + Written(t)|, before + Written(t), rest);
        CommentJoin(src, codeStart, before, t, Rendered(rest), Code(rest));
      } else {
        CodeOfTokens(src, codeStart, before + Written(t), rest);
        CodeJoin(src, codeStart, before, t, Rendered(rest), Code(rest));
      }
    }
  }

  lemma CodeAtEnd(src: Source, codeStart: nat)
    requires codeStart <= |src.s|
    ensures src.CodeText(src.Segments(codeStart, |src.s|)) == src.s[codeStart..]
  {
    assert src.Segments(codeStart, |src.s|) == src.Flush(codeStart, |src.s|);
  }

  lemma RenderedOne(alnum: char -> bool, before: string, ts: seq<Token>)
    requires WellFormed(alnum, before, ts)
    ensures ts == [] ==> Rendered(ts) == Code(ts) == ""
    ensures ts != [] ==> Rendered(ts) == Written(ts[0]) + Rendered(ts[1..])
    ensures ts != [] ==> Code(ts) == if IsComment(ts[0]) then Code(ts[1..]) else Written(ts[0]) + Code(ts[1..])
    ensures ts != [] ==> Fits(alnum, before, ts[0], Rendered(ts[1..])) && WellFormed(alnum, before + Written(ts[0]), ts[1..])
  {
    hide Fits, Written;
    if ts != [] { Glue("", "", Code(ts[1..])); }
  }

  lemma Reaches(s: string, from: nat, before: string, here: string, after: string)
    requires s == before + (here + after) && from <= |before|
    ensures s == (before + here) + after && s[from..|before + here|] == s[from..|before|] + here
  {
    assert s[..|before + here|] == before + here;
  }

  lemma Glue(a: string, b: string, c: string)
    ensures (a + b) + c == a + (b + c) && "" + c == c && a + "" == a
  {
  }

  /** `code_only` undoes printing, up to the comments. */
  lemma CodeOnlyOfTokens(alnum: char -> bool, ts: seq<Token>)
    requires WellFormed(alnum, "", ts)
    ensures var src := Source(Rendered(ts), alnum); src.CodeText(src.Segments(0, 0)) == Code(ts)
  {
    CodeOfTokens(Source(Rendered(ts), alnum), 0, "", ts);
  }

  // ------------------------------------------------------ where comments are

  lemma KindAtComment(src: Source, codeStart: nat, i: nat, p: nat)
    requires codeStart <= i < |src.s| && codeStart <= p < |src.s| && src.KindAt(i) != RustScanner.Code
    ensures Source.KindIn(src.Segments(codeStart, i), p) ==
      if p < i then Some(RustScanner.Code) else if p < src.Next(i) then Some(src.KindAt(i)) else Source.KindIn(src.Segments(src.Next(i), src.Next(i)), p)
  {
    hide Source.Next, Source.KindAt;
    var segment, rest := Segment(src.KindAt(i), i, src.Next(i)), src.Segments(src.Next(i), src.Next(i));
    assert [segment] + rest == [segment] + rest && ([segment] + rest)[1..] == rest;
    if codeStart < i {
      var flushed := Segment(RustScanner.Code, codeStart, i);
      assert src.Segments(codeStart, i) == [flushed] + ([segment] + rest);
      assert ([flushed] + ([segment] + rest))[1..] == [segment] + rest;
    } else {
      assert src.Segments(codeStart, i) == [segment] + rest;
    }
  }

  lemma KindAtEnd(src: Source, codeStart: nat, p: nat)
    requires codeStart <= p < |src.s|
    ensures Source.KindIn(src.Segments(codeStart, |src.s|), p) == Some(RustScanner.Code)
  {
    assert src.Segments(codeStart, |src.s|) == src.Flush(codeStart, |src.s|);
  }

  lemma TokenAtFirst(ts: seq<Token>, p: nat)
    requires ts != []
    ensures TokenAt(ts, p) == if p < |Written(ts[0])| then Some(ts[0]) else TokenAt(ts[1..], p - |Written(ts[0])|)
  {
    hide Written;
  }

  /** In the scan of printed tokens every character has the kind of its token; what stands before them, since `codeStart`, is code. */
  lemma {:induction false} KindsOfTokens(src: Source, codeStart: nat, before: string, ts: seq<Token>, p: nat)
    requires src.s == before + Rendered(ts) && WellFormed(src.alnum, before, ts) && codeStart <= |before| && codeStart <= p < |src.s|
    ensures p >= |before| ==> TokenAt(ts, p - |before|).Some?
    ensures Source.KindIn(src.Segments(codeStart, |before|), p) ==
      Some(if p < |before| then RustScanner.Code else KindOf(TokenAt(ts, p - |before|).value))
    decreases |ts|
  {
    hide *;
    RenderedOne(src.alnum, before, ts);
    if ts == [] {
      assert src.s == before by { Glue(before, "", ""); }
      KindAtEnd(src, codeStart, p);
    } else {
      var t, rest, n := ts[0], ts[1..], |before| + |Written(ts[0])|;
      Reaches(src.s, 0, before, Written(t), Rendered(rest));
      TokenStep(src, before, t, Rendered(rest));
      if p >= |before| { TokenAtFirst(ts, p - |before|); }
      if IsComment(t) {
        KindAtComment(src, codeStart, |before|, p);
        if p >= n { KindsOfTokens(src, n, before + Written(t), rest, p); }
      } else {
        SegmentsStep(src, codeStart, |before|);
        KindsOfTokens(src, codeStart, before + Written(t), rest, p);
      }
    }
  }

  /** `comment_at` of printed tokens: the kind of the comment a character belongs to, and none for one that belongs to no comment. */
  lemma CommentAtOfTokens(alnum: char -> bool, ts: seq<Token>, p: nat)
    requires WellFormed(alnum, "", ts) && p < |Rendered(ts)|
    ensures TokenAt(ts, p).Some?
    ensures Source(Rendered(ts), alnum).CommentAt(p) == match TokenAt(ts, p).value
      case LineComment(_) => Some(Line)
      case BlockComment(_) => Some(Block)
      case _ => None
  {
    hide Rendered, Written, WellFormed, Fits, TokenAt, Source.Segments, Source.KindIn;
    KindsOfTokens(Source(Rendered(ts), alnum), 0, "", ts, p);
  }
}
