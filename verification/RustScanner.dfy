/**
  The comment scanner of `docs/agent/mutate.py`: it cuts Rust source into code,
  line comments and block comments, so that a mutation that only touches a
  comment can be refused.

  A `Source` is the text with the classification of alphanumeric characters it
  is read under.  `Next` is one step of the scanner; `Rendered` prints tokens.
*/
module RustScanner {
  import opened Prelude

  datatype Kind = Code | Line | Block

  datatype Segment = Segment(kind: Kind, start: nat, end: nat)

  /** `pat` stands at position `k`. */
  predicate Occurs(s: string, pat: string, k: nat) { k + |pat| <= |s| && s[k..k + |pat|] == pat }

  /** `str.find`: the least position from `from` on where `pat` stands. */
  function Find(s: string, pat: string, from: nat): (r: Option<nat>)
    ensures r.Some? ==> from <= r.value && Occurs(s, pat, r.value)
    ensures forall k: nat :: from <= k && (r.Some? ==> k < r.value) ==> !Occurs(s, pat, k)
    decreases |s| - from
  {
    if from + |pat| > |s| then None
    else if Occurs(s, pat, from) then Some(from)
    else Find(s, pat, from + 1)
  }

  datatype Source = Source(s: string, alnum: char -> bool) {

    predicate Ident(c: char) { alnum(c) || c == '_' }

    /** The two characters from `i` on are `a` and `b`. */
    predicate Two(i: nat, a: char, b: char) { i + 1 < |s| && s[i] == a && s[i + 1] == b }

    /** The end of a block comment whose contents go on at `i`, `depth` deep. */
    function BlockEnd(i: nat, depth: nat): (e: nat)
      requires i <= |s|
      ensures i <= e <= |s|
      decreases |s| - i
    {
      if i >= |s| || depth == 0 then i
      else if Two(i, '/', '*') then BlockEnd(i + 2, depth + 1)
      else if Two(i, '*', '/') then BlockEnd(i + 2, depth - 1)
      else BlockEnd(i + 1, depth)
    }

    /** Just past the quote that ends a string whose contents go on at `i`. */
    function StringEnd(i: nat): (e: nat)
      ensures i < e
      decreases |s| - i
    {
      if i >= |s| || s[i] == '"' then i + 1
      else StringEnd(if s[i] == '\\' then i + 2 else i + 1)
    }

    function HashEnd(k: nat): (e: nat)
      requires k <= |s|
      ensures k <= e <= |s|
      ensures forall m :: k <= m < e ==> s[m] == '#'
      ensures e < |s| ==> s[e] != '#'
      decreases |s| - k
    {
      if k < |s| && s[k] == '#' then HashEnd(k + 1) else k
    }

    /** `r`, `br` or `cr` begins at `i`, not inside an identifier. */
    predicate RawPrefix(i: nat)
      requires i < |s|
    {
      && (s[i] == 'r' || (s[i] in "bc" && i + 1 < |s| && s[i + 1] == 'r'))
      && !(i > 0 && Ident(s[i - 1]))
    }

    function KindAt(i: nat): Kind
      requires i < |s|
    {
      if Two(i, '/', '/') then Line else if Two(i, '/', '*') then Block else Code
    }

    /** The end of the line comment at `i`. */
    function LineEnd(i: nat): (e: nat)
      requires i < |s| && Two(i, '/', '/')
      ensures i < e <= |s|
    {
      var end := Find(s, "\n", i);
      if end.None? then |s| else (assert s[end.value] == '\n' && s[i] == '/'; end.value)
    }

    /** Past the raw string whose opening quote is expected at `k`, after its hashes from `j` on; past `i` alone if there is none. */
    function RawTail(i: nat, j: nat, k: nat): (e: nat)
      requires i < j <= k <= |s|
      ensures i < e
    {
      if k < |s| && s[k] == '"' then
        var close := "\"" + s[j..k];
        var end := Find(s, close, k + 1);
        if end.None? then |s| else end.value + |close|
      else i + 1
    }

    /** Past the raw string at `i`, or past one character where none opens. */
    function RawEnd(i: nat): (e: nat)
      requires i < |s| && RawPrefix(i)
      ensures i < e
    {
      var j := i + (if s[i] != 'r' then 2 else 1);
      RawTail(i, j, HashEnd(j))
    }

    /** Past the character literal at `i`, or past the quote alone: that of a lifetime. */
    function TickEnd(i: nat): (e: nat)
      requires i < |s|
      ensures i < e
    {
      if i + 1 < |s| && s[i + 1] == '\\' then
        var end := Find(s, "'", i + 3);
        if end.None? then |s| else end.value + 1
      else if i + 2 < |s| && s[i + 2] == '\'' then i + 3
      else i + 1
    }

    /** Where the scanner goes on after its step over code at `i`. */
    function CodeEnd(i: nat): (e: nat)
      requires i < |s|
      ensures i < e
    {
      if RawPrefix(i) then RawEnd(i)
      else if s[i] == '"' then StringEnd(i + 1)
      else if s[i] == '\'' then TickEnd(i)
      else i + 1
    }

    /** Where the scanner goes on after its step at `i`. */
    function Next(i: nat): (e: nat)
      requires i < |s|
      ensures i < e
      ensures KindAt(i) != Code ==> e <= |s|
    {
      match KindAt(i)
      case Line => LineEnd(i)
      case Block => BlockEnd(i + 2, 1)
      case Code => CodeEnd(i)
    }

    /** The code from `from` up to `to`, as a segment if there is any. */
    function Flush(from: nat, to: nat): seq<Segment> {
      if from < to then [Segment(Code, from, to)] else []
    }

    /** What the scanner yields from `i` on, when the code not yet yielded began at `codeStart`. */
    function Segments(codeStart: nat, i: nat): seq<Segment>
      decreases |s| - i
    {
      if i >= |s| then Flush(codeStart, |s|)
      else if KindAt(i) == Code then Segments(codeStart, Next(i))
      else Flush(codeStart, i) + [Segment(KindAt(i), i, Next(i))] + Segments(Next(i), Next(i))
    }

    /** `_scan` at a raw string prefix. */
    method SkipRaw(i: nat) returns (e: nat)
      requires i < |s| && RawPrefix(i)
      ensures e == RawEnd(i)
    {
      var j := i + (if s[i] != 'r' then 2 else 1);
      var k := j;
      while k < |s| && s[k] == '#'
        invariant j <= k <= |s| && HashEnd(k) == HashEnd(j)
      {
        k := k + 1;
      }
      e := RawTail(i, j, k);
    }

    /** `_scan` at a quote. */
    method SkipString(i: nat) returns (e: nat)
      ensures e == StringEnd(i + 1)
    {
      e := i + 1;
      while e < |s| && s[e] != '"'
        invariant StringEnd(e) == StringEnd(i + 1)
        decreases |s| - e
      {
        e := e + (if s[e] == '\\' then 2 else 1);
      }
      e := e + 1;
    }

    /** `_scan` at the opening of a block comment. */
    method SkipBlock(i: nat) returns (e: nat)
      requires i + 2 <= |s|
      ensures e == BlockEnd(i + 2, 1)
    {
      var depth := 1;
      e := i + 2;
      while e < |s| && depth > 0
        invariant depth >= 0 && e <= |s| && BlockEnd(e, depth) == BlockEnd(i + 2, 1)
        decreases |s| - e
      {
        if Two(e, '/', '*') { depth, e := depth + 1, e + 2; }
        else if Two(e, '*', '/') { depth, e := depth - 1, e + 2; }
        else { e := e + 1; }
      }
    }

    /** One turn of `_scan`'s loop. */
    method Step(i: nat) returns (kind: Kind, e: nat)
      requires i < |s|
      ensures kind == KindAt(i) && e == Next(i)
    {
      kind := Code;
      if Two(i, '/', '/') {
        kind, e := Line, LineEnd(i);
      } else if Two(i, '/', '*') {
        kind := Block;
        e := SkipBlock(i);
      } else if RawPrefix(i) {
        e := SkipRaw(i);
      } else if s[i] == '"' {
        e := SkipString(i);
      } else if s[i] == '\'' {
        e := TickEnd(i);
      } else {
        e := i + 1;
      }
    }

    lemma CommentStep(segs: seq<Segment>, codeStart: nat, i: nat)
      requires i < |s| && KindAt(i) != Code
      ensures segs + Segments(codeStart, i)
           == segs + Flush(codeStart, i) + [Segment(KindAt(i), i, Next(i))] + Segments(Next(i), Next(i))
    {
    }

    /** `_scan`, over the whole text. */
    method Scan() returns (segs: seq<Segment>)
      ensures segs == Segments(0, 0)
    {
      var i, codeStart := 0, 0;
      segs := [];
      while i < |s|
        invariant 0 <= codeStart <= i
        invariant segs + Segments(codeStart, i) == Segments(0, 0)
        decreases |s| - i
      {
        var kind, end := Step(i);
        if kind != Code {
          CommentStep(segs, codeStart, i);
          if codeStart < i { segs := segs + [Segment(Code, codeStart, i)]; }
          segs := segs + [Segment(kind, i, end)];
          codeStart := end;
        }
        i := end;
      }
      if codeStart < (if i < |s| then i else |s|) {
        segs := segs + [Segment(Code, codeStart, if i < |s| then i else |s|)];
      }
    }

    // ------------------------------------------------ tiling and code_only

    /** The segments are not empty and follow each other from `from` to `to`. */
    static predicate Tiled(segs: seq<Segment>, from: nat, to: nat) {
      if segs == [] then from == to
      else segs[0].start == from && from < segs[0].end <= to && Tiled(segs[1..], segs[0].end, to)
    }

    /** `_scan` cuts the whole text, leaving nothing out and nothing twice. */
    lemma {:induction false} ScanTiles(codeStart: nat, i: nat)
      requires codeStart <= i && codeStart <= |s|
      ensures Tiled(Segments(codeStart, i), codeStart, |s|)
      decreases |s| - i
    {
      if i < |s| {
        if KindAt(i) == Code {
          ScanTiles(codeStart, Next(i));
        } else {
          var tail := [Segment(KindAt(i), i, Next(i))] + Segments(Next(i), Next(i));
          ScanTiles(Next(i), Next(i));
          assert tail[1..] == Segments(Next(i), Next(i));
          if codeStart < i {
            assert (Flush(codeStart, i) + tail)[1..] == tail;
          } else {
            assert Flush(codeStart, i) + tail == tail;
          }
        }
      }
    }

    /** `s[a:b]`: nothing where the bounds cross, and nothing past the end. */
    function Slice(a: nat, b: nat): string {
      var end := if b < |s| then b else |s|;
      if a < end then s[a..end] else ""
    }

    /** The text of the code segments, in order. */
    ghost function CodeText(segs: seq<Segment>): string {
      if segs == [] then ""
      else (if segs[0].kind == Code then Slice(segs[0].start, segs[0].end) else "") + CodeText(segs[1..])
    }

    /** The kind of the first segment that holds position `p`. */
    static function KindIn(segs: seq<Segment>, p: nat): Option<Kind> {
      if segs == [] then None
      else if segs[0].start <= p < segs[0].end then Some(segs[0].kind)
      else KindIn(segs[1..], p)
    }

    /** `comment_at`: the kind of comment position `p` is in. */
    function CommentAt(p: nat): Option<Kind> {
      if KindIn(Segments(0, 0), p) == Some(Code) then None else KindIn(Segments(0, 0), p)
    }

    /** The characters from `p` to `to` that the segments have as code. */
    ghost function CodeChars(segs: seq<Segment>, p: nat, to: nat): string
      requires p <= to <= |s|
      decreases |s| - p
    {
      if p >= to then ""
      else (if KindIn(segs, p) == Some(Code) then [s[p]] else "") + CodeChars(segs, p + 1, to)
    }

    lemma {:induction false} CodeCharsOfOne(segs: seq<Segment>, p: nat, to: nat)
      requires segs != [] && segs[0].start <= p <= to == segs[0].end <= |s|
      ensures CodeChars(segs, p, to) == (if segs[0].kind == Code then s[p..to] else "")
      decreases |s| - p
    {
      if p < to { CodeCharsOfOne(segs, p + 1, to); }
    }

    lemma {:induction false} CodeCharsSplit(segs: seq<Segment>, p: nat, mid: nat, to: nat)
      requires p <= mid <= to <= |s|
      ensures CodeChars(segs, p, to) == CodeChars(segs, p, mid) + CodeChars(segs, mid, to)
      decreases |s| - p
    {
      if p < mid { CodeCharsSplit(segs, p + 1, mid, to); }
    }

    lemma {:induction false} CodeCharsOfRest(segs: seq<Segment>, p: nat, to: nat)
      requires segs != [] && segs[0].end <= p <= to <= |s|
      ensures CodeChars(segs, p, to) == CodeChars(segs[1..], p, to)
      decreases |s| - p
    {
      if p < to { CodeCharsOfRest(segs, p + 1, to); }
    }

    lemma {:induction false} CodeTextIsCodeChars(segs: seq<Segment>, from: nat)
      requires from <= |s| && Tiled(segs, from, |s|)
      ensures CodeText(segs) == CodeChars(segs, from, |s|)
      decreases |segs|
    {
      if segs != [] {
        var end := segs[0].end;
        CodeTextIsCodeChars(segs[1..], end);
        CodeCharsOfOne(segs, from, end);
        CodeCharsSplit(segs, from, end, |s|);
        CodeCharsOfRest(segs, end, |s|);
      }
    }

    /** The characters from `p` on that are in no comment. */
    ghost function Uncommented(p: nat): string
      decreases |s| - p
    {
      if p >= |s| then "" else (if CommentAt(p).None? then [s[p]] else "") + Uncommented(p + 1)
    }

    /** The join in `code_only`. */
    method JoinCode(segs: seq<Segment>) returns (code: string)
      ensures code == CodeText(segs)
    {
      code := "";
      for k := 0 to |segs|
        invariant code + CodeText(segs[k..]) == CodeText(segs)
      {
        assert segs[k..][1..] == segs[k + 1..];
        if segs[k].kind == Code { code := code + Slice(segs[k].start, segs[k].end); }
      }
    }

    /** `code_only`. */
    method CodeOnly() returns (code: string)
      ensures code == CodeText(Segments(0, 0))
    {
      var segs := Scan();
      code := JoinCode(segs);
    }

    /** `comment_at`. */
    method FindComment(p: nat) returns (r: Option<Kind>)
      ensures r == CommentAt(p)
    {
      var segs := Scan();
      for k := 0 to |segs|
        invariant KindIn(segs, p) == KindIn(segs[k..], p)
      {
        if segs[k].start <= p < segs[k].end {
          return if segs[k].kind == Code then None else Some(segs[k].kind);
        }
        assert segs[k..][1..] == segs[k + 1..];
      }
      return None;
    }

    lemma KindWhereTiled(segs: seq<Segment>, from: nat, p: nat)
      requires Tiled(segs, from, |s|) && from <= p < |s|
      ensures KindIn(segs, p).Some?
    {
    }

    lemma {:induction false} UncommentedIsCodeChars(p: nat)
      requires p <= |s|
      ensures Uncommented(p) == CodeChars(Segments(0, 0), p, |s|)
      decreases |s| - p
    {
      ScanTiles(0, 0);
      if p < |s| {
        KindWhereTiled(Segments(0, 0), 0, p);
        UncommentedIsCodeChars(p + 1);
      }
    }

    /** `code_only` keeps exactly the characters `comment_at` finds in no comment. */
    lemma CodeOnlyIsUncommented()
      ensures CodeText(Segments(0, 0)) == Uncommented(0)
    {
      ScanTiles(0, 0);
      CodeTextIsCodeChars(Segments(0, 0), 0);
      UncommentedIsCodeChars(0);
    }
  }
}
