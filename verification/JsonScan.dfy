/**
  `scanTopLevel` of `packages/data-dir/src/daemon-state.ts`: one pass over the
  raw text of an accepted JSON object, for what `JSON.parse` hides of its top
  level: repeated keys, how numbers are spelled, escaped lone surrogates.

  `Run` is that pass over the rest of a text; `Summary` is what it should say,
  member by member; `ScanOfPrinted` says they agree on all that can be printed.
*/
module JsonScan {
  import opened Prelude
  import opened JsonText
  import opened Surrogates

  function Ascii(s: string): Text
    requires forall k :: 0 <= k < |s| ==> s[k] < 128 as char
  {
    seq(|s|, k requires 0 <= k < |s| => s[k] as int)
  }

  const STRING_FIELDS: set<Text> :=
    {Ascii("token"), Ascii("version"), Ascii("generation"), Ascii("auth_mode"), Ascii("enroll_endpoint"), Ascii("startup_state")}
  const KNOWN_FIELDS: set<Text> := {Ascii("port"), Ascii("pid"), Ascii("protocol_version")} + STRING_FIELDS

  /** Where an escaped lone surrogate was found first. */
  datatype Place = InAKey | InField(key: Text)

  /** What the scan reports, and the known keys it has seen. */
  datatype Report = Report(duplicate: Option<Text>, numbers: map<Text, Text>, lone: Option<Place>, seen: set<Text>)

  datatype State = State(out: Report, depth: int, expectKey: bool, key: Option<Text>)

  const START := State(Report(None, map[], None, {}), 0, false, None)

  // ------------------------------------------------------------ the reports

  /** A key was read: what it means, and whether it holds a lone surrogate. */
  function WithKey(r: Report, key: Text, lone: bool): Report {
    r.(lone := if r.lone.None? && lone then Some(InAKey) else r.lone,
       duplicate := if key in KNOWN_FIELDS && key in r.seen && r.duplicate.None? then Some(key) else r.duplicate,
       seen := if key in KNOWN_FIELDS then r.seen + {key} else r.seen)
  }

  /** A string was read as the value of a key. */
  function WithString(r: Report, key: Text, lone: bool): Report {
    r.(lone := if key in STRING_FIELDS && r.lone.None? && lone then Some(InField(key)) else r.lone)
  }

  function WithNumber(r: Report, key: Text, text: Text): Report {
    r.(numbers := r.numbers[key := text])
  }

  // ---------------------------------------------------------------- the pass

  /** The length of a literal after its opening quote, closing quote included; of all of `s` if none closes it. */
  function LiteralEnd(s: Text): (n: nat)
    ensures n <= |s|
    decreases |s|
  {
    if s == [] then 0
    else if s[0] == QUOTE then 1
    else if s[0] == BACKSLASH then (if |s| < 2 then |s| else 2 + LiteralEnd(s[2..]))
    else 1 + LiteralEnd(s[1..])
  }

  /** Some quote closes the literal whose inside `s` begins with. */
  predicate Closed(s: Text)
    decreases |s|
  {
    if s == [] then false
    else if s[0] == QUOTE then true
    else if s[0] == BACKSLASH then |s| >= 2 && Closed(s[2..])
    else Closed(s[1..])
  }

  /** Every literal in the text is closed: so it is in any text `JSON.parse` accepts. */
  predicate AllClosed(s: Text)
    decreases |s|
  {
    if s == [] then true
    else if s[0] == QUOTE then Closed(s[1..]) && AllClosed(s[1 + LiteralEnd(s[1..])..])
    else AllClosed(s[1..])
  }

  /** `JSON.parse` of the inside of a literal. */
  function Decoded(t: Text): Text
    decreases |t|
  {
    if t == [] then []
    else if t[0] != BACKSLASH then [t[0]] + Decoded(t[1..])
    else if |t| >= 6 && t[1] == LETTER_U && IsHex(t[2]) && IsHex(t[3]) && IsHex(t[4]) && IsHex(t[5]) then
      [Hex4(t[2], t[3], t[4], t[5])] + Decoded(t[6..])
    else if |t| >= 2 then [Unescaped(t[1])] + Decoded(t[2..])
    else []
  }

  function NumberEnd(s: Text): (n: nat)
    ensures n <= |s|
    ensures forall k :: 0 <= k < n ==> NumberUnit(s[k])
    decreases |s|
  {
    if s == [] || !NumberUnit(s[0]) then 0 else 1 + NumberEnd(s[1..])
  }

  function OnLiteral(st: State, lit: Text): State {
    if st.depth == 1 && st.expectKey then
      var key := Decoded(if |lit| < 2 then [] else lit[1..|lit| - 1]);
      State(WithKey(st.out, key, Lone(lit)), st.depth, false, Some(key))
    else if st.depth == 1 && st.key.Some? then
      State(WithString(st.out, st.key.value, Lone(lit)), st.depth, st.expectKey, None)
    else st
  }

  function OnOpen(st: State, isObject: bool): State {
    State(st.out, st.depth + 1, st.depth + 1 == 1 && isObject, if st.depth + 1 > 1 then None else st.key)
  }

  function OnComma(st: State): State {
    if st.depth == 1 then State(st.out, st.depth, true, None) else st
  }

  predicate AtNumber(st: State, u: Unit) {
    st.depth == 1 && st.key.Some? && (u == MINUS || IsDigit(u))
  }

  /** One turn of the loop over the rest `s` of the text: the state after it, and how much it read. */
  function Turn(s: Text, st: State): (r: (State, nat))
    requires s != []
    ensures 0 < r.1 <= |s|
  {
    var u := s[0];
    if u == QUOTE then
      var n := 1 + LiteralEnd(s[1..]);
      (OnLiteral(st, s[..n]), n)
    else if u == OPEN_OBJECT || u == OPEN_ARRAY then (OnOpen(st, u == OPEN_OBJECT), 1)
    else if u == CLOSE_OBJECT || u == CLOSE_ARRAY then (st.(depth := st.depth - 1), 1)
    else if u == COMMA && st.depth == 1 then (OnComma(st), 1)
    else if AtNumber(st, u) then
      assert NumberUnit(s[0]);
      var n := NumberEnd(s);
      (State(WithNumber(st.out, st.key.value, s[..n]), st.depth, st.expectKey, None), n)
    else (st, 1)
  }

  function Run(s: Text, st: State): State
    decreases |s|
  {
    if s == [] then st else Run(s[Turn(s, st).1..], Turn(s, st).0)
  }

  /** The inner loop that looks for the closing quote. */
  method FindQuote(raw: Text, i: nat) returns (j: nat)
    requires i < |raw| && Closed(raw[i + 1..])
    ensures j == i + LiteralEnd(raw[i + 1..]) < |raw|
    ensures raw[j + 1..] == raw[i..][1 + LiteralEnd(raw[i + 1..])..]
  {
    j := i + 1;
    while raw[j] != QUOTE
      invariant i < j < |raw| && Closed(raw[j..])
      invariant j + LiteralEnd(raw[j..]) == i + 1 + LiteralEnd(raw[i + 1..])
      decreases |raw| - j
    {
      assert raw[j..][1..] == raw[j + 1..];
      if raw[j] == BACKSLASH { assert raw[j..][2..] == raw[j + 2..]; }
      j := j + (if raw[j] == BACKSLASH then 2 else 1);
    }
  }

  /** One turn of the loop at position `i`. */
  method ReadAt(raw: Text, i: nat, st0: State) returns (st: State, next: nat)
    requires i < |raw| && AllClosed(raw[i..])
    ensures var (st', n) := Turn(raw[i..], st0); st == st' && next == i + n
    ensures AllClosed(raw[next..])
  {
    hide OnLiteral, OnOpen, OnComma, Closed, NumberUnit;
    var u := raw[i];
    ghost var s := raw[i..];
    assert s[1..] == raw[i + 1..];
    st, next := st0, i + 1;
    if u == QUOTE {
      var j := FindQuote(raw, i);
      assert raw[i..j + 1] == s[..1 + LiteralEnd(s[1..])];
      st, next := OnLiteral(st, raw[i..j + 1]), j + 1;
    } else if u == OPEN_OBJECT || u == OPEN_ARRAY {
      st := OnOpen(st, u == OPEN_OBJECT);
    } else if u == CLOSE_OBJECT || u == CLOSE_ARRAY {
      st := st.(depth := st.depth - 1);
    } else if u == COMMA && st.depth == 1 {
      st := OnComma(st);
    } else if AtNumber(st, u) {
      var n := NumberEnd(raw[i..]);
      assert raw[i..i + n] == s[..n] && raw[i + n..] == s[n..];
      NumberEndPositive(s);
      ClosedPast(s, n);
      st, next := State(WithNumber(st.out, st.key.value, raw[i..i + n]), st.depth, st.expectKey, None), i + n;
    }
  }

  /** `scanTopLevel`. */
  method ScanTopLevel(raw: Text) returns (out: Report)
    requires AllClosed(raw)
    ensures out == Run(raw, START).out
  {
    hide Turn, AllClosed;
    var st := START;
    var i := 0;
    assert raw[0..] == raw;
    while i < |raw|
      invariant i <= |raw| && AllClosed(raw[i..])
      invariant Run(raw[i..], st) == Run(raw, START)
    {
      ghost var s := raw[i..];
      var next;
      st, next := ReadAt(raw, i, st);
      assert raw[next..] == s[next - i..];
      i := next;
    }
    out := st.out;
  }

  lemma NumberEndPositive(s: Text)
    requires s != [] && (s[0] == MINUS || IsDigit(s[0]))
    ensures NumberEnd(s) > 0 && forall k :: 0 <= k < NumberEnd(s) ==> s[k] != QUOTE
  {
    assert NumberUnit(s[0]);
  }

  /** Past a stretch without quotes all literals are still closed. */
  lemma {:induction false} ClosedPast(s: Text, n: nat)
    requires AllClosed(s) && n <= |s| && forall k :: 0 <= k < n ==> s[k] != QUOTE
    ensures AllClosed(s[n..])
    decreases n
  {
    if n > 0 {
      ClosedPast(s[1..], n - 1);
      assert s[1..][n - 1..] == s[n..];
    }
  }

  // ------------------------------------------------- the pass over what is printed

  /** A unit that the pass goes past without a trace. */
  predicate Passive(st: State, u: Unit) {
    u !in {QUOTE, OPEN_OBJECT, OPEN_ARRAY, CLOSE_OBJECT, CLOSE_ARRAY, COMMA} && !AtNumber(st, u)
  }

  lemma {:induction false} RunPassive(t: Text, tail: Text, st: State)
    requires forall k :: 0 <= k < |t| ==> Passive(st, t[k])
    ensures Run(t + tail, st) == Run(tail, st)
    decreases |t|
  {
    if t == [] {
      assert t + tail == tail;
    } else {
      assert (t + tail)[1..] == t[1..] + tail && (t + tail)[0] == t[0];
      RunPassive(t[1..], tail, st);
    }
  }

  lemma RunBlank(t: Text, tail: Text, st: State)
    requires Blank(t)
    ensures Run(t + tail, st) == Run(tail, st)
  {
    RunPassive(t, tail, st);
  }

  lemma RunWord(t: Text, tail: Text, st: State)
    requires t in WORDS
    ensures Run(t + tail, st) == Run(tail, st)
  {
    RunPassive(t, tail, st);
  }

  lemma RunOne(u: Unit, tail: Text, st: State)
    ensures u == COLON ==> Run([u] + tail, st) == Run(tail, st)
    ensures u == COMMA ==> Run([u] + tail, st) == Run(tail, OnComma(st))
    ensures u == OPEN_OBJECT || u == OPEN_ARRAY ==> Run([u] + tail, st) == Run(tail, OnOpen(st, u == OPEN_OBJECT))
    ensures u == CLOSE_OBJECT || u == CLOSE_ARRAY ==> Run([u] + tail, st) == Run(tail, st.(depth := st.depth - 1))
  {
    hide LiteralEnd, NumberEnd;
    assert ([u] + tail)[1..] == tail;
  }

  lemma {:induction false} LiteralEndOf(chars: seq<Chr>, tail: Text)
    requires GoodChrs(chars)
    ensures LiteralEnd(Written(chars) + ([QUOTE] + tail)) == |Written(chars)| + 1
    decreases |chars|
  {
    var u := Written(chars) + ([QUOTE] + tail);
    if chars == [] {
      assert u == [QUOTE] + tail;
    } else {
      var rest := Written(chars[1..]) + ([QUOTE] + tail);
      assert u == WrittenChr(chars[0]) + rest;
      LiteralEndOf(chars[1..], tail);
      LiteralEndStep(chars[0], rest);
    }
  }

  lemma LiteralEndStep(ch: Chr, t: Text)
    requires GoodChr(ch)
    ensures LiteralEnd(WrittenChr(ch) + t) == |WrittenChr(ch)| + LiteralEnd(t)
  {
    var u := WrittenChr(ch) + t;
    match ch {
      case Plain(x) => assert u[1..] == t;
      case Pair(high, low) =>
        assert u[1..] == [low] + t;
        assert ([low] + t)[1..] == t;
      case Short(c) => assert u[2..] == t;
      case Numbered(a, b, c, d) =>
        assert u[2..] == [a, b, c, d] + t;
        FourPlain(a, b, c, d, t);
    }
  }

  lemma FourPlain(a: Unit, b: Unit, c: Unit, d: Unit, t: Text)
    requires IsHex(a) && IsHex(b) && IsHex(c) && IsHex(d)
    ensures LiteralEnd([a, b, c, d] + t) == 4 + LiteralEnd(t)
  {
    assert [a, b, c, d] + t == [a] + ([b] + ([c] + ([d] + t)));
    OnePlain(a, [b] + ([c] + ([d] + t)));
    OnePlain(b, [c] + ([d] + t));
    OnePlain(c, [d] + t);
    OnePlain(d, t);
  }

  lemma OnePlain(u: Unit, t: Text)
    requires u != QUOTE && u != BACKSLASH
    ensures LiteralEnd([u] + t) == 1 + LiteralEnd(t)
  {
    assert ([u] + t)[1..] == t;
  }

  lemma {:induction false} DecodedIsMeant(chars: seq<Chr>)
    requires GoodChrs(chars)
    ensures Decoded(Written(chars)) == Meant(chars)
    decreases |chars|
  {
    if chars != [] {
      DecodedIsMeant(chars[1..]);
      DecodedStep(chars[0], Written(chars[1..]));
    }
  }

  lemma DecodedStep(ch: Chr, t: Text)
    requires GoodChr(ch)
    ensures Decoded(WrittenChr(ch) + t) == MeantChr(ch) + Decoded(t)
  {
    var u := WrittenChr(ch) + t;
    match ch {
      case Plain(x) => assert u[1..] == t;
      case Pair(high, low) =>
        assert u[1..] == [low] + t;
        assert ([low] + t)[1..] == t;
      case Short(c) => assert u[2..] == t;
      case Numbered(a, b, c, d) => assert u[6..] == t;
    }
  }

  /** A literal is read as a whole, and as what it means. */
  lemma RunLiteral(chars: seq<Chr>, tail: Text, st: State)
    requires GoodChrs(chars)
    ensures Run(Literal(chars) + tail, st) == Run(tail, OnLiteral(st, Literal(chars)))
  {
    var u := Literal(chars) + tail;
    var inside := Written(chars) + ([QUOTE] + tail);
    assert u[1..] == inside && u[0] == QUOTE;
    LiteralEndOf(chars, tail);
    var n := |Written(chars)| + 2;
    assert u[..n] == Literal(chars) && u[n..] == tail;
  }

  /** What reading a literal as a key or as a value reports, in terms of the string meant. */
  lemma LiteralReported(chars: seq<Chr>, st: State)
    requires GoodChrs(chars)
    ensures st.depth == 1 && st.expectKey ==>
      OnLiteral(st, Literal(chars)) == State(WithKey(st.out, Meant(chars), Lone(Literal(chars))), 1, false, Some(Meant(chars)))
    ensures Lone(Literal(chars)) <==> Broken(Meant(chars))
  {
    LoneOfLiteral(chars);
    DecodedIsMeant(chars);
    var lit := Literal(chars);
    assert lit[1..|lit| - 1] == Written(chars);
  }

  lemma {:induction false} NumberEndOf(t: Text, tail: Text)
    requires (forall k :: 0 <= k < |t| ==> NumberUnit(t[k])) && (tail == [] || !NumberUnit(tail[0]))
    ensures NumberEnd(t + tail) == |t|
    decreases |t|
  {
    if t == [] {
      assert t + tail == tail;
    } else {
      assert (t + tail)[1..] == t[1..] + tail;
      NumberEndOf(t[1..], tail);
    }
  }

  /** A number is read as a whole where it is the value of a top-level key. */
  lemma RunNumber(t: Text, tail: Text, st: State)
    requires NumberText(t) && (tail == [] || !NumberUnit(tail[0])) && st.depth == 1 && st.key.Some?
    ensures Run(t + tail, st) == Run(tail, State(WithNumber(st.out, st.key.value, t), 1, st.expectKey, None))
  {
    NumberEndOf(t, tail);
    var u := t + tail;
    assert u[0] == t[0] && u[..|t|] == t && u[|t|..] == tail;
  }

  // ---------------------------------------------------- what is nested never counts

  /** Inside a nested value the pass goes past everything. */
  lemma {:induction false} RunNested(v: Value, tail: Text, st: State)
    requires Good(v) && st.depth >= 2 && !st.expectKey && st.key.None?
    ensures Run(Print(v, tail), st) == Run(tail, st)
    decreases v, 1
  {
    hide Run;
    match v {
      case Word(text) => RunWord(text, tail, st);
      case Number(text) => RunPassive(text, tail, st);
      case Str(chars) => RunLiteral(chars, tail, st);
      case Array(_, _) => RunInner(v, tail, st);
      case Object(_, _) => RunInner(v, tail, st);
    }
  }

  /** An array or object below another value: its depth is left as it was entered. */
  lemma {:induction false} RunInner(v: Value, tail: Text, st: State)
    requires Good(v) && (v.Array? || v.Object?) && st.depth >= 1
    ensures Run(Print(v, tail), st) == Run(tail, State(st.out, st.depth, false, None))
    decreases v, 0
  {
    hide Run;
    var inner := State(st.out, st.depth + 1, false, None);
    match v {
      case Array(blank, elems) =>
        var close := [CLOSE_ARRAY] + tail;
        RunOne(OPEN_ARRAY, if elems.NoElem? then blank + close else PrintElems(elems, close), st);
        RunBlank(blank, close, inner);
        RunElems(elems, close, inner);
        RunOne(CLOSE_ARRAY, tail, inner);
      case Object(blank, members) =>
        var close := [CLOSE_OBJECT] + tail;
        RunOne(OPEN_OBJECT, if members.NoMember? then blank + close else PrintMembers(members, close), st);
        RunBlank(blank, close, inner);
        RunInnerMembers(members, close, inner);
        RunOne(CLOSE_OBJECT, tail, inner);
    }
  }

  lemma {:induction false} RunElems(e: Elems, tail: Text, st: State)
    requires GoodElems(e) && st.depth >= 2 && !st.expectKey && st.key.None?
    ensures Run(PrintElems(e, tail), st) == Run(tail, st)
    decreases e
  {
    hide Run;
    if e.Elem? {
      var next := if e.rest.NoElem? then tail else [COMMA] + PrintElems(e.rest, tail);
      RunBlank(e.before, Print(e.value, e.after + next), st);
      RunNested(e.value, e.after + next, st);
      RunBlank(e.after, next, st);
      RunOne(COMMA, PrintElems(e.rest, tail), st);
      RunElems(e.rest, tail, st);
    }
  }

  lemma {:induction false} RunInnerMembers(m: Members, tail: Text, st: State)
    requires GoodMembers(m) && st.depth >= 2 && !st.expectKey && st.key.None?
    ensures Run(PrintMembers(m, tail), st) == Run(tail, st)
    decreases m
  {
    hide Run;
    if m.Member? {
      var next := if m.rest.NoMember? then tail else [COMMA] + PrintMembers(m.rest, tail);
      RunUpToValue(m, next, st);
      RunNested(m.value, m.after + next, st);
      RunBlank(m.after, next, st);
      RunOne(COMMA, PrintMembers(m.rest, tail), st);
      RunInnerMembers(m.rest, tail, st);
    }
  }

  /** A member up to its value: its key is read. */
  lemma RunUpToValue(m: Members, next: Text, st: State)
    requires m.Member? && GoodMembers(m)
    ensures var value := Print(m.value, m.after + next);
      Run(m.before + (Literal(m.key) + (m.colon + ([COLON] + (m.space + value)))), st) == Run(value, OnLiteral(st, Literal(m.key)))
  {
    hide Run, Print, OnLiteral;
    var value := Print(m.value, m.after + next);
    var st' := OnLiteral(st, Literal(m.key));
    RunBlank(m.before, Literal(m.key) + (m.colon + ([COLON] + (m.space + value))), st);
    RunLiteral(m.key, m.colon + ([COLON] + (m.space + value)), st);
    RunBlank(m.colon, [COLON] + (m.space + value), st');
    RunOne(COLON, m.space + value, st');
    RunBlank(m.space, value, st');
  }

  // ------------------------------------------------------------ the top level

  /** What one member of the top level adds to the report. */
  function WithMember(r: Report, key: seq<Chr>, value: Value): Report
    requires GoodChrs(key) && Good(value)
  {
    var k := Meant(key);
    var r' := WithKey(r, k, Lone(Literal(key)));
    match value
    case Number(text) => WithNumber(r', k, text)
    case Str(chars) => WithString(r', k, Lone(Literal(chars)))
    case _ => r'
  }

  /** The report on the members, one after the other. */
  function Summary(m: Members, r: Report): Report
    requires GoodMembers(m)
  {
    if m.NoMember? then r else Summary(m.rest, WithMember(r, m.key, m.value))
  }

  /** The value of a top-level key is read, whatever it is. */
  lemma RunValue(v: Value, tail: Text, out: Report, key: Text) returns (left: Option<Text>)
    requires Good(v) && (tail == [] || !NumberUnit(tail[0]))
    ensures Run(Print(v, tail), State(out, 1, false, Some(key))) == Run(tail, State(
      match v
      case Number(text) => WithNumber(out, key, text)
      case Str(chars) => WithString(out, key, Lone(Literal(chars)))
      case _ => out, 1, false, left))
  {
    var st := State(out, 1, false, Some(key));
    left := None;
    match v {
      case Word(text) =>
        RunWord(text, tail, st);
        left := Some(key);
      case Number(text) => RunNumber(text, tail, st);
      case Str(chars) => RunLiteral(chars, tail, st);
      case Array(_, _) => RunInner(v, tail, st);
      case Object(_, _) => RunInner(v, tail, st);
    }
  }

  /** The members of the top level are read one after the other. */
  lemma {:induction false} RunMembers(m: Members, tail: Text, out: Report, key: Option<Text>) returns (end: State)
    requires GoodMembers(m) && m.Member? && tail != [] && !NumberUnit(tail[0])
    ensures Run(PrintMembers(m, tail), State(out, 1, true, key)) == Run(tail, end)
    ensures end.out == Summary(m, out) && end.depth == 1
    decreases m
  {
    hide Run, OnLiteral;
    var next := if m.rest.NoMember? then tail else [COMMA] + PrintMembers(m.rest, tail);
    var st := State(out, 1, true, key);
    RunUpToValue(m, next, st);
    LiteralReported(m.key, st);
    var out1 := WithKey(out, Meant(m.key), Lone(Literal(m.key)));
    assert m.after + next != [] && !NumberUnit((m.after + next)[0]);
    var left := RunValue(m.value, m.after + next, out1, Meant(m.key));
    var out2 := WithMember(out, m.key, m.value);
    RunBlank(m.after, next, State(out2, 1, false, left));
    if m.rest.NoMember? {
      end := State(out2, 1, false, left);
    } else {
      RunOne(COMMA, PrintMembers(m.rest, tail), State(out2, 1, false, left));
      end := RunMembers(m.rest, tail, out2, None);
    }
  }

  /** The scan of a printed object says what its members say, and nothing else. */
  lemma ScanOfPrinted(lead: Text, blank: Text, members: Members, trail: Text)
    requires Blank(lead) && Blank(blank) && GoodMembers(members) && Blank(trail)
    ensures Run(PrintDoc(lead, blank, members, trail), START).out == Summary(members, START.out)
  {
    hide Run, PrintMembers, GoodMembers;
    var close := [CLOSE_OBJECT] + trail;
    var body := if members.NoMember? then blank + close else PrintMembers(members, close);
    RunBlank(lead, [OPEN_OBJECT] + body, START);
    RunOne(OPEN_OBJECT, body, START);
    var end := State(START.out, 1, true, None);
    if members.NoMember? {
      RunBlank(blank, close, end);
    } else {
      end := RunMembers(members, close, START.out, None);
    }
    RunOne(CLOSE_OBJECT, trail, end);
    RunToEnd(trail, end.(depth := 0));
  }

  lemma RunToEnd(trail: Text, st: State)
    requires Blank(trail)
    ensures Run(trail, st) == st
  {
    RunBlank(trail, [], st);
    assert trail + [] == trail;
  }
}
