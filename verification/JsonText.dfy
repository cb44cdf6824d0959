/**
  JSON as it is written (RFC 8259), in UTF-16 code units: string literals with
  their escapes, values nested with any white space, and what they mean.
*/
module JsonText {
  type Unit = n: nat | n < 0x1_0000
  type Text = seq<Unit>

  const QUOTE: Unit := 0x22
  const COMMA: Unit := 0x2C
  const MINUS: Unit := 0x2D
  const COLON: Unit := 0x3A
  const OPEN_ARRAY: Unit := 0x5B
  const BACKSLASH: Unit := 0x5C
  const CLOSE_ARRAY: Unit := 0x5D
  const LETTER_U: Unit := 0x75
  const OPEN_OBJECT: Unit := 0x7B
  const CLOSE_OBJECT: Unit := 0x7D

  predicate IsDigit(u: Unit) { 0x30 <= u <= 0x39 }

  predicate IsHex(u: Unit) { IsDigit(u) || 0x41 <= u <= 0x46 || 0x61 <= u <= 0x66 }

  function HexDigit(u: Unit): (d: nat)
    requires IsHex(u)
    ensures d < 16
  {
    if IsDigit(u) then u - 0x30 else if u <= 0x46 then u - 0x37 else u - 0x57
  }

  function Hex4(a: Unit, b: Unit, c: Unit, d: Unit): Unit
    requires IsHex(a) && IsHex(b) && IsHex(c) && IsHex(d)
  {
    HexDigit(a) * 0x1000 + HexDigit(b) * 0x100 + HexDigit(c) * 0x10 + HexDigit(d)
  }

  predicate IsHigh(u: Unit) { 0xD800 <= u <= 0xDBFF }
  predicate IsLow(u: Unit) { 0xDC00 <= u <= 0xDFFF }

  // ------------------------------------------------------- string literals

  /** A character of a string literal: a code unit as it is, a surrogate pair as
      it is, a two-character escape, or a code unit by its number. */
  datatype Chr = Plain(u: Unit) | Pair(high: Unit, low: Unit) | Short(c: Unit) | Numbered(a: Unit, b: Unit, c: Unit, d: Unit)

  const SHORTS: set<Unit> := {0x22, 0x5C, 0x2F, 0x62, 0x66, 0x6E, 0x72, 0x74}

  predicate GoodChr(ch: Chr) {
    match ch
    case Plain(u) => u >= 0x20 && u != QUOTE && u != BACKSLASH && !IsHigh(u) && !IsLow(u)
    case Pair(high, low) => IsHigh(high) && IsLow(low)
    case Short(c) => c in SHORTS
    case Numbered(a, b, c, d) => IsHex(a) && IsHex(b) && IsHex(c) && IsHex(d)
  }

  predicate GoodChrs(chars: seq<Chr>) { forall k :: 0 <= k < |chars| ==> GoodChr(chars[k]) }

  function WrittenChr(ch: Chr): Text {
    match ch
    case Plain(u) => [u]
    case Pair(high, low) => [high, low]
    case Short(c) => [BACKSLASH, c]
    case Numbered(a, b, c, d) => [BACKSLASH, LETTER_U, a, b, c, d]
  }

  function Written(chars: seq<Chr>): Text {
    if chars == [] then [] else WrittenChr(chars[0]) + Written(chars[1..])
  }

  function Literal(chars: seq<Chr>): Text { [QUOTE] + (Written(chars) + [QUOTE]) }

  /** The character a two-character escape stands for. */
  function Unescaped(c: Unit): Unit {
    if c == 0x62 then 0x08 else if c == 0x66 then 0x0C else if c == 0x6E then 0x0A
    else if c == 0x72 then 0x0D else if c == 0x74 then 0x09 else c
  }

  function MeantChr(ch: Chr): Text
    requires GoodChr(ch)
  {
    match ch
    case Plain(u) => [u]
    case Pair(high, low) => [high, low]
    case Short(c) => [Unescaped(c)]
    case Numbered(a, b, c, d) => [Hex4(a, b, c, d)]
  }

  /** The string a literal means. */
  function Meant(chars: seq<Chr>): Text
    requires GoodChrs(chars)
  {
    if chars == [] then [] else MeantChr(chars[0]) + Meant(chars[1..])
  }

  /** The code unit at `i` is a surrogate without its other half. */
  predicate Unpaired(t: Text, i: nat)
    requires i < |t|
  {
    || (IsHigh(t[i]) && !(i + 1 < |t| && IsLow(t[i + 1])))
    || (IsLow(t[i]) && !(i > 0 && IsHigh(t[i - 1])))
  }

  ghost predicate Broken(t: Text) { exists i: nat :: i < |t| && Unpaired(t, i) }

  // ----------------------------------------------------------------- values

  datatype Value =
    | Word(text: Text)
    | Number(text: Text)
    | Str(chars: seq<Chr>)
    | Array(blank: Text, elems: Elems)
    | Object(blank: Text, members: Members)

  datatype Elems = NoElem | Elem(before: Text, value: Value, after: Text, rest: Elems)

  datatype Members = NoMember
    | Member(before: Text, key: seq<Chr>, colon: Text, space: Text, value: Value, after: Text, rest: Members)

  predicate Blank(t: Text) { forall k :: 0 <= k < |t| ==> t[k] in {0x20, 0x09, 0x0A, 0x0D} }

  const WORDS: set<Text> := {[0x74, 0x72, 0x75, 0x65], [0x66, 0x61, 0x6C, 0x73, 0x65], [0x6E, 0x75, 0x6C, 0x6C]}

  predicate NumberUnit(u: Unit) { IsDigit(u) || u in {0x2B, 0x2D, 0x2E, 0x45, 0x65} }

  /** Text over the alphabet of numbers that begins as a number does: every number of RFC 8259, and more. */
  predicate NumberText(t: Text) {
    |t| > 0 && (t[0] == MINUS || IsDigit(t[0])) && forall k :: 0 <= k < |t| ==> NumberUnit(t[k])
  }

  predicate Good(v: Value) {
    match v
    case Word(text) => text in WORDS
    case Number(text) => NumberText(text)
    case Str(chars) => GoodChrs(chars)
    case Array(blank, elems) => Blank(blank) && GoodElems(elems)
    case Object(blank, members) => Blank(blank) && GoodMembers(members)
  }

  predicate GoodElems(e: Elems) {
    e.NoElem? || (Blank(e.before) && Good(e.value) && Blank(e.after) && GoodElems(e.rest))
  }

  predicate GoodMembers(m: Members) {
    m.NoMember? || (Blank(m.before) && GoodChrs(m.key) && Blank(m.colon) && Blank(m.space) && Good(m.value) && Blank(m.after) && GoodMembers(m.rest))
  }

  /** A value as it is written, followed by `tail`. */
  function Print(v: Value, tail: Text): Text {
    match v
    case Word(text) => text + tail
    case Number(text) => text + tail
    case Str(chars) => Literal(chars) + tail
    case Array(blank, elems) =>
      [OPEN_ARRAY] + (if elems.NoElem? then blank + ([CLOSE_ARRAY] + tail) else PrintElems(elems, [CLOSE_ARRAY] + tail))
    case Object(blank, members) =>
      [OPEN_OBJECT] + (if members.NoMember? then blank + ([CLOSE_OBJECT] + tail) else PrintMembers(members, [CLOSE_OBJECT] + tail))
  }

  /** Elements with the commas between them, then `tail`. */
  function PrintElems(e: Elems, tail: Text): Text {
    match e
    case NoElem => tail
    case Elem(before, value, after, rest) =>
      before + Print(value, after + (if rest.NoElem? then tail else [COMMA] + PrintElems(rest, tail)))
  }

  function PrintMembers(m: Members, tail: Text): Text {
    match m
    case NoMember => tail
    case Member(before, key, colon, space, value, after, rest) =>
      before + (Literal(key) + (colon + ([COLON] + (space + Print(value, after + (if rest.NoMember? then tail else [COMMA] + PrintMembers(rest, tail)))))))
  }

  /** A whole document: an object, with white space around it. */
  function PrintDoc(lead: Text, blank: Text, members: Members, trail: Text): Text {
    lead + Print(Object(blank, members), trail)
  }
}
