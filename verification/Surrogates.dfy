/**
  `hasLoneSurrogate` of `packages/data-dir/src/daemon-state.ts`: a look at the
  escapes of a raw string literal, and what it says of the string meant.
*/
module Surrogates {
  import opened Prelude
  import opened JsonText

  /** `parseInt(…, 16)` of up to four code units: their leading hex digits, or none. */
  function ParseHex(t: Text): (r: Option<nat>) {
    if t == [] || !IsHex(t[0]) then None else Some(HexValue(t, 0))
  }

  function HexValue(t: Text, value: nat): nat
    decreases |t|
  {
    if t == [] || !IsHex(t[0]) then value else HexValue(t[1..], value * 16 + HexDigit(t[0]))
  }

  function Upto(n: nat, t: Text): nat { if n < |t| then n else |t| }

  /** The regular expression for an escaped low surrogate. */
  predicate LowEscape(t: Text) {
    && |t| >= 6 && t[0] == BACKSLASH && t[1] == LETTER_U
    && t[2] in {0x64, 0x44} && (0x63 <= t[3] <= 0x66 || 0x43 <= t[3] <= 0x46) && IsHex(t[4]) && IsHex(t[5])
  }

  /** What the pass over the rest `t` of a literal finds. */
  predicate Lone(t: Text)
    decreases |t|
  {
    if t == [] then false
    else if t[0] != BACKSLASH then Lone(t[1..])
    else if |t| < 2 || t[1] != LETTER_U then Lone(t[Upto(2, t)..])
    else
      var code := ParseHex(t[2..Upto(6, t)]);
      if code.Some? && 0xD800 <= code.value <= 0xDBFF then
        (if LowEscape(t[Upto(6, t)..]) then Lone(t[Upto(12, t)..]) else true)
      else if code.Some? && 0xDC00 <= code.value <= 0xDFFF then true
      else Lone(t[Upto(6, t)..])
  }

  method HasLoneSurrogate(literal: Text) returns (r: bool)
    ensures r == Lone(literal)
  {
    hide ParseHex, LowEscape;
    var k := 0;
    while k < |literal|
      invariant 0 <= k && Lone(literal) == Lone(literal[Upto(k, literal)..])
      decreases |literal| - k
    {
      var t := literal[k..];
      if literal[k] == BACKSLASH {
        if k + 1 >= |literal| || literal[k + 1] != LETTER_U {
          k := k + 1;
          assert literal[Upto(k + 1, literal)..] == t[Upto(2, t)..];
        } else {
          var code := ParseHex(literal[k + 2..Upto(k + 6, literal)]);
          assert literal[k + 2..Upto(k + 6, literal)] == t[2..Upto(6, t)];
          assert literal[Upto(k + 6, literal)..] == t[Upto(6, t)..];
          assert literal[Upto(k + 12, literal)..] == t[Upto(12, t)..];
          if code.Some? && 0xD800 <= code.value <= 0xDBFF {
            if !LowEscape(literal[Upto(k + 6, literal)..]) { return true; }
            k := k + 11;
          } else if code.Some? && 0xDC00 <= code.value <= 0xDFFF {
            return true;
          } else {
            k := k + 5;
          }
        }
      } else {
        assert literal[k + 1..] == t[1..];
      }
      k := k + 1;
    }
    return false;
  }

  // -------------------------------------------------- what it says of the string

  /** A surrogate without its other half, searched from the left. */
  predicate LoneUnit(t: Text)
    decreases |t|
  {
    if t == [] then false
    else if IsHigh(t[0]) then (if |t| > 1 && IsLow(t[1]) then LoneUnit(t[2..]) else true)
    else IsLow(t[0]) || LoneUnit(t[1..])
  }

  lemma {:induction false} LoneUnitIsBroken(t: Text)
    ensures LoneUnit(t) <==> Broken(t)
    decreases |t|
  {
    if t == [] {
    } else if IsHigh(t[0]) {
      if |t| > 1 && IsLow(t[1]) {
        LoneUnitIsBroken(t[2..]);
        BrokenRest(t, 2);
      } else {
        assert Unpaired(t, 0);
      }
    } else if IsLow(t[0]) {
      assert Unpaired(t, 0);
    } else {
      LoneUnitIsBroken(t[1..]);
      BrokenRest(t, 1);
    }
  }

  /** Past a beginning that is whole nothing changes. */
  lemma BrokenRest(t: Text, n: nat)
    requires 0 < n <= |t| && !IsHigh(t[n - 1])
    requires forall i :: 0 <= i < n ==> !Unpaired(t, i)
    ensures Broken(t) <==> Broken(t[n..])
  {
    var rest := t[n..];
    forall i: nat | i < |rest| ensures Unpaired(rest, i) == Unpaired(t, n + i) {
    }
    if Broken(t) {
      var i: nat :| i < |t| && Unpaired(t, i);
      assert Unpaired(rest, i - n);
    }
    if Broken(rest) {
      var i: nat :| i < |rest| && Unpaired(rest, i);
      assert Unpaired(t, n + i);
    }
  }

  lemma HexOfFour(a: Unit, b: Unit, c: Unit, d: Unit)
    requires IsHex(a) && IsHex(b) && IsHex(c) && IsHex(d)
    ensures ParseHex([a, b, c, d]) == Some(Hex4(a, b, c, d))
    ensures IsLow(Hex4(a, b, c, d)) <==> a in {0x64, 0x44} && (0x63 <= b <= 0x66 || 0x43 <= b <= 0x46)
  {
    HexStep([a, b, c, d], 0);
    HexStep([b, c, d], HexDigit(a));
    HexStep([c, d], HexDigit(a) * 16 + HexDigit(b));
    HexStep([d], (HexDigit(a) * 16 + HexDigit(b)) * 16 + HexDigit(c));
    LowDigits(a, b, c, d);
  }

  lemma HexStep(t: Text, value: nat)
    requires t != [] && IsHex(t[0])
    ensures HexValue(t, value) == HexValue(t[1..], value * 16 + HexDigit(t[0]))
    ensures |t| == 1 ==> t[1..] == []
    ensures |t| == 2 ==> t[1..] == [t[1]]
    ensures |t| == 3 ==> t[1..] == [t[1], t[2]]
    ensures |t| == 4 ==> t[1..] == [t[1], t[2], t[3]]
  {
  }

  lemma LowDigits(a: Unit, b: Unit, c: Unit, d: Unit)
    requires IsHex(a) && IsHex(b) && IsHex(c) && IsHex(d)
    ensures IsLow(Hex4(a, b, c, d)) <==> a in {0x64, 0x44} && (0x63 <= b <= 0x66 || 0x43 <= b <= 0x46)
  {
    var low := HexDigit(c) * 0x10 + HexDigit(d);
    assert 0 <= low < 0x100;
  }

  /** One character of a literal that is no numbered surrogate is passed over. */
  lemma LoneStep(ch: Chr, t: Text)
    requires GoodChr(ch) && (ch.Numbered? ==> !IsHigh(Hex4(ch.a, ch.b, ch.c, ch.d)) && !IsLow(Hex4(ch.a, ch.b, ch.c, ch.d)))
    ensures Lone(WrittenChr(ch) + t) == Lone(t)
  {
    var u := WrittenChr(ch) + t;
    match ch {
      case Plain(x) => assert u[1..] == t;
      case Pair(high, low) =>
        assert u[1..] == [low] + t;
        assert ([low] + t)[1..] == t;
      case Short(c) => assert u[Upto(2, u)..] == t;
      case Numbered(a, b, c, d) =>
        HexOfFour(a, b, c, d);
        assert u[2..Upto(6, u)] == [a, b, c, d] && u[Upto(6, u)..] == t;
    }
  }

  lemma LoneAtNumber(a: Unit, b: Unit, c: Unit, d: Unit, t: Text)
    requires IsHex(a) && IsHex(b) && IsHex(c) && IsHex(d)
    ensures var u := WrittenChr(Numbered(a, b, c, d)) + t;
      && (IsLow(Hex4(a, b, c, d)) ==> Lone(u))
      && (IsHigh(Hex4(a, b, c, d)) ==> Lone(u) == (!LowEscape(t) || Lone(t[Upto(6, t)..])))
  {
    var u := WrittenChr(Numbered(a, b, c, d)) + t;
    HexOfFour(a, b, c, d);
    assert u[2..Upto(6, u)] == [a, b, c, d] && u[Upto(6, u)..] == t;
    assert u[Upto(12, u)..] == t[Upto(6, t)..];
  }

  /** What is written of the next character looks like a low escape just where it is one. */
  lemma LowEscapeIs(chars: seq<Chr>, t: Text)
    requires GoodChrs(chars) && t == Written(chars) + [QUOTE]
    ensures LowEscape(t) <==> chars != [] && chars[0].Numbered? && IsLow(Hex4(chars[0].a, chars[0].b, chars[0].c, chars[0].d))
    ensures LowEscape(t) ==> t[Upto(6, t)..] == Written(chars[1..]) + [QUOTE]
    ensures LowEscape(t) <==> Meant(chars) != [] && IsLow(Meant(chars)[0])
    ensures LowEscape(t) ==> Meant(chars)[1..] == Meant(chars[1..])
  {
    if chars != [] {
      var ch, rest := chars[0], Written(chars[1..]) + [QUOTE];
      assert t == WrittenChr(ch) + rest;
      match ch {
        case Plain(_) =>
        case Pair(_, _) =>
        case Short(c) =>
        case Numbered(a, b, c, d) =>
          HexOfFour(a, b, c, d);
          assert t[Upto(6, t)..] == rest;
      }
    }
  }

  /** The pass finds something in a literal exactly if the string meant is broken. */
  lemma {:induction false} LoneIsBroken(chars: seq<Chr>)
    requires GoodChrs(chars)
    ensures Lone(Written(chars) + [QUOTE]) <==> LoneUnit(Meant(chars))
    decreases |chars|
  {
    if chars == [] {
      assert Written(chars) + [QUOTE] == [QUOTE];
      assert [QUOTE][1..] == [];
    } else {
      var ch, rest := chars[0], Written(chars[1..]) + [QUOTE];
      var meant := Meant(chars[1..]);
      assert Written(chars) + [QUOTE] == WrittenChr(ch) + rest && Meant(chars) == MeantChr(ch) + meant;
      hide Lone, LoneUnit, LowEscape, Hex4, WrittenChr;
      LoneIsBroken(chars[1..]);
      if ch.Numbered? && IsLow(Hex4(ch.a, ch.b, ch.c, ch.d)) {
        SurrogateStep(Hex4(ch.a, ch.b, ch.c, ch.d), meant);
        LoneAtNumber(ch.a, ch.b, ch.c, ch.d, rest);
      } else if ch.Numbered? && IsHigh(Hex4(ch.a, ch.b, ch.c, ch.d)) {
        LoneAtNumber(ch.a, ch.b, ch.c, ch.d, rest);
        LowEscapeIs(chars[1..], rest);
        SurrogateStep(Hex4(ch.a, ch.b, ch.c, ch.d), meant);
        if LowEscape(rest) { LoneIsBroken(chars[1..][1..]); }
      } else {
        LoneStep(ch, rest);
        MeantStep(ch, meant);
      }
    }
  }

  lemma SurrogateStep(u: Unit, t: Text)
    ensures IsHigh(u) ==> (LoneUnit([u] + t) <==> (t == [] || !IsLow(t[0]) || LoneUnit(t[1..])))
    ensures IsLow(u) ==> LoneUnit([u] + t)
  {
    if t != [] { assert ([u] + t)[2..] == t[1..]; }
  }

  lemma MeantStep(ch: Chr, t: Text)
    requires GoodChr(ch) && (ch.Numbered? ==> !IsHigh(Hex4(ch.a, ch.b, ch.c, ch.d)) && !IsLow(Hex4(ch.a, ch.b, ch.c, ch.d)))
    ensures LoneUnit(MeantChr(ch) + t) == LoneUnit(t)
  {
    var u := MeantChr(ch) + t;
    if ch.Pair? { assert u[2..] == t; } else { assert u[1..] == t; }
  }

  /** `hasLoneSurrogate` of a literal, quotes and all: whether the string meant is broken. */
  lemma LoneOfLiteral(chars: seq<Chr>)
    requires GoodChrs(chars)
    ensures Lone(Literal(chars)) <==> Broken(Meant(chars))
  {
    assert Literal(chars)[1..] == Written(chars) + [QUOTE];
    LoneIsBroken(chars);
    LoneUnitIsBroken(Meant(chars));
  }
}
