/**
  `scrubPayload` of `packages/nostr-bridge/src/protocol.ts`: internal wiring
  markers (`module:…`, `tool:…`) are redacted from every string of a payload.
*/
module Scrub {
  // ------------------------------------------------- the regular expression

  predicate IsWord(c: char) { 'a' <= c <= 'z' || 'A' <= c <= 'Z' || '0' <= c <= '9' || c == '_' }

  /** `[\w./-]` */
  predicate InName(c: char) { IsWord(c) || c in "./-" }

  /** The letter without regard to case. */
  function Lower(c: char): char { if 'A' <= c <= 'Z' then c + 32 as char else c }

  /** A letter keeps its place in the alphabet. */
  lemma LowerMeans(c: char)
    ensures 'A' <= c <= 'Z' ==> Lower(c) as int - 'a' as int == c as int - 'A' as int
    ensures !('A' <= c <= 'Z') ==> Lower(c) == c
  {
  }

  predicate StartsWith(s: string, word: string) {
    |word| <= |s| && forall k :: 0 <= k < |word| ==> Lower(s[k]) == word[k]
  }

  /** The length of a longest run of name characters. */
  function NameEnd(s: string): (n: nat)
    ensures n <= |s| && (n < |s| ==> !InName(s[n])) && forall k :: 0 <= k < n ==> InName(s[k])
  {
    if s == "" || !InName(s[0]) then 0 else 1 + NameEnd(s[1..])
  }

  function PrefixLength(s: string): nat {
    if StartsWith(s, "module:") then 7 else if StartsWith(s, "tool:") then 5 else 0
  }

  /** The length of the marker that begins `s`, or 0: matching takes as much as it can. */
  function MarkerLength(s: string): (n: nat)
    ensures n <= |s|
    ensures 0 < n < |s| ==> !InName(s[n])
  {
    var p := PrefixLength(s);
    if p > 0 && NameEnd(s[p..]) > 0 then
      assert forall k :: 0 <= k < |s| - p ==> s[p..][k] == s[p + k];
      p + NameEnd(s[p..])
    else 0
  }

  const REDACTED := "[redacted]"

  /** `replace`, over the rest of a string: a marker counts only at a word boundary. */
  function Scrubbed(afterWord: bool, s: string): string
    decreases |s|
  {
    if s == "" then ""
    else
      var n := MarkerLength(s);
      if !afterWord && n > 0 then REDACTED + Scrubbed(IsWord(s[n - 1]), s[n..])
      else [s[0]] + Scrubbed(IsWord(s[0]), s[1..])
  }

  /** No marker begins anywhere in the rest of a string. */
  predicate Clean(afterWord: bool, s: string)
    decreases |s|
  {
    s == "" || ((afterWord || MarkerLength(s) == 0) && Clean(IsWord(s[0]), s[1..]))
  }

  /** The same, said of positions: nowhere at a word boundary does a marker stand. */
  lemma {:induction false} CleanMeans(afterWord: bool, s: string)
    ensures Clean(afterWord, s) <==> forall k :: 0 <= k < |s| ==>
      (if k == 0 then afterWord else IsWord(s[k - 1])) || MarkerLength(s[k..]) == 0
    decreases |s|
  {
    if s != "" {
      var t := s[1..];
      CleanMeans(IsWord(s[0]), t);
      assert forall k :: 0 < k < |s| ==> t[k - 1..] == s[k..] && (k > 1 ==> t[k - 2] == s[k - 1]);
      assert s[0..] == s;
      if Clean(afterWord, s) {
        forall k | 0 <= k < |s| ensures (if k == 0 then afterWord else IsWord(s[k - 1])) || MarkerLength(s[k..]) == 0 {
          if k > 0 { assert (if k - 1 == 0 then IsWord(s[0]) else IsWord(t[k - 2])) || MarkerLength(t[k - 1..]) == 0; }
        }
      } else if afterWord || MarkerLength(s) == 0 {
        var k :| 0 <= k < |t| && !((if k == 0 then IsWord(s[0]) else IsWord(t[k - 1])) || MarkerLength(t[k..]) == 0);
        assert t[k..] == s[k + 1..];
      }
    }
  }

  lemma RedactedHead(afterWord: bool, s: string)
    ensures s != "" && !afterWord && MarkerLength(s) > 0 ==> Scrubbed(afterWord, s) != "" && Scrubbed(afterWord, s)[0] == '['
  {
  }

  /** What is kept of a string is kept as it is: up to its first bracket the result is the string itself. */
  lemma {:induction false} SameToBracket(afterWord: bool, s: string, k: nat)
    requires k <= |Scrubbed(afterWord, s)| && forall i :: 0 <= i < k ==> Scrubbed(afterWord, s)[i] != '['
    ensures k <= |s| && Scrubbed(afterWord, s)[..k] == s[..k]
    decreases |s|
  {
    hide MarkerLength, IsWord;
    if k > 0 {
      var out := Scrubbed(afterWord, s);
      RedactedHead(afterWord, s);
      if afterWord || MarkerLength(s) == 0 {
        var rest := Scrubbed(IsWord(s[0]), s[1..]);
        assert out == [s[0]] + rest;
        assert forall i :: 0 <= i < k - 1 ==> rest[i] == out[i + 1];
        SameToBracket(IsWord(s[0]), s[1..], k - 1);
        assert out[..k] == [s[0]] + rest[..k - 1];
        assert s[..k] == [s[0]] + s[1..][..k - 1];
      }
    }
  }

  /** A marker is as good as its prefix and one more character. */
  lemma MarkerNeeds(s: string, t: string, p: nat)
    requires p == PrefixLength(s) > 0 && p + 1 <= |s| && InName(s[p])
    requires p + 1 <= |t| && s[..p + 1] == t[..p + 1]
    ensures MarkerLength(t) > 0
  {
    assert forall k :: 0 <= k < p + 1 ==> s[k] == s[..p + 1][k] && t[k] == t[..p + 1][k];
    if p == 7 {
      assert StartsWith(t, "module:");
    } else {
      assert StartsWith(t, "tool:");
      assert Lower(s[0]) == "tool:"[0] && "module:"[0] == 'm';
    }
    assert PrefixLength(t) == p;
    assert t[p..][0] == t[p] == s[p];
  }

  /** Redacting makes no marker of what stood before it. */
  lemma NoNewMarker(afterWord: bool, s: string)
    requires s != "" && (afterWord || MarkerLength(s) == 0)
    ensures MarkerLength(Scrubbed(afterWord, s)) > 0 ==> MarkerLength(s) > 0
  {
    var out := Scrubbed(afterWord, s);
    var p := PrefixLength(out);
    if MarkerLength(out) > 0 {
      assert out[p..][0] == out[p];
      forall i | 0 <= i < p + 1 ensures out[i] != '[' {
        assert i < p && p == 7 ==> Lower(out[i]) == "module:"[i];
        assert i < p && p == 5 ==> Lower(out[i]) == "tool:"[i];
      }
      SameToBracket(afterWord, s, p + 1);
      MarkerNeeds(out, s, p);
    }
  }

  /** A string that begins with what is no letter of a marker begins with no marker. */
  lemma NoMarkerAt(s: string)
    requires s != "" && Lower(s[0]) != 'm' && Lower(s[0]) != 't'
    ensures MarkerLength(s) == 0
  {
    assert "module:"[0] == 'm' && "tool:"[0] == 't';
  }

  lemma CleanStep(afterWord: bool, c: char, s: string)
    requires afterWord || (Lower(c) != 'm' && Lower(c) != 't')
    requires Clean(IsWord(c), s)
    ensures Clean(afterWord, [c] + s)
  {
    assert ([c] + s)[1..] == s;
    if !afterWord { NoMarkerAt([c] + s); }
  }

  /** Before clean text the redaction is clean. */
  lemma RedactedClean(s: string)
    requires Clean(false, s)
    ensures Clean(false, REDACTED + s)
  {
    assert REDACTED + s == ['['] + (['r'] + (['e'] + (['d'] + (['a'] + (['c'] + (['t'] + (['e'] + (['d'] + ([']'] + s)))))))));
    CleanStep(true, ']', s);
    CleanStep(true, 'd', [']'] + s);
    CleanStep(true, 'e', ['d'] + ([']'] + s));
    CleanStep(true, 't', ['e'] + (['d'] + ([']'] + s)));
    CleanStep(true, 'c', ['t'] + (['e'] + (['d'] + ([']'] + s))));
    CleanStep(true, 'a', ['c'] + (['t'] + (['e'] + (['d'] + ([']'] + s)))));
    CleanStep(true, 'd', ['a'] + (['c'] + (['t'] + (['e'] + (['d'] + ([']'] + s))))));
    CleanStep(true, 'e', ['d'] + (['a'] + (['c'] + (['t'] + (['e'] + (['d'] + ([']'] + s)))))));
    CleanStep(false, 'r', ['e'] + (['d'] + (['a'] + (['c'] + (['t'] + (['e'] + (['d'] + ([']'] + s))))))));
    CleanStep(false, '[', ['r'] + (['e'] + (['d'] + (['a'] + (['c'] + (['t'] + (['e'] + (['d'] + ([']'] + s)))))))));
  }

  /** What follows a marker begins with no name character, so neither does what is made of it. */
  lemma HeadKept(afterWord: bool, s: string)
    requires s != "" && !InName(s[0])
    ensures Scrubbed(afterWord, s) != "" && Scrubbed(afterWord, s)[0] == s[0]
  {
    NoMarkerAt(s);
  }

  /** The result of scrubbing holds no marker. */
  lemma {:induction false} ScrubbedClean(afterWord: bool, s: string)
    ensures Clean(afterWord, Scrubbed(afterWord, s))
    decreases |s|
  {
    if s != "" {
      var n := MarkerLength(s);
      if !afterWord && n > 0 {
        var rest := Scrubbed(IsWord(s[n - 1]), s[n..]);
        ScrubbedClean(IsWord(s[n - 1]), s[n..]);
        if s[n..] != "" {
          HeadKept(IsWord(s[n - 1]), s[n..]);
          NoMarkerAt(rest);
        }
        RedactedClean(rest);
      } else {
        ScrubbedClean(IsWord(s[0]), s[1..]);
        NoNewMarker(afterWord, s);
        assert Scrubbed(afterWord, s)[1..] == Scrubbed(IsWord(s[0]), s[1..]);
      }
    }
  }

  /** Clean text is left alone. */
  lemma {:induction false} CleanLeftAlone(afterWord: bool, s: string)
    requires Clean(afterWord, s)
    ensures Scrubbed(afterWord, s) == s
    decreases |s|
  {
    if s != "" { CleanLeftAlone(IsWord(s[0]), s[1..]); }
  }

  // ----------------------------------------------- what is kept, what is not

  /** A string cut into characters that are kept and markers that are not. */
  datatype Piece = Kept(c: char) | Marker(text: string)

  function Text(ps: seq<Piece>): string {
    if ps == [] then "" else (match ps[0] case Kept(c) => [c] case Marker(text) => text) + Text(ps[1..])
  }

  function Redacted(ps: seq<Piece>): string {
    if ps == [] then "" else (match ps[0] case Kept(c) => [c] case Marker(_) => REDACTED) + Redacted(ps[1..])
  }

  /** `module:` or `tool:`, in any case, and a name of at least one character. */
  predicate IsMarker(m: string) { IsMarkerOf(m, "module:") || IsMarkerOf(m, "tool:") }

  predicate IsMarkerOf(m: string, word: string) {
    StartsWith(m, word) && |m| > |word| && forall k :: |word| <= k < |m| ==> InName(m[k])
  }

  /** Some beginning of the string is a marker. */
  ghost predicate BeginsMarker(s: string) { exists n: nat :: n <= |s| && IsMarker(s[..n]) }

  /** Each marker stands at a word boundary and goes on as far as it can, and at no character that is kept does one begin. */
  ghost predicate WellCut(afterWord: bool, ps: seq<Piece>)
    decreases |ps|
  {
    ps == [] ||
    match ps[0]
    case Kept(c) => (afterWord || !BeginsMarker(Text(ps))) && WellCut(IsWord(c), ps[1..])
    case Marker(m) =>
      && !afterWord && IsMarker(m) && (Text(ps[1..]) == "" || !InName(Text(ps[1..])[0]))
      && WellCut(IsWord(m[|m| - 1]), ps[1..])
  }

  /** The length of the marker at the beginning: that of the longest one, and none exactly if none begins there. */
  lemma MarkerLengthMeans(s: string)
    ensures MarkerLength(s) > 0 <==> BeginsMarker(s)
    ensures MarkerLength(s) > 0 ==> IsMarker(s[..MarkerLength(s)])
    ensures forall n: nat :: n <= |s| && IsMarker(s[..n]) ==> n <= MarkerLength(s)
  {
    if MarkerLength(s) > 0 { LongMarker(s); }
    forall n: nat | n <= |s| && IsMarker(s[..n]) ensures 0 < n <= MarkerLength(s) {
      if IsMarkerOf(s[..n], "module:") { ShortMarker(s, n, "module:"); } else { ShortMarker(s, n, "tool:"); }
    }
  }

  lemma LongMarker(s: string)
    requires MarkerLength(s) > 0
    ensures IsMarker(s[..MarkerLength(s)])
  {
    var p, n := PrefixLength(s), MarkerLength(s);
    var m, word := s[..n], if p == 7 then "module:" else "tool:";
    assert StartsWith(m, word) by { assert forall k :: 0 <= k < |word| ==> m[k] == s[k]; }
    forall k | p <= k < n ensures InName(m[k]) { assert m[k] == s[p..][k - p]; }
    assert IsMarkerOf(m, word);
  }

  lemma ShortMarker(s: string, n: nat, word: string)
    requires n <= |s| && word in {"module:", "tool:"} && IsMarkerOf(s[..n], word)
    ensures 0 < n <= MarkerLength(s)
  {
    assert forall k :: 0 <= k < n ==> s[..n][k] == s[k];
    assert StartsWith(s, word);
    if word == "tool:" { assert Lower(s[0]) == word[0] == 't' && "module:"[0] == 'm'; }
    var p := |word|;
    assert PrefixLength(s) == p;
    assert forall k :: 0 <= k < n - p ==> s[p..][k] == s[p + k];
    assert NameEnd(s[p..]) >= n - p;
  }

  /** No marker is longer than one it begins with whose next character is none of a name. */
  lemma NotLonger(m: string, rest: string, n: nat)
    requires IsMarker(m) && |m| < n <= |m + rest| && !InName(rest[0])
    ensures !IsMarker((m + rest)[..n])
  {
    var longer := (m + rest)[..n];
    assert longer[|m|] == rest[0] && longer[0] == m[0];
    assert "module:"[0] == 'm' && "tool:"[0] == 't';
  }

  /** A marker that goes on as far as it can has its own length. */
  lemma WholeMarker(m: string, rest: string)
    requires IsMarker(m) && (rest == "" || !InName(rest[0]))
    ensures MarkerLength(m + rest) == |m|
  {
    var s := m + rest;
    assert s[..|m|] == m;
    MarkerLengthMeans(s);
    forall n: nat | |m| < n <= |s| ensures !IsMarker(s[..n]) { NotLonger(m, rest, n); }
    hide MarkerLength, IsMarker, InName;
  }

  /** Scrubbing a string replaces just its markers: everything else is kept, in its order. */
  lemma {:induction false} ScrubbedPieces(afterWord: bool, ps: seq<Piece>)
    requires WellCut(afterWord, ps)
    ensures Scrubbed(afterWord, Text(ps)) == Redacted(ps)
    decreases |ps|
  {
    if ps != [] {
      var s, rest := Text(ps), Text(ps[1..]);
      match ps[0] {
        case Kept(c) =>
          MarkerLengthMeans(s);
          ScrubbedPieces(IsWord(c), ps[1..]);
          assert s == [c] + rest && s[1..] == rest;
        case Marker(m) =>
          WholeMarker(m, rest);
          ScrubbedPieces(IsWord(m[|m| - 1]), ps[1..]);
          assert s == m + rest && s[|m|..] == rest && s[|m| - 1] == m[|m| - 1];
      }
    }
  }

  /** And every string is cut so. */
  lemma {:induction false} Cut(afterWord: bool, s: string) returns (ps: seq<Piece>)
    ensures Text(ps) == s && WellCut(afterWord, ps)
    decreases |s|
  {
    if s == "" {
      ps := [];
    } else {
      MarkerLengthMeans(s);
      var n := MarkerLength(s);
      if !afterWord && n > 0 {
        var rest := Cut(IsWord(s[n - 1]), s[n..]);
        ps := [Marker(s[..n])] + rest;
        assert ps[1..] == rest && s == s[..n] + s[n..];
        hide Clean, Scrubbed, Redacted, MarkerLength, IsMarker, StartsWith;
      } else {
        var rest := Cut(IsWord(s[0]), s[1..]);
        ps := [Kept(s[0])] + rest;
        assert ps[1..] == rest && s == [s[0]] + s[1..];
        hide Clean, Scrubbed, Redacted, MarkerLength, IsMarker, StartsWith;
      }
    }
  }

  // ---------------------------------------------------------------- payloads

  datatype Json = Null | Bool(b: bool) | Number(text: string) | String(s: string) | Array(items: Items) | Object(members: Members)
  datatype Items = NoItem | Item(value: Json, rest: Items)
  datatype Members = NoMember | Member(key: string, value: Json, rest: Members)

  function ScrubValue(v: Json): Json {
    match v
    case String(s) => String(Scrubbed(false, s))
    case Array(items) => Array(ScrubItems(items))
    case Object(members) => Object(ScrubMembers(members))
    case _ => v
  }

  function ScrubItems(items: Items): Items {
    match items
    case NoItem => NoItem
    case Item(v, rest) => Item(ScrubValue(v), ScrubItems(rest))
  }

  function ScrubMembers(members: Members): Members {
    match members
    case NoMember => NoMember
    case Member(k, v, rest) => Member(k, ScrubValue(v), ScrubMembers(rest))
  }

  /** No string value at any depth holds a marker. */
  predicate CleanValue(v: Json) {
    match v
    case String(s) => Clean(false, s)
    case Array(items) => CleanItems(items)
    case Object(members) => CleanMembers(members)
    case _ => true
  }

  predicate CleanItems(items: Items) { items.NoItem? || (CleanValue(items.value) && CleanItems(items.rest)) }

  predicate CleanMembers(members: Members) { members.NoMember? || (CleanValue(members.value) && CleanMembers(members.rest)) }

  /** The two values are the same but that the second has every string value scrubbed. */
  ghost predicate SameShape(v: Json, w: Json) {
    match v
    case String(s) => w.String? && exists ps :: WellCut(false, ps) && s == Text(ps) && w.s == Redacted(ps)
    case Array(items) => w.Array? && SameItems(items, w.items)
    case Object(members) => w.Object? && SameMembers(members, w.members)
    case _ => v == w
  }

  ghost predicate SameItems(a: Items, b: Items) {
    if a.NoItem? then b.NoItem? else b.Item? && SameShape(a.value, b.value) && SameItems(a.rest, b.rest)
  }

  ghost predicate SameMembers(a: Members, b: Members) {
    if a.NoMember? then b.NoMember? else b.Member? && a.key == b.key && SameShape(a.value, b.value) && SameMembers(a.rest, b.rest)
  }

  /** Scrubbing a payload leaves no marker in any string value, keeps everything
      that is no string value, and leaves a scrubbed payload as it is. */
  lemma {:induction false} ScrubbedPayload(v: Json)
    ensures CleanValue(ScrubValue(v)) && SameShape(v, ScrubValue(v))
    ensures CleanValue(v) ==> ScrubValue(v) == v
    decreases v
  {
    match v {
      case String(s) =>
        ScrubbedClean(false, s);
        if Clean(false, s) { CleanLeftAlone(false, s); }
        var ps := Cut(false, s);
        ScrubbedPieces(false, ps);
      case Array(items) => ScrubbedItems(items);
      case Object(members) => ScrubbedMembers(members);
      case _ =>
    }
  }

  lemma {:induction false} ScrubbedItems(items: Items)
    ensures CleanItems(ScrubItems(items)) && SameItems(items, ScrubItems(items))
    ensures CleanItems(items) ==> ScrubItems(items) == items
    decreases items
  {
    if items.Item? {
      ScrubbedPayload(items.value);
      ScrubbedItems(items.rest);
    }
  }

  lemma {:induction false} ScrubbedMembers(members: Members)
    ensures CleanMembers(ScrubMembers(members)) && SameMembers(members, ScrubMembers(members))
    ensures CleanMembers(members) ==> ScrubMembers(members) == members
    decreases members
  {
    if members.Member? {
      ScrubbedPayload(members.value);
      ScrubbedMembers(members.rest);
    }
  }

  /** Scrubbing twice is scrubbing once. */
  lemma ScrubTwice(v: Json)
    ensures ScrubValue(ScrubValue(v)) == ScrubValue(v)
  {
    ScrubbedPayload(v);
    ScrubbedPayload(ScrubValue(v));
  }
}
