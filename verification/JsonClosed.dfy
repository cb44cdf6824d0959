/** Every printed object meets what `scanTopLevel` takes for granted: each literal it meets is closed. */
module JsonClosed {
  import opened JsonText
  import opened JsonScan
  import opened JsonReport
  import opened Prelude

  lemma {:induction false} ClosedOver(t: Text, tail: Text)
    requires AllClosed(tail) && forall k :: 0 <= k < |t| ==> t[k] != QUOTE
    ensures AllClosed(t + tail)
    decreases |t|
  {
    if t == [] {
      assert t + tail == tail;
    } else {
      assert (t + tail)[1..] == t[1..] + tail && (t + tail)[0] == t[0];
      ClosedOver(t[1..], tail);
    }
  }

  lemma OneClosed(u: Unit, t: Text)
    requires u != QUOTE && u != BACKSLASH
    ensures Closed([u] + t) == Closed(t)
  {
    assert ([u] + t)[1..] == t;
  }

  lemma ChrClosed(ch: Chr, t: Text)
    requires GoodChr(ch)
    ensures Closed(WrittenChr(ch) + t) == Closed(t)
  {
    match ch {
      case Plain(u) => OneClosed(u, t);
      case Pair(high, low) =>
        assert [high, low] + t == [high] + ([low] + t);
        OneClosed(high, [low] + t);
        OneClosed(low, t);
      case Short(c) => assert (WrittenChr(ch) + t)[2..] == t;
      case Numbered(a, b, c, d) =>
        var rest := [a] + ([b] + ([c] + ([d] + t)));
        assert (WrittenChr(ch) + t)[2..] == rest;
        OneClosed(a, [b] + ([c] + ([d] + t)));
        OneClosed(b, [c] + ([d] + t));
        OneClosed(c, [d] + t);
        OneClosed(d, t);
    }
  }

  lemma {:induction false} InsideClosed(chars: seq<Chr>, tail: Text)
    requires GoodChrs(chars)
    ensures Closed(Written(chars) + ([QUOTE] + tail))
    decreases |chars|
  {
    if chars == [] {
      assert Written(chars) + ([QUOTE] + tail) == [QUOTE] + tail;
    } else {
      var rest := Written(chars[1..]) + ([QUOTE] + tail);
      assert Written(chars) + ([QUOTE] + tail) == WrittenChr(chars[0]) + rest;
      InsideClosed(chars[1..], tail);
      ChrClosed(chars[0], rest);
    }
  }

  lemma LiteralClosed(chars: seq<Chr>, tail: Text)
    requires GoodChrs(chars) && AllClosed(tail)
    ensures AllClosed(Literal(chars) + tail)
  {
    var u := Literal(chars) + tail;
    InsideClosed(chars, tail);
    LiteralEndOf(chars, tail);
    assert u[1..] == Written(chars) + ([QUOTE] + tail);
    assert u[1 + |Written(chars)| + 1..] == tail;
  }

  lemma {:induction false} ValueClosed(v: Value, tail: Text)
    requires Good(v) && AllClosed(tail)
    ensures AllClosed(Print(v, tail))
    decreases v
  {
    hide AllClosed;
    match v {
      case Word(text) => ClosedOver(text, tail);
      case Number(text) => ClosedOver(text, tail);
      case Str(chars) => LiteralClosed(chars, tail);
      case Array(blank, elems) =>
        ClosedOver([CLOSE_ARRAY], tail);
        ClosedOver(blank, [CLOSE_ARRAY] + tail);
        ElemsClosed(elems, [CLOSE_ARRAY] + tail);
        ClosedOver([OPEN_ARRAY], if elems.NoElem? then blank + ([CLOSE_ARRAY] + tail) else PrintElems(elems, [CLOSE_ARRAY] + tail));
      case Object(blank, members) =>
        ClosedOver([CLOSE_OBJECT], tail);
        ClosedOver(blank, [CLOSE_OBJECT] + tail);
        MembersClosed(members, [CLOSE_OBJECT] + tail);
        ClosedOver([OPEN_OBJECT], if members.NoMember? then blank + ([CLOSE_OBJECT] + tail) else PrintMembers(members, [CLOSE_OBJECT] + tail));
    }
  }

  lemma {:induction false} ElemsClosed(e: Elems, tail: Text)
    requires GoodElems(e) && AllClosed(tail)
    ensures AllClosed(PrintElems(e, tail))
    decreases e
  {
    hide AllClosed;
    if e.Elem? {
      var next := if e.rest.NoElem? then tail else [COMMA] + PrintElems(e.rest, tail);
      ElemsClosed(e.rest, tail);
      ClosedOver([COMMA], PrintElems(e.rest, tail));
      ClosedOver(e.after, next);
      ValueClosed(e.value, e.after + next);
      ClosedOver(e.before, Print(e.value, e.after + next));
    }
  }

  lemma {:induction false} MembersClosed(m: Members, tail: Text)
    requires GoodMembers(m) && AllClosed(tail)
    ensures AllClosed(PrintMembers(m, tail))
    decreases m
  {
    hide AllClosed;
    if m.Member? {
      var next := if m.rest.NoMember? then tail else [COMMA] + PrintMembers(m.rest, tail);
      MembersClosed(m.rest, tail);
      ClosedOver([COMMA], PrintMembers(m.rest, tail));
      ClosedOver(m.after, next);
      var value := Print(m.value, m.after + next);
      ValueClosed(m.value, m.after + next);
      ClosedOver(m.space, value);
      ClosedOver([COLON], m.space + value);
      ClosedOver(m.colon, [COLON] + (m.space + value));
      LiteralClosed(m.key, m.colon + ([COLON] + (m.space + value)));
      ClosedOver(m.before, Literal(m.key) + (m.colon + ([COLON] + (m.space + value))));
    }
  }

  /** The scan, run on the text of any object, reports what the members say. */
  method ScanPrinted(lead: Text, blank: Text, members: Members, trail: Text) returns (r: Report)
    requires Blank(lead) && Blank(blank) && GoodMembers(members) && Blank(trail)
    ensures GoodEntries(Entries(members))
    ensures r.duplicate.Some? <==> SomeRepeat(Entries(members))
    ensures r.duplicate.Some? ==> FirstRepeat(Entries(members), r.duplicate.value)
    ensures r.lone.Some? <==> SomeBroken(Entries(members))
    ensures r.lone.Some? ==> FirstBroken(Entries(members), r.lone.value)
    ensures forall key :: LastNumber(Entries(members), key) == if key in r.numbers then Some(r.numbers[key]) else None
  {
    hide *;
    PrintedClosed(lead, blank, members, trail);
    ScanMeans(lead, blank, members, trail);
    r := ScanTopLevel(PrintDoc(lead, blank, members, trail));
  }

  lemma PrintedClosed(lead: Text, blank: Text, members: Members, trail: Text)
    requires Blank(lead) && Blank(blank) && GoodMembers(members) && Blank(trail)
    ensures AllClosed(PrintDoc(lead, blank, members, trail))
  {
    ClosedOver(trail, []);
    assert trail + [] == trail;
    hide AllClosed;
    ValueClosed(Object(blank, members), trail);
    ClosedOver(lead, Print(Object(blank, members), trail));
  }
}
