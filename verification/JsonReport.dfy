/**
  What the report of `scanTopLevel` means, said of the members of the object
  and not of the pass: which keys repeat, which literal a number key has, and
  whether some string is broken.
*/
module JsonReport {
  import opened Prelude
  import opened JsonText
  import opened Surrogates
  import opened JsonScan

  /** A top-level member, its key decoded. */
  datatype Entry = Entry(key: Text, value: Value)

  function Entries(m: Members): seq<Entry>
    requires GoodMembers(m)
  {
    if m.NoMember? then [] else [Entry(Meant(m.key), m.value)] + Entries(m.rest)
  }

  predicate GoodEntries(es: seq<Entry>) { forall k :: 0 <= k < |es| ==> Good(es[k].value) }

  /** Some entry before `n` has this key. */
  ghost predicate Before(es: seq<Entry>, key: Text, n: int)
    requires n <= |es|
  {
    exists i :: 0 <= i < n && es[i].key == key
  }

  /** The key of entry `j` is a known one and was that of an earlier entry. */
  ghost predicate Repeats(es: seq<Entry>, j: int)
    requires 0 <= j < |es|
  {
    es[j].key in KNOWN_FIELDS && Before(es, es[j].key, j)
  }

  ghost predicate SomeRepeat(es: seq<Entry>) { exists j :: 0 <= j < |es| && Repeats(es, j) }

  /** The key of the first entry that repeats. */
  ghost predicate FirstRepeat(es: seq<Entry>, key: Text) {
    exists j :: 0 <= j < |es| && Repeats(es, j) && es[j].key == key && forall k :: 0 <= k < j ==> !Repeats(es, k)
  }

  /** The member is broken: its key is, or its value is a known string that is. */
  ghost predicate BrokenEntry(e: Entry)
    requires Good(e.value)
  {
    Broken(e.key) || (e.key in STRING_FIELDS && e.value.Str? && Broken(Meant(e.value.chars)))
  }

  /** Where a broken member is reported: its key comes first. */
  ghost function PlaceIn(e: Entry): Place { if Broken(e.key) then InAKey else InField(e.key) }

  /** The place in the first member that is broken. */
  ghost predicate FirstBroken(es: seq<Entry>, place: Place)
    requires GoodEntries(es)
  {
    exists k :: 0 <= k < |es| && BrokenEntry(es[k]) && place == PlaceIn(es[k]) && forall j :: 0 <= j < k ==> !BrokenEntry(es[j])
  }

  ghost predicate SomeBroken(es: seq<Entry>)
    requires GoodEntries(es)
  {
    exists k :: 0 <= k < |es| && BrokenEntry(es[k])
  }

  /** The literal of the last number with this key. */
  function LastNumber(es: seq<Entry>, key: Text): Option<Text> {
    if es == [] then None
    else
      var last := es[|es| - 1];
      if last.key == key && last.value.Number? then Some(last.value.text) else LastNumber(es[..|es| - 1], key)
  }

  /** The report as a fold over entries. */
  ghost function Reported(es: seq<Entry>, r: Report): Report
    requires GoodEntries(es)
    decreases |es|
  {
    if es == [] then r
    else
      var init := es[..|es| - 1];
      Added(Reported(init, r), es[|es| - 1])
  }

  /** One more entry in the report. */
  ghost function Added(r: Report, e: Entry): Report
    requires Good(e.value)
  {
    var r' := WithKey(r, e.key, Broken(e.key));
    match e.value
    case Number(text) => WithNumber(r', e.key, text)
    case Str(chars) => WithString(r', e.key, Broken(Meant(chars)))
    case _ => r'
  }

  lemma {:induction false} EntriesGood(m: Members)
    requires GoodMembers(m)
    ensures GoodEntries(Entries(m))
    decreases m
  {
    if m.Member? { EntriesGood(m.rest); }
  }

  lemma WithMemberAdds(r: Report, key: seq<Chr>, value: Value)
    requires GoodChrs(key) && Good(value)
    ensures WithMember(r, key, value) == Added(r, Entry(Meant(key), value))
  {
    LoneOfLiteral(key);
    if value.Str? { LoneOfLiteral(value.chars); }
  }

  lemma {:induction false} ReportedFirst(e: Entry, es: seq<Entry>, r: Report)
    requires Good(e.value) && GoodEntries(es)
    ensures GoodEntries([e] + es) && Reported([e] + es, r) == Reported(es, Added(r, e))
    decreases |es|
  {
    if es == [] {
      assert [e] + es == [e] && [e][..0] == [];
    } else {
      var init := es[..|es| - 1];
      assert ([e] + es)[..|es|] == [e] + init && ([e] + es)[|es|] == es[|es| - 1];
      ReportedFirst(e, init, r);
    }
  }

  lemma {:induction false} SummaryIsReported(m: Members, r: Report)
    requires GoodMembers(m) && GoodEntries(Entries(m))
    ensures Summary(m, r) == Reported(Entries(m), r)
    decreases m
  {
    if m.Member? {
      EntriesGood(m.rest);
      WithMemberAdds(r, m.key, m.value);
      SummaryIsReported(m.rest, WithMember(r, m.key, m.value));
      ReportedFirst(Entry(Meant(m.key), m.value), Entries(m.rest), r);
    }
  }

  lemma AddedMeans(r: Report, e: Entry)
    requires Good(e.value)
    ensures Added(r, e).seen == if e.key in KNOWN_FIELDS then r.seen + {e.key} else r.seen
    ensures Added(r, e).duplicate == if r.duplicate.None? && e.key in KNOWN_FIELDS && e.key in r.seen then Some(e.key) else r.duplicate
    ensures Added(r, e).lone == if r.lone.None? && BrokenEntry(e) then Some(PlaceIn(e)) else r.lone
    ensures Added(r, e).numbers == if e.value.Number? then r.numbers[e.key := e.value.text] else r.numbers
  {
    hide Broken, Meant;
  }

  lemma {:induction false} SeenMeans(es: seq<Entry>)
    requires GoodEntries(es)
    ensures forall key :: key in Reported(es, START.out).seen <==> key in KNOWN_FIELDS && Before(es, key, |es|)
    decreases |es|
  {
    if es != [] {
      var n := |es| - 1;
      SeenMeans(es[..n]);
      AddedMeans(Reported(es[..n], START.out), es[n]);
      hide Added, Before;
      forall key ensures Before(es, key, |es|) <==> Before(es[..n], key, n) || es[n].key == key {
        BeforeInit(es, key, n);
      }
    }
  }

  lemma BeforeInit(es: seq<Entry>, key: Text, n: int)
    requires 0 <= n <= |es|
    ensures Before(es[..n], key, n) <==> Before(es, key, n)
    ensures n < |es| ==> (Before(es, key, n + 1) <==> Before(es, key, n) || es[n].key == key)
  {
    if Before(es, key, n) {
      var i :| 0 <= i < n && es[i].key == key;
      assert es[..n][i].key == key;
    }
  }

  lemma RepeatsInit(es: seq<Entry>, n: int)
    requires 0 <= n < |es|
    ensures forall j :: 0 <= j < n ==> Repeats(es[..n], j) == Repeats(es, j)
    ensures SomeRepeat(es[..n]) ==> SomeRepeat(es)
    ensures n == |es| - 1 && SomeRepeat(es) ==> SomeRepeat(es[..n]) || Repeats(es, n)
    ensures forall key :: FirstRepeat(es[..n], key) ==> FirstRepeat(es, key)
  {
    forall j | 0 <= j < n ensures Repeats(es[..n], j) == Repeats(es, j) {
      BeforeInit(es[..n], es[j].key, j);
      BeforeInit(es, es[j].key, j);
      assert es[..n][..j] == es[..j];
    }
    if SomeRepeat(es) {
      var j :| 0 <= j < |es| && Repeats(es, j);
      assert j < n ==> Repeats(es[..n], j);
    }
    forall key | FirstRepeat(es[..n], key) ensures FirstRepeat(es, key) {
      var j :| 0 <= j < n && Repeats(es[..n], j) && es[..n][j].key == key && forall k :: 0 <= k < j ==> !Repeats(es[..n], k);
      assert Repeats(es, j);
      assert forall k :: 0 <= k < j ==> Repeats(es[..n], k) == Repeats(es, k);
    }
    if SomeRepeat(es[..n]) {
      var j :| 0 <= j < n && Repeats(es[..n], j);
      assert Repeats(es, j);
    }
  }

  lemma {:induction false} DuplicateMeans(es: seq<Entry>)
    requires GoodEntries(es)
    ensures var r := Reported(es, START.out);
      (r.duplicate.Some? <==> SomeRepeat(es)) && (r.duplicate.Some? ==> FirstRepeat(es, r.duplicate.value))
    decreases |es|
  {
    if es != [] {
      var n := |es| - 1;
      var r := Reported(es[..n], START.out);
      DuplicateMeans(es[..n]);
      SeenMeans(es[..n]);
      RepeatsInit(es, n);
      BeforeInit(es, es[n].key, n);
      AddedMeans(r, es[n]);
      hide Added;
      assert es[n].key in KNOWN_FIELDS && es[n].key in r.seen <==> Repeats(es, n);
      hide Repeats;
      assert Reported(es, START.out) == Added(r, es[n]);
      if r.duplicate.None? {
        assert forall k :: 0 <= k < n ==> Repeats(es[..n], k) == Repeats(es, k);
      }
    }
  }

  lemma BrokenInit(es: seq<Entry>)
    requires es != [] && GoodEntries(es)
    ensures SomeBroken(es) <==> SomeBroken(es[..|es| - 1]) || BrokenEntry(es[|es| - 1])
    ensures forall place :: FirstBroken(es[..|es| - 1], place) ==> FirstBroken(es, place)
    ensures !SomeBroken(es[..|es| - 1]) && BrokenEntry(es[|es| - 1]) ==> FirstBroken(es, PlaceIn(es[|es| - 1]))
  {
    hide BrokenEntry, PlaceIn;
    var n := |es| - 1;
    if SomeBroken(es) {
      var k :| 0 <= k < |es| && BrokenEntry(es[k]);
      assert k < n ==> BrokenEntry(es[..n][k]);
    }
    if SomeBroken(es[..n]) {
      var k :| 0 <= k < n && BrokenEntry(es[..n][k]);
      assert BrokenEntry(es[k]);
    }
    forall place | FirstBroken(es[..n], place) ensures FirstBroken(es, place) {
      var k :| 0 <= k < n && BrokenEntry(es[..n][k]) && place == PlaceIn(es[..n][k]) && forall j :: 0 <= j < k ==> !BrokenEntry(es[..n][j]);
      forall j | 0 <= j < k ensures !BrokenEntry(es[j]) { assert es[..n][j] == es[j]; }
      assert BrokenEntry(es[k]);
    }
    if !SomeBroken(es[..n]) && BrokenEntry(es[n]) {
      forall j | 0 <= j < n ensures !BrokenEntry(es[j]) { assert es[..n][j] == es[j]; }
    }
  }

  lemma {:induction false} LoneMeans(es: seq<Entry>)
    requires GoodEntries(es)
    ensures var r := Reported(es, START.out);
      (r.lone.Some? <==> SomeBroken(es)) && (r.lone.Some? ==> FirstBroken(es, r.lone.value))
    decreases |es|
  {
    if es != [] {
      var init, last := es[..|es| - 1], es[|es| - 1];
      var r := Reported(init, START.out);
      assert Reported(es, START.out) == Added(r, last);
      hide Added, BrokenEntry, SomeBroken, FirstBroken, PlaceIn, Reported;
      LoneMeans(init);
      AddedMeans(r, last);
      BrokenInit(es);
    }
  }

  lemma {:induction false} NumbersMean(es: seq<Entry>, key: Text)
    requires GoodEntries(es)
    ensures var r := Reported(es, START.out);
      LastNumber(es, key) == if key in r.numbers then Some(r.numbers[key]) else None
    decreases |es|
  {
    if es != [] {
      NumbersMean(es[..|es| - 1], key);
    }
  }

  /** The scan of any printed object: a duplicate is reported exactly if a known
      key repeats, and it is the first that does; a number key has its last
      literal; a lone surrogate is reported exactly if a key or a known string is
      broken, at the first that is.  Only the members of the top level are spoken of. */
  lemma ScanMeans(lead: Text, blank: Text, members: Members, trail: Text)
    requires Blank(lead) && Blank(blank) && GoodMembers(members) && Blank(trail)
    ensures GoodEntries(Entries(members))
    ensures var es, r := Entries(members), Run(PrintDoc(lead, blank, members, trail), START).out;
      && (r.duplicate.Some? <==> SomeRepeat(es))
      && (r.duplicate.Some? ==> FirstRepeat(es, r.duplicate.value))
      && (r.lone.Some? <==> SomeBroken(es))
      && (r.lone.Some? ==> FirstBroken(es, r.lone.value))
      && (forall key :: LastNumber(es, key) == if key in r.numbers then Some(r.numbers[key]) else None)
  {
    hide Run, PrintDoc, Summary, SomeRepeat, FirstRepeat, SomeBroken, LastNumber, Reported, Entries;
    var es := Entries(members);
    EntriesGood(members);
    ScanOfPrinted(lead, blank, members, trail);
    SummaryIsReported(members, START.out);
    DuplicateMeans(es);
    LoneMeans(es);
    forall key ensures LastNumber(es, key) == var r := Reported(es, START.out); if key in r.numbers then Some(r.numbers[key]) else None {
      NumbersMean(es, key);
    }
  }
}
