/**
  `applyReview` of `packages/documents-accept/src/review.ts`: what a person
  decided, merged into a report. The mechanical verdicts stay; each decision
  that fits marks one place; merging starts from the mechanical report, and
  reading the merged report back gives that report again.
*/
module ReviewMerge {
  import opened Prelude
  import opened Summary
  import opened ReviewReport
  import opened ReviewCounts

  type Nth = n: int | n >= 1 witness 1

  datatype Item = Item(sample: string, extraction: string, field: Option<string>, anchor: Option<Nth>,
                       proposition: Option<Nth>, verdict: string, note: Option<string>)
  datatype Review = Review(reviewer: string, items: seq<Item>)

  datatype Why = NoOneName | NoProposition | NoField | NoAnchor | NoSuchVerdict | NoSample | OtherExtraction | DecidedTwice
  datatype Placed = There(spot: Spot) | Nowhere(why: Why)

  datatype Unused = Unused(item: Item, why: Why)
  datatype Reviewed = Reviewed(reviewer: string, applied: nat, unused: seq<Unused>, totals: Summary,
                               coverage: map<string, map<string, State>>, violated: nat, unreviewed: nat)
  datatype Full = Full(report: Report, review: Option<Reviewed>)

  // -------------------------------------------------------- where an item goes

  /** The first place in a list where a test holds; its length where it never does. */
  function IndexOf<A>(p: A -> bool, s: seq<A>): (i: nat)
    ensures i <= |s| && (i < |s| ==> p(s[i])) && forall k :: 0 <= k < i ==> !p(s[k])
  {
    if s == [] || p(s[0]) then 0 else 1 + IndexOf(p, s[1..])
  }

  /** What a person may find of a field, by what the gold says of it. */
  function FieldVerdicts(status: Status): seq<string> {
    match status
    case Present => ["correct", "mismatch", "missed", "false_conflict"]
    case Missing => ["correct", "fabricated", "unanswered"]
    case Conflict => ["correct", "mismatch", "missed", "chose_one"]
  }

  function Place(s: Sample, item: Item): (p: Placed)
    ensures p.There? ==> Within(s, p.spot)
  {
    if item.field.Some? == item.proposition.Some? || (item.anchor.Some? && item.field.None?) then Nowhere(NoOneName)
    else if item.proposition.Some? then
      var m := IndexOf((m: Proposition) => m.n == item.proposition.value, s.propositions);
      if m == |s.propositions| then Nowhere(NoProposition)
      else if item.verdict !in ["violated", "not_violated"] then Nowhere(NoSuchVerdict)
      else There(AtProposition(m))
    else
      var f := IndexOf((f: Field) => f.key == item.field.value, s.fields);
      if f == |s.fields| then Nowhere(NoField)
      else if item.anchor.None? then
        if item.verdict !in FieldVerdicts(s.fields[f].status) then Nowhere(NoSuchVerdict) else There(AtField(f))
      else if s.fields[f].anchors.None? || item.anchor.value > |s.fields[f].anchors.value| then Nowhere(NoAnchor)
      else if item.verdict !in ["covered", "uncovered"] then Nowhere(NoSuchVerdict)
      else There(AtAnchor(f, item.anchor.value - 1))
  }

  function SampleOf(r: Report, item: Item): nat {
    IndexOf((s: Sample) => s.name == item.sample, r.samples)
  }

  /** The item is about the extraction the report is of. */
  predicate About(r: Report, item: Item) {
    SampleOf(r, item) < |r.samples| && r.samples[SampleOf(r, item)].extraction == Some(item.extraction)
  }

  type Key = (string, Option<string>, Option<Nth>, Option<Nth>)

  function KeyOf(item: Item): Key {
    (item.sample, item.field, item.anchor, item.proposition)
  }

  /** An earlier item decided the same thing, whatever became of it. */
  predicate Twice(r: Report, items: seq<Item>, i: nat)
    requires i < |items|
  {
    exists j :: 0 <= j < i && About(r, items[j]) && KeyOf(items[j]) == KeyOf(items[i])
  }

  /** What becomes of an item among the items. */
  function Outcome(r: Report, items: seq<Item>, i: nat): Placed
    requires i < |items|
  {
    if SampleOf(r, items[i]) == |r.samples| then Nowhere(NoSample)
    else if !About(r, items[i]) then Nowhere(OtherExtraction)
    else if Twice(r, items, i) then Nowhere(DecidedTwice)
    else Place(r.samples[SampleOf(r, items[i])], items[i])
  }

  function DecisionOf(item: Item, reviewer: string): Decided {
    Decided(item.verdict, reviewer, item.note)
  }

  /** Item `i` is the decision on a place of sample `s`. */
  predicate Hits(r: Report, items: seq<Item>, i: nat, s: nat, spot: Spot)
    requires i < |items|
  {
    SampleOf(r, items[i]) == s && Outcome(r, items, i) == There(spot)
  }

  /** At most one decision counts for any place. */
  lemma HitOnce(r: Report, items: seq<Item>, i: nat, j: nat, s: nat, spot: Spot)
    requires i < |items| && j < |items| && Hits(r, items, i, s, spot) && Hits(r, items, j, s, spot)
    ensures i == j
  {
    SameSpotSameKey(r, items[i], items[j], spot);
    NoneBefore(r, items, i, j);
    NoneBefore(r, items, j, i);
  }

  lemma NoneBefore(r: Report, items: seq<Item>, i: nat, j: nat)
    requires i < |items| && j < |items| && !Twice(r, items, j) && About(r, items[i]) && KeyOf(items[i]) == KeyOf(items[j])
    ensures !(i < j)
  {
  }

  lemma SameSpotSameKey(r: Report, x: Item, y: Item, spot: Spot)
    requires SampleOf(r, x) == SampleOf(r, y) < |r.samples|
    requires Place(r.samples[SampleOf(r, x)], x) == There(spot) && Place(r.samples[SampleOf(r, y)], y) == There(spot)
    ensures KeyOf(x) == KeyOf(y)
  {
  }

  /** Marks do not decide where an item goes. */
  lemma PlaceIgnoresMarks(s: Sample, t: Sample, item: Item)
    requires BareSample(s) == BareSample(t)
    ensures Place(s, item) == Place(t, item)
  {
    FieldIgnoresMarks(s, t, item);
    if item.proposition.Some? { PropositionIgnoresMarks(s, t, item); }
    BareSamplesAgree(s, t);
    hide IndexOf;
  }

  lemma FieldIgnoresMarks(s: Sample, t: Sample, item: Item)
    requires BareSample(s) == BareSample(t)
    ensures item.field.Some? ==>
      var of := (f: Field) => f.key == item.field.value;
      var (f, g) := (IndexOf(of, s.fields), IndexOf(of, t.fields));
      && f == g && |s.fields| == |t.fields|
      && (f < |s.fields| ==> s.fields[f].status == t.fields[f].status && s.fields[f].anchors.Some? == t.fields[f].anchors.Some?)
      && (f < |s.fields| && s.fields[f].anchors.Some? ==> |s.fields[f].anchors.value| == |t.fields[f].anchors.value|)
  {
    BareSamplesAgree(s, t);
    if item.field.Some? {
      var of := (f: Field) => f.key == item.field.value;
      forall k | 0 <= k < |s.fields| ensures s.fields[k].key == t.fields[k].key { BareFieldsAgree(s.fields[k], t.fields[k]); }
      SameIndex(of, s.fields, t.fields);
      var f := IndexOf(of, s.fields);
      if f < |s.fields| { BareFieldsAgree(s.fields[f], t.fields[f]); }
    }
  }

  lemma PropositionIgnoresMarks(s: Sample, t: Sample, item: Item)
    requires BareSample(s) == BareSample(t) && item.proposition.Some?
    ensures var of := (m: Proposition) => m.n == item.proposition.value;
      IndexOf(of, s.propositions) == IndexOf(of, t.propositions)
  {
    BareSamplesAgree(s, t);
    SameIndex((m: Proposition) => m.n == item.proposition.value, s.propositions, t.propositions);
  }

  lemma SameIndex<A>(p: A -> bool, s: seq<A>, t: seq<A>)
    requires |s| == |t| && forall k :: 0 <= k < |s| ==> p(s[k]) == p(t[k])
    ensures IndexOf(p, s) == IndexOf(p, t)
  {
    NotSooner(p, s, t);
    NotSooner(p, t, s);
  }

  lemma NotSooner<A>(p: A -> bool, s: seq<A>, t: seq<A>)
    requires |s| == |t| && forall k :: 0 <= k < |s| ==> p(s[k]) == p(t[k])
    ensures !(IndexOf(p, s) < IndexOf(p, t))
  {
  }

  lemma SampleIgnoresMarks(r: Report, q: Report, item: Item)
    requires Bare(r) == Bare(q)
    ensures SampleOf(r, item) == SampleOf(q, item) && About(r, item) == About(q, item)
  {
    BareReportsAgree(r, q);
    forall k | 0 <= k < |r.samples| ensures r.samples[k].name == q.samples[k].name && r.samples[k].extraction == q.samples[k].extraction {
      BareSamplesAgree(r.samples[k], q.samples[k]);
    }
    SameIndex((s: Sample) => s.name == item.sample, r.samples, q.samples);
  }

  // ------------------------------------------------------- what a merge makes

  /** Each place is marked by the decision that counts for it among the first `n`, if there is one. */
  ghost predicate MarksOf(r: Report, review: Review, n: nat, m: Report)
    requires n <= |review.items|
  {
    && Bare(m) == Bare(r)
    && |m.samples| == |r.samples|
    && forall s: nat, spot | s < |m.samples| && Within(m.samples[s], spot) :: MarkIs(r, review, n, s, spot, MarkAt(m.samples[s], spot))
  }

  ghost predicate MarkIs(r: Report, review: Review, n: nat, s: nat, spot: Spot, mark: Option<Decided>)
    requires n <= |review.items|
  {
    && (forall i :: 0 <= i < n && Hits(r, review.items, i, s, spot) ==> mark == Some(DecisionOf(review.items[i], review.reviewer)))
    && (mark.Some? ==> exists i :: 0 <= i < n && Hits(r, review.items, i, s, spot))
  }

  /** The places the first `n` items decide. */
  ghost function Targets(r: Report, items: seq<Item>, n: nat): set<(nat, Spot)>
    requires n <= |items|
  {
    set i | 0 <= i < n && Outcome(r, items, i).There? :: (SampleOf(r, items[i]), Outcome(r, items, i).spot)
  }

  /** The items that changed nothing, in order, each with why. */
  function LeftOver(r: Report, items: seq<Item>, n: nat): seq<Unused>
    requires n <= |items|
  {
    if n == 0 then [] else
      LeftOver(r, items, n - 1) + match Outcome(r, items, n - 1) case There(_) => [] case Nowhere(why) => [Unused(items[n - 1], why)]
  }

  function AllCoverage(samples: seq<Sample>, fields: seq<Scored>): map<string, map<string, State>> {
    if samples == [] then map[]
    else var last := samples[|samples| - 1];
         AllCoverage(samples[..|samples| - 1], fields)[last.name := Coverage(last.name, last.covers, fields)]
  }

  function Judged(m: Report, p: Proposition -> bool): nat {
    |Filter(p, Flat(Mapped((s: Sample) => s.propositions, m.samples)))|
  }

  /** `m` is the report `r` with the review merged in, its numbers counted from the marks. */
  ghost predicate Merges(r: Report, review: Review, m: Full) {
    && MarksOf(Bare(r), review, |review.items|, m.report)
    && m.review.Some?
    && var v := m.review.value;
    && v.reviewer == review.reviewer
    && v.applied == |Targets(Bare(r), review.items, |review.items|)|
    && v.unused == LeftOver(Bare(r), review.items, |review.items|)
    && v.totals == Summarize(ReviewedFields(m.report.samples))
    && v.coverage == AllCoverage(m.report.samples, ReviewedFields(m.report.samples))
    && v.violated == Judged(m.report, (p: Proposition) => p.mark.Some? && p.mark.value.verdict == "violated")
    && v.unreviewed == Judged(m.report, (p: Proposition) => p.mark.None?)
  }

  lemma NoMarksYet(r: Report, review: Review)
    ensures MarksOf(Bare(r), review, 0, Bare(r))
  {
    BareTwice(r);
    forall s: nat, spot | s < |r.samples| && Within(Bare(r).samples[s], spot) ensures MarkIs(Bare(r), review, 0, s, spot, MarkAt(Bare(r).samples[s], spot)) {
      BareIsUnmarked(r.samples[s], spot);
    }
  }

  /** A report with the mark of one sample set. */
  function WithMark(m: Report, s: nat, spot: Spot, d: Decided): Report
    requires s < |m.samples| && Within(m.samples[s], spot)
  {
    m.(samples := m.samples[s := Marked(m.samples[s], spot, d)])
  }

  lemma SettingMarks(r: Report, review: Review, i: nat, m: Report, s: nat, spot: Spot)
    requires i < |review.items| && MarksOf(r, review, i, m)
    requires s < |m.samples| && Within(m.samples[s], spot) && Hits(r, review.items, i, s, spot)
    ensures MarksOf(r, review, i + 1, WithMark(m, s, spot, DecisionOf(review.items[i], review.reviewer)))
  {
    var d := DecisionOf(review.items[i], review.reviewer);
    var after := WithMark(m, s, spot, d);
    MarkedMeans(m.samples[s], spot, d);
    assert Bare(after).samples == Bare(m).samples;
    forall t: nat, other | t < |after.samples| && Within(after.samples[t], other)
      ensures MarkIs(r, review, i + 1, t, other, MarkAt(after.samples[t], other))
    {
      if t == s { SameSpots(m.samples[s], after.samples[s], other); }
      assert MarkIs(r, review, i, t, other, MarkAt(m.samples[t], other));
      OneMoreMark(r, review, i, s, spot, t, other, MarkAt(m.samples[t], other));
    }
  }

  lemma HitsOne(r: Report, items: seq<Item>, i: nat, s: nat, spot: Spot, t: nat, other: Spot)
    requires i < |items| && Hits(r, items, i, s, spot) && Hits(r, items, i, t, other)
    ensures t == s && other == spot
  {
  }

  lemma OneMoreMark(r: Report, review: Review, i: nat, s: nat, spot: Spot, t: nat, other: Spot, mark: Option<Decided>)
    requires i < |review.items| && Hits(r, review.items, i, s, spot) && MarkIs(r, review, i, t, other, mark)
    ensures MarkIs(r, review, i + 1, t, other,
                   if t == s && other == spot then Some(DecisionOf(review.items[i], review.reviewer)) else mark)
  {
    hide Hits, DecisionOf;
    var items, mine := review.items, t == s && other == spot;
    forall j | 0 <= j < i + 1 && Hits(r, items, j, t, other) ensures if mine then j == i else j < i {
      if mine { HitOnce(r, items, i, j, s, spot); } else if j == i { HitsOne(r, items, i, s, spot, t, other); }
    }
    assert mine ==> Hits(r, items, i, t, other);
  }

  lemma KeepingMarks(r: Report, review: Review, i: nat, m: Report)
    requires i < |review.items| && MarksOf(r, review, i, m) && Outcome(r, review.items, i).Nowhere?
    ensures MarksOf(r, review, i + 1, m)
  {
    hide Outcome;
    forall s: nat, spot | s < |m.samples| && Within(m.samples[s], spot)
      ensures MarkIs(r, review, i + 1, s, spot, MarkAt(m.samples[s], spot))
    {
      assert MarkIs(r, review, i, s, spot, MarkAt(m.samples[s], spot));
    }
  }

  lemma NewTarget(r: Report, items: seq<Item>, i: nat)
    requires i < |items|
    ensures |Targets(r, items, i + 1)| == |Targets(r, items, i)| + if Outcome(r, items, i).There? then 1 else 0
  {
    hide Outcome;
    if Outcome(r, items, i).There? {
      var (s, spot) := (SampleOf(r, items[i]), Outcome(r, items, i).spot);
      if (s, spot) in Targets(r, items, i) {
        var j :| 0 <= j < i && Outcome(r, items, j).There? && (SampleOf(r, items[j]), Outcome(r, items, j).spot) == (s, spot);
        HitOnce(r, items, i, j, s, spot);
      }
      assert Targets(r, items, i + 1) == Targets(r, items, i) + {(s, spot)};
    } else {
      assert Targets(r, items, i + 1) == Targets(r, items, i);
    }
  }

  /** What `seen` holds after the first `n` items: the keys of those about the report's own extractions. */
  ghost predicate SeenKeys(r: Report, items: seq<Item>, n: nat, seen: set<Key>)
    requires n <= |items|
  {
    forall k :: k in seen <==> exists j :: 0 <= j < n && About(r, items[j]) && KeyOf(items[j]) == k
  }

  lemma SeenMore(r: Report, items: seq<Item>, i: nat, seen: set<Key>)
    requires i < |items| && SeenKeys(r, items, i, seen)
    ensures KeyOf(items[i]) in seen <==> Twice(r, items, i)
    ensures SeenKeys(r, items, i + 1, if About(r, items[i]) then seen + {KeyOf(items[i])} else seen)
  {
    hide About, KeyOf;
    var after := if About(r, items[i]) then seen + {KeyOf(items[i])} else seen;
    forall k ensures k in after <==> exists j :: 0 <= j < i + 1 && About(r, items[j]) && KeyOf(items[j]) == k {
      if exists j :: 0 <= j < i && About(r, items[j]) && KeyOf(items[j]) == k {
        var j :| 0 <= j < i && About(r, items[j]) && KeyOf(items[j]) == k;
        assert 0 <= j < i + 1 && About(r, items[j]) && KeyOf(items[j]) == k;
      }
    }
  }

  lemma NoneYet(r: Report, items: seq<Item>)
    ensures SeenKeys(r, items, 0, {}) && Targets(r, items, 0) == {}
  {
  }

  lemma MarksAreAll(r: Report, review: Review, n: nat, m: Report)
    requires n <= |review.items| && MarksOf(r, review, n, m)
    ensures Bare(m) == Bare(r)
  {
  }

  /** The loop of `applyReview` over the items. */
  method MergeItems(plain: Report, review: Review) returns (merged: Report, applied: nat, unused: seq<Unused>)
    requires MarksOf(plain, review, 0, plain)
    ensures MarksOf(plain, review, |review.items|, merged)
    ensures applied == |Targets(plain, review.items, |review.items|)|
    ensures unused == LeftOver(plain, review.items, |review.items|)
  {
    hide MarksOf, MarkIs, Targets, SeenKeys, Hits, Outcome, Place, SampleOf, About, Twice, KeyOf, DecisionOf, WithMark;
    hide Bare, BareSample, BareField, Marked, MarkAt, Within;
    merged, unused, applied := plain, [], 0;
    var seen: set<Key> := {};
    NoneYet(plain, review.items);
    for i := 0 to |review.items|
      invariant MarksOf(plain, review, i, merged)
      invariant SeenKeys(plain, review.items, i, seen)
      invariant applied == |Targets(plain, review.items, i)|
      invariant unused == LeftOver(plain, review.items, i)
    {
      var item := review.items[i];
      SeenMore(plain, review.items, i, seen);
      NewTarget(plain, review.items, i);
      MarksAreAll(plain, review, i, merged);
      var placed := FindPlace(plain, merged, review, i, KeyOf(item) in seen);
      SampleIgnoresMarks(merged, plain, item);
      if About(merged, item) { seen := seen + {KeyOf(item)}; }
      match placed {
        case Nowhere(why) =>
          KeepingMarks(plain, review, i, merged);
          unused := unused + [Unused(item, why)];
        case There(spot) =>
          SettingMarks(plain, review, i, merged, SampleOf(merged, item), spot);
          merged := WithMark(merged, SampleOf(merged, item), spot, DecisionOf(item, review.reviewer));
          applied := applied + 1;
      }
    }
  }

  /** `applyReview` */
  method ApplyReview(report: Report, review: Review) returns (full: Full)
    ensures Merges(report, review, full) && Counts(full)
    ensures forall s: nat, spot, d | s < |full.report.samples| && Within(full.report.samples[s], spot) ::
              MarkAt(full.report.samples[s], spot) == Some(d) <==> MarkedBy(Bare(report), review, s, spot, d)
  {
    hide MarksOf, Targets, LeftOver, ReviewedFields, Summarize, AllCoverage, Judged, Bare;
    var plain := Unreviewed(report);
    NoMarksYet(report, review);
    var merged, applied, unused := MergeItems(plain, review);
    var fields := ReviewedFields(merged.samples);
    full := Full(merged, Some(Reviewed(review.reviewer, applied, unused, Summarize(fields), AllCoverage(merged.samples, fields),
                                       Judged(merged, (p: Proposition) => p.mark.Some? && p.mark.value.verdict == "violated"),
                                       Judged(merged, (p: Proposition) => p.mark.None?))));
    ReviewIsCounted(report, review, full);
    DecisionsDecide(report, review, full);
  }

  /** The setter of an item, or why it has none, read off the report as it is marked so far. */
  method FindPlace(ghost plain: Report, merged: Report, review: Review, i: nat, twice: bool) returns (placed: Placed)
    requires i < |review.items| && Bare(merged) == Bare(plain) && twice == Twice(plain, review.items, i)
    ensures placed == Outcome(plain, review.items, i)
    ensures placed.There? ==> SampleOf(merged, review.items[i]) < |merged.samples|
    ensures placed.There? ==> Within(merged.samples[SampleOf(merged, review.items[i])], placed.spot)
    ensures placed.There? ==> Hits(plain, review.items, i, SampleOf(merged, review.items[i]), placed.spot)
  {
    var item := review.items[i];
    var s := SampleOf(merged, item);
    SampleIgnoresMarks(merged, plain, item);
    BareReportsAgree(merged, plain);
    if s == |merged.samples| {
      placed := Nowhere(NoSample);
    } else if !About(merged, item) {
      placed := Nowhere(OtherExtraction);
    } else if twice {
      placed := Nowhere(DecidedTwice);
    } else {
      placed := Place(merged.samples[s], item);
      PlaceIgnoresMarks(merged.samples[s], plain.samples[s], item);
    }
  }

  /** A review merged in and the report read back: that of a harness comes back as it was. */
  method MergeAndRead(report: Report, review: Review) returns (full: Full, read: Option<Report>)
    ensures Merges(report, review, full)
    ensures report == Bare(report) && Follows(report) ==> read == Some(report)
    ensures read.Some? <==> Follows(Bare(report))
  {
    hide Merges, Follows, Bare;
    full := ApplyReview(report, review);
    ReadUndoesReview(report, review, full);
    read := ReadReport(full.report);
  }

  // ---------------------------------------------------- what the marks say

  /** The item names this place of the sample, and no other. */
  predicate Aims(item: Item, s: Sample, spot: Spot)
    requires Within(s, spot)
  {
    match spot
    case AtField(f) => item.field == Some(s.fields[f].key) && item.anchor.None? && item.proposition.None?
    case AtAnchor(f, a) => item.field == Some(s.fields[f].key) && item.anchor.Some? && item.anchor.value == a + 1 && item.proposition.None?
    case AtProposition(m) => item.field.None? && item.anchor.None? && item.proposition.Some? && item.proposition.value == s.propositions[m].n
  }

  /** Of which fields a verdict may be found: any may be correct, one with a value may mismatch or be missed, one without
      may be fabricated or left unanswered, and a conflict is seen falsely in a value and overlooked by choosing one. */
  predicate MayBeFound(status: Status, verdict: string) {
    || verdict == "correct"
    || ((verdict == "mismatch" || verdict == "missed") && status != Missing)
    || ((verdict == "fabricated" || verdict == "unanswered") && status == Missing)
    || (verdict == "false_conflict" && status == Present)
    || (verdict == "chose_one" && status == Conflict)
  }

  lemma TableMeans(status: Status, verdict: string)
    ensures verdict in FieldVerdicts(status) <==> MayBeFound(status, verdict)
  {
  }

  predicate Allowed(s: Sample, spot: Spot, verdict: string)
    requires Within(s, spot)
  {
    match spot
    case AtField(f) => MayBeFound(s.fields[f].status, verdict)
    case AtAnchor(_, _) => verdict == "covered" || verdict == "uncovered"
    case AtProposition(_) => verdict == "violated" || verdict == "not_violated"
  }

  /** Nothing before the place has its names. */
  ghost predicate Foremost(samples: seq<Sample>, s: nat, spot: Spot)
    requires s < |samples| && Within(samples[s], spot)
  {
    && (forall t :: 0 <= t < s ==> samples[t].name != samples[s].name)
    && FirstSpot(samples[s], spot)
  }

  predicate AboutPlace(item: Item, s: Sample, spot: Spot)
    requires Within(s, spot)
  {
    item.sample == s.name && s.extraction == Some(item.extraction) && Aims(item, s, spot)
  }

  /** `d` is the first decision on the place among those on its extraction, and one that can be made of it. */
  ghost predicate MarkedBy(r: Report, review: Review, s: nat, spot: Spot, d: Decided) {
    && s < |r.samples| && Within(r.samples[s], spot) && Foremost(r.samples, s, spot)
    && exists i :: 0 <= i < |review.items| && Decides(r, review.items, i, s, spot)
                  && d.verdict == review.items[i].verdict && d.reviewer == review.reviewer && d.note == review.items[i].note
  }

  ghost predicate Decides(r: Report, items: seq<Item>, i: nat, s: nat, spot: Spot)
    requires i < |items| && s < |r.samples| && Within(r.samples[s], spot)
  {
    && AboutPlace(items[i], r.samples[s], spot) && Allowed(r.samples[s], spot, items[i].verdict)
    && forall j :: 0 <= j < i ==> !AboutPlace(items[j], r.samples[s], spot)
  }

  /** The items that count for a place are those that decide it. */
  lemma HitMeans(r: Report, items: seq<Item>, i: nat, s: nat, spot: Spot)
    requires i < |items| && s < |r.samples| && Within(r.samples[s], spot)
    ensures Hits(r, items, i, s, spot) <==> Foremost(r.samples, s, spot) && Decides(r, items, i, s, spot)
  {
    var item, t := items[i], r.samples[s];
    if Hits(r, items, i, s, spot) || (Foremost(r.samples, s, spot) && Decides(r, items, i, s, spot)) {
      FirstSample(r, item, s);
      PlaceMeans(t, item, spot, r.samples, s);
      TwiceMeans(r, items, i, s, spot);
    }
  }

  lemma FirstSample(r: Report, item: Item, s: nat)
    requires s < |r.samples|
    ensures SampleOf(r, item) == s <==> r.samples[s].name == item.sample && forall t :: 0 <= t < s ==> r.samples[t].name != item.sample
  {
  }

  lemma PlaceMeans(t: Sample, item: Item, spot: Spot, samples: seq<Sample>, s: nat)
    requires s < |samples| && samples[s] == t && Within(t, spot)
    requires forall k :: 0 <= k < s ==> samples[k].name != t.name
    ensures Place(t, item) == There(spot) <==> Aims(item, t, spot) && Allowed(t, spot, item.verdict) && Foremost(samples, s, spot)
  {
    if spot.AtField? { TableMeans(t.fields[spot.f].status, item.verdict); }
  }

  lemma TwiceMeans(r: Report, items: seq<Item>, i: nat, s: nat, spot: Spot)
    requires i < |items| && s < |r.samples| && Within(r.samples[s], spot) && SampleOf(r, items[i]) == s && Aims(items[i], r.samples[s], spot)
    ensures Twice(r, items, i) <==> exists j :: 0 <= j < i && AboutPlace(items[j], r.samples[s], spot)
  {
    FirstSample(r, items[i], s);
    forall j | 0 <= j < i ensures About(r, items[j]) && KeyOf(items[j]) == KeyOf(items[i]) <==> AboutPlace(items[j], r.samples[s], spot) {
      FirstSample(r, items[j], s);
    }
  }

  /** The sample an item is about: the first of its name. */
  ghost predicate Named(r: Report, item: Item, s: nat) {
    s < |r.samples| && r.samples[s].name == item.sample && forall t :: 0 <= t < s ==> r.samples[t].name != item.sample
  }

  /** Why an item changes nothing: the first of these that holds. */
  lemma WhyMeans(r: Report, items: seq<Item>, i: nat)
    requires i < |items|
    ensures Outcome(r, items, i) == Nowhere(NoSample) <==> forall s :: 0 <= s < |r.samples| ==> r.samples[s].name != items[i].sample
    ensures Outcome(r, items, i) == Nowhere(OtherExtraction) <==> exists s: nat :: Named(r, items[i], s) && r.samples[s].extraction != Some(items[i].extraction)
    ensures Outcome(r, items, i) == Nowhere(DecidedTwice) <==>
      exists s: nat :: Named(r, items[i], s) && r.samples[s].extraction == Some(items[i].extraction) && Twice(r, items, i)
    ensures forall s: nat | Named(r, items[i], s) && r.samples[s].extraction == Some(items[i].extraction) && !Twice(r, items, i) ::
      Outcome(r, items, i) == Place(r.samples[s], items[i])
  {
    var s := SampleOf(r, items[i]);
    if s < |r.samples| { assert Named(r, items[i], s); }
    forall t: nat | Named(r, items[i], t) ensures t == s { FirstSample(r, items[i], t); }
  }

  lemma WhyNoPlace(t: Sample, item: Item)
    ensures Place(t, item) == Nowhere(NoOneName) <==> (item.field.Some? && item.proposition.Some?) || (item.field.None? && (item.proposition.None? || item.anchor.Some?))
    ensures Place(t, item) == Nowhere(NoProposition) <==>
      item.proposition.Some? && item.field.None? && item.anchor.None? && forall m :: 0 <= m < |t.propositions| ==> t.propositions[m].n != item.proposition.value
    ensures Place(t, item) == Nowhere(NoField) <==>
      item.field.Some? && item.proposition.None? && forall f :: 0 <= f < |t.fields| ==> t.fields[f].key != item.field.value
    ensures Place(t, item) == Nowhere(NoAnchor) <==>
      item.field.Some? && item.proposition.None? && item.anchor.Some?
      && exists f: nat :: FirstOfKey(t, item.field.value, f) && (t.fields[f].anchors.None? || item.anchor.value > |t.fields[f].anchors.value|)
    ensures Place(t, item) == Nowhere(NoSuchVerdict) <==> exists spot :: Within(t, spot) && Aims(item, t, spot) && FirstSpot(t, spot) && !Allowed(t, spot, item.verdict)
  {
    if item.proposition.Some? && item.field.None? && item.anchor.None? {
      var m := IndexOf((m: Proposition) => m.n == item.proposition.value, t.propositions);
      if m < |t.propositions| { assert Within(t, AtProposition(m)) && Aims(item, t, AtProposition(m)) && FirstSpot(t, AtProposition(m)); }
    } else if item.field.Some? && item.proposition.None? {
      var f := IndexOf((f: Field) => f.key == item.field.value, t.fields);
      if f < |t.fields| {
        assert FirstOfKey(t, item.field.value, f);
        TableMeans(t.fields[f].status, item.verdict);
        var spot := if item.anchor.None? then AtField(f) else AtAnchor(f, item.anchor.value - 1);
        if Within(t, spot) { assert Aims(item, t, spot) && FirstSpot(t, spot); }
      }
    }
  }

  ghost predicate FirstOfKey(t: Sample, key: string, f: nat) {
    f < |t.fields| && t.fields[f].key == key && forall g :: 0 <= g < f ==> t.fields[g].key != key
  }

  ghost predicate FirstSpot(t: Sample, spot: Spot)
    requires Within(t, spot)
  {
    if spot.AtProposition? then forall k :: 0 <= k < spot.m ==> t.propositions[k].n != t.propositions[spot.m].n
    else FirstOfKey(t, t.fields[spot.f].key, spot.f)
  }

  /** A place of the merged report is marked with `d` if and only if `d` is the first decision on it, and one that can be made of it. */
  lemma DecisionsDecide(r: Report, review: Review, m: Full)
    requires Merges(r, review, m)
    ensures forall s: nat, spot, d | s < |m.report.samples| && Within(m.report.samples[s], spot) ::
              MarkAt(m.report.samples[s], spot) == Some(d) <==> MarkedBy(Bare(r), review, s, spot, d)
  {
    forall s: nat, spot, d | s < |m.report.samples| && Within(m.report.samples[s], spot)
      ensures MarkAt(m.report.samples[s], spot) == Some(d) <==> MarkedBy(Bare(r), review, s, spot, d)
    {
      DecisionDecides(r, review, m, s, spot, d);
    }
  }

  lemma DecisionDecides(r: Report, review: Review, m: Full, s: nat, spot: Spot, d: Decided)
    requires Merges(r, review, m) && s < |m.report.samples| && Within(m.report.samples[s], spot)
    ensures MarkAt(m.report.samples[s], spot) == Some(d) <==> MarkedBy(Bare(r), review, s, spot, d)
  {
    var plain := Bare(r);
    assert MarkIs(plain, review, |review.items|, s, spot, MarkAt(m.report.samples[s], spot));
    BareTwice(r);
    BareReportsAgree(m.report, plain);
    SameSpots(m.report.samples[s], plain.samples[s], spot);
    hide *;
    MarkMeans(plain, review, s, spot, MarkAt(m.report.samples[s], spot), d);
  }

  lemma MarkMeans(plain: Report, review: Review, s: nat, spot: Spot, mark: Option<Decided>, d: Decided)
    requires s < |plain.samples| && Within(plain.samples[s], spot) && MarkIs(plain, review, |review.items|, s, spot, mark)
    ensures mark == Some(d) <==> MarkedBy(plain, review, s, spot, d)
  {
    hide Hits, Decides, Foremost, Within;
    forall i | 0 <= i < |review.items|
      ensures Hits(plain, review.items, i, s, spot) <==> Foremost(plain.samples, s, spot) && Decides(plain, review.items, i, s, spot)
    {
      HitMeans(plain, review.items, i, s, spot);
    }
  }

  // -------------------------------------------------- what the numbers say

  /** The numbers of a merged report, said of its fields, anchors and propositions as they are marked. */
  ghost predicate Counts(m: Full) {
    && m.review.Some?
    && var (v, samples) := (m.review.value, m.report.samples);
    && TotalsAre(samples, false, v.totals.answer) && TotalsAre(samples, true, v.totals.context)
    && v.violated == |PropositionsWhere(samples, (p: Proposition) => p.mark.Some? && p.mark.value.verdict == "violated")|
    && v.unreviewed == |PropositionsWhere(samples, (p: Proposition) => p.mark.None?)|
    && PointsAre(samples, v.coverage)
  }

  ghost predicate PointsAre(samples: seq<Sample>, coverage: map<string, map<string, State>>) {
    && (forall name :: name in coverage <==> exists s :: 0 <= s < |samples| && samples[s].name == name)
    && (forall s :: 0 <= s < |samples| && LastNamed(samples, s) ==> CoverageIs(samples, samples[s], coverage[samples[s].name]))
  }

  /** The samples of a report have different names; of two with the same one the points of the later would stand. */
  ghost predicate LastNamed(samples: seq<Sample>, s: nat)
    requires s < |samples|
  {
    forall t :: s < t < |samples| ==> samples[t].name != samples[s].name
  }

  lemma {:induction false} AllCoverageMeans(samples: seq<Sample>, n: nat, fields: seq<Scored>)
    requires n <= |samples|
    ensures var all := AllCoverage(samples[..n], fields);
      && (forall name :: name in all <==> exists s :: 0 <= s < n && samples[s].name == name)
      && (forall s :: 0 <= s < n && (forall t :: s < t < n ==> samples[t].name != samples[s].name) ==>
            all[samples[s].name] == Coverage(samples[s].name, samples[s].covers, fields))
  {
    hide Coverage;
    if n > 0 {
      AllCoverageMeans(samples, n - 1, fields);
      assert samples[..n][..n - 1] == samples[..n - 1];
      var fewer, all := AllCoverage(samples[..n - 1], fields), AllCoverage(samples[..n], fields);
      forall name ensures name in all <==> exists s :: 0 <= s < n && samples[s].name == name {
        if name in fewer {
          var s :| 0 <= s < n - 1 && samples[s].name == name;
          assert 0 <= s < n && samples[s].name == name;
        }
      }
      forall s | 0 <= s < n && (forall t :: s < t < n ==> samples[t].name != samples[s].name)
        ensures all[samples[s].name] == Coverage(samples[s].name, samples[s].covers, fields)
      {
        if s < n - 1 { assert samples[n - 1].name != samples[s].name; }
      }
    }
  }

  lemma PointsMean(samples: seq<Sample>)
    ensures PointsAre(samples, AllCoverage(samples, ReviewedFields(samples)))
  {
    hide CoverageIs, Coverage, ReviewedFields, AllCoverage;
    var all := AllCoverage(samples, ReviewedFields(samples));
    AllCoverageMeans(samples, |samples|, ReviewedFields(samples));
    assert samples[..|samples|] == samples;
    forall s | 0 <= s < |samples| && LastNamed(samples, s) ensures CoverageIs(samples, samples[s], all[samples[s].name]) {
      CoverageMeans(samples, samples[s]);
    }
  }

  /** Every merge is counted by what its marks say. */
  lemma ReviewIsCounted(r: Report, review: Review, m: Full)
    requires Merges(r, review, m)
    ensures Counts(m)
  {
    hide MarksOf, TotalsAre, PointsAre, ReviewedFields, PropositionsWhere, Summarize, AllCoverage, LeftOver, Targets;
    var samples := m.report.samples;
    TotalsMean(samples);
    PropositionCount(samples, (p: Proposition) => p.mark.Some? && p.mark.value.verdict == "violated");
    PropositionCount(samples, (p: Proposition) => p.mark.None?);
    PointsMean(samples);
  }

  // ------------------------------------------------------- what a merge keeps

  /** Reading a merged report back gives what reading the report itself gives: a review changes nothing there. */
  lemma ReadUndoesReview(r: Report, review: Review, m: Full)
    requires Merges(r, review, m)
    ensures Bare(m.report) == Bare(r)
    ensures r == Bare(r) && Follows(r) ==> Follows(Bare(m.report)) && Bare(m.report) == r
  {
    BareTwice(r);
  }

  /** Every item is applied or left over, and as many are applied as there are places marked. */
  lemma {:induction false} EveryItemIsAccountedFor(r: Report, items: seq<Item>, n: nat)
    requires n <= |items|
    ensures |Targets(r, items, n)| + |LeftOver(r, items, n)| == n
  {
    hide Outcome, Targets;
    if n > 0 {
      EveryItemIsAccountedFor(r, items, n - 1);
      NewTarget(r, items, n - 1);
    } else {
      NoneYet(r, items);
    }
  }

  lemma AppliedAndUnused(r: Report, review: Review, m: Full)
    requires Merges(r, review, m)
    ensures m.review.value.applied + |m.review.value.unused| == |review.items|
    ensures forall s: nat, spot | s < |m.report.samples| && Within(m.report.samples[s], spot) ::
              MarkAt(m.report.samples[s], spot).Some? <==> (s, spot) in Targets(Bare(r), review.items, |review.items|)
  {
    hide Outcome;
    EveryItemIsAccountedFor(Bare(r), review.items, |review.items|);
    var items, n := review.items, |review.items|;
    forall s: nat, spot | s < |m.report.samples| && Within(m.report.samples[s], spot)
      ensures MarkAt(m.report.samples[s], spot).Some? <==> (s, spot) in Targets(Bare(r), items, n)
    {
      assert MarkIs(Bare(r), review, n, s, spot, MarkAt(m.report.samples[s], spot));
      if (s, spot) in Targets(Bare(r), items, n) {
        var i :| 0 <= i < n && Outcome(Bare(r), items, i).There? && (SampleOf(Bare(r), items[i]), Outcome(Bare(r), items, i).spot) == (s, spot);
        assert Hits(Bare(r), items, i, s, spot);
      }
    }
  }

  /** No review moves the number of fields, of missing and conflict fields, or of gold anchors. */
  lemma DenominatorsStay(r: Report, review: Review, m: Full)
    requires Merges(r, review, m)
    ensures SameDenominators(m.review.value.totals.answer, Summarize(ReviewedFields(Bare(r).samples)).answer)
    ensures SameDenominators(m.review.value.totals.context, Summarize(ReviewedFields(Bare(r).samples)).context)
  {
    BareReportsAgree(m.report, Bare(r));
    MarksKeepQuestions(m.report.samples, Bare(r).samples);
    SummaryKeepsDenominators(ReviewedFields(m.report.samples), ReviewedFields(Bare(r).samples));
  }

  /** The report and the review decide the merged report. */
  lemma MergeIsUnique(r: Report, review: Review, m: Full, n: Full)
    requires Merges(r, review, m) && Merges(r, review, n)
    ensures m == n
  {
    BareReportsAgree(m.report, n.report);
    forall s: nat | s < |m.report.samples| ensures m.report.samples[s] == n.report.samples[s] {
      forall spot | Within(m.report.samples[s], spot) && Within(n.report.samples[s], spot)
        ensures MarkAt(m.report.samples[s], spot) == MarkAt(n.report.samples[s], spot)
      {
        OneMark(Bare(r), review, s, spot, MarkAt(m.report.samples[s], spot), MarkAt(n.report.samples[s], spot));
      }
      MarksDecide(m.report.samples[s], n.report.samples[s]);
    }
    assert m.report.samples == n.report.samples;
  }

  lemma OneMark(r: Report, review: Review, s: nat, spot: Spot, x: Option<Decided>, y: Option<Decided>)
    requires MarkIs(r, review, |review.items|, s, spot, x) && MarkIs(r, review, |review.items|, s, spot, y)
    ensures x == y
  {
    hide Hits;
  }

  /** A later review starts from the mechanical verdicts: what an earlier one decided leaves no trace. */
  lemma LaterReviewReplaces(r: Report, v: Review, m: Full, w: Review, n: Full, direct: Full)
    requires Merges(r, v, m) && Merges(m.report, w, n) && Merges(r, w, direct)
    ensures n == direct
  {
    BareTwice(r);
    assert Bare(m.report) == Bare(r);
    MergeIsUnique(r, w, n, direct);
  }

  /** A review merged after another: the merged report is that of the later review alone. */
  method MergeTwice(report: Report, v: Review, w: Review) returns (first: Full, second: Full)
    ensures Merges(report, v, first) && Merges(first.report, w, second) && Merges(report, w, second)
  {
    hide Merges;
    first := ApplyReview(report, v);
    second := ApplyReview(first.report, w);
    var direct := ApplyReview(report, w);
    LaterReviewReplaces(report, v, first, w, second, direct);
  }
}
