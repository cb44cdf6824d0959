/**
  The report of a run with the places a person may mark: fields, anchors of
  fields and propositions (`packages/documents-accept/src/report.ts`), and
  `unreviewed`, `reviewedFields` and `readReport` of `review.ts` over it.
*/
module ReviewReport {
  import opened Prelude
  import opened Summary

  datatype Decided = Decided(verdict: string, reviewer: string, note: Option<string>)

  datatype Anchor = Anchor(how: Option<string>, unlocated: bool, mark: Option<Decided>)
  datatype Field = Field(key: string, status: Status, critical: bool, role: Role, verdict: string,
                         anchors: Option<seq<Anchor>>, mark: Option<Decided>)
  datatype Proposition = Proposition(n: int, mark: Option<Decided>)
  datatype Sample = Sample(name: string, extraction: Option<string>, fields: seq<Field>, propositions: seq<Proposition>,
                           covers: map<string, seq<string>>, coverage: map<string, State>)
  datatype Report = Report(samples: seq<Sample>, totals: Summary)

  /** A place in a sample that can hold a mark. */
  datatype Spot = AtField(f: nat) | AtAnchor(f: nat, a: nat) | AtProposition(m: nat)

  predicate Within(s: Sample, spot: Spot) {
    match spot
    case AtField(f) => f < |s.fields|
    case AtAnchor(f, a) => f < |s.fields| && s.fields[f].anchors.Some? && a < |s.fields[f].anchors.value|
    case AtProposition(m) => m < |s.propositions|
  }

  function MarkAt(s: Sample, spot: Spot): Option<Decided>
    requires Within(s, spot)
  {
    match spot
    case AtField(f) => s.fields[f].mark
    case AtAnchor(f, a) => s.fields[f].anchors.value[a].mark
    case AtProposition(m) => s.propositions[m].mark
  }

  /** What a setter of `place` does. */
  function Marked(s: Sample, spot: Spot, d: Decided): Sample
    requires Within(s, spot)
  {
    match spot
    case AtField(f) => s.(fields := s.fields[f := s.fields[f].(mark := Some(d))])
    case AtAnchor(f, a) =>
      var anchors := s.fields[f].anchors.value;
      s.(fields := s.fields[f := s.fields[f].(anchors := Some(anchors[a := anchors[a].(mark := Some(d))]))])
    case AtProposition(m) => s.(propositions := s.propositions[m := s.propositions[m].(mark := Some(d))])
  }

  // -------------------------------------------------------- without any marks

  function BareAnchor(a: Anchor): Anchor { a.(mark := None) }

  function BareField(f: Field): Field {
    f.(mark := None, anchors := if f.anchors.Some? then Some(Mapped(BareAnchor, f.anchors.value)) else None)
  }

  function BareProposition(m: Proposition): Proposition { m.(mark := None) }

  function BareSample(s: Sample): Sample {
    s.(fields := Mapped(BareField, s.fields), propositions := Mapped(BareProposition, s.propositions))
  }

  function Bare(r: Report): Report {
    r.(samples := Mapped(BareSample, r.samples))
  }

  /** `unreviewed`: the marks of every sample deleted in place, fields first, then propositions. */
  method Unreviewed(report: Report) returns (plain: Report)
    ensures plain == Bare(report)
  {
    var samples := report.samples;
    for i := 0 to |samples|
      invariant |samples| == |report.samples|
      invariant forall k :: 0 <= k < i ==> samples[k] == BareSample(report.samples[k])
      invariant forall k :: i <= k < |samples| ==> samples[k] == report.samples[k]
    {
      var s := UnmarkedSample(samples[i]);
      samples := samples[i := s];
    }
    plain := report.(samples := samples);
    assert plain.samples == Bare(report).samples;
  }

  method UnmarkedSample(sample: Sample) returns (s: Sample)
    ensures s == BareSample(sample)
  {
    var fields, propositions := sample.fields, sample.propositions;
    for f := 0 to |fields|
      invariant |fields| == |sample.fields|
      invariant forall k :: 0 <= k < f ==> fields[k] == BareField(sample.fields[k])
      invariant forall k :: f <= k < |fields| ==> fields[k] == sample.fields[k]
    {
      var anchors := fields[f].anchors;
      if anchors.Some? {
        var marked := anchors.value;
        for a := 0 to |marked|
          invariant |marked| == |anchors.value|
          invariant forall k :: 0 <= k < a ==> marked[k] == BareAnchor(anchors.value[k])
          invariant forall k :: a <= k < |marked| ==> marked[k] == anchors.value[k]
        {
          marked := marked[a := marked[a].(mark := None)];
        }
        assert marked == Mapped(BareAnchor, anchors.value);
        anchors := Some(marked);
      }
      fields := fields[f := fields[f].(mark := None, anchors := anchors)];
    }
    for m := 0 to |propositions|
      invariant |propositions| == |sample.propositions|
      invariant forall k :: 0 <= k < m ==> propositions[k] == BareProposition(sample.propositions[k])
      invariant forall k :: m <= k < |propositions| ==> propositions[k] == sample.propositions[k]
    {
      propositions := propositions[m := propositions[m].(mark := None)];
    }
    s := sample.(fields := fields, propositions := propositions);
    assert s.fields == BareSample(sample).fields && s.propositions == BareSample(sample).propositions;
  }

  /** Without its marks a sample is what it was, and nothing is marked. */
  lemma BareKeeps(s: Sample)
    ensures var t := BareSample(s);
      && t.name == s.name && t.extraction == s.extraction && t.covers == s.covers && t.coverage == s.coverage
      && |t.fields| == |s.fields| && |t.propositions| == |s.propositions|
      && (forall k :: 0 <= k < |s.fields| ==> SameButMarks(t.fields[k], s.fields[k]))
      && (forall k :: 0 <= k < |s.propositions| ==> t.propositions[k] == Proposition(s.propositions[k].n, None))
  {
  }

  /** The first field is the second without its marks. */
  predicate SameButMarks(t: Field, f: Field) {
    && t.key == f.key && t.status == f.status && t.critical == f.critical && t.role == f.role && t.verdict == f.verdict && t.mark == None
    && (t.anchors.Some? <==> f.anchors.Some?)
    && (f.anchors.Some? ==>
          |t.anchors.value| == |f.anchors.value|
          && forall a :: 0 <= a < |f.anchors.value| ==> t.anchors.value[a] == Anchor(f.anchors.value[a].how, f.anchors.value[a].unlocated, None))
  }

  lemma BareFieldTwice(f: Field)
    ensures BareField(BareField(f)) == BareField(f)
  {
    if f.anchors.Some? {
      assert Mapped(BareAnchor, Mapped(BareAnchor, f.anchors.value)) == Mapped(BareAnchor, f.anchors.value);
    }
  }

  lemma BareSampleTwice(s: Sample)
    ensures BareSample(BareSample(s)) == BareSample(s)
  {
    forall k | 0 <= k < |s.fields| ensures BareField(BareField(s.fields[k])) == BareField(s.fields[k]) {
      BareFieldTwice(s.fields[k]);
    }
    assert Mapped(BareField, Mapped(BareField, s.fields)) == Mapped(BareField, s.fields);
    assert Mapped(BareProposition, Mapped(BareProposition, s.propositions)) == Mapped(BareProposition, s.propositions);
  }

  lemma BareTwice(r: Report)
    ensures Bare(Bare(r)) == Bare(r)
  {
    forall k | 0 <= k < |r.samples| ensures BareSample(BareSample(r.samples[k])) == BareSample(r.samples[k]) {
      BareSampleTwice(r.samples[k]);
    }
    assert Mapped(BareSample, Mapped(BareSample, r.samples)) == Mapped(BareSample, r.samples);
  }

  /** The same field but for the marks. */
  lemma BareFieldsAgree(f: Field, g: Field)
    requires BareField(f) == BareField(g)
    ensures f.key == g.key && f.status == g.status && f.critical == g.critical && f.role == g.role && f.verdict == g.verdict
    ensures f.anchors.Some? == g.anchors.Some?
    ensures f.anchors.Some? ==> |f.anchors.value| == |g.anchors.value|
    ensures f.anchors.Some? ==> forall k :: 0 <= k < |f.anchors.value| ==> BareAnchor(f.anchors.value[k]) == BareAnchor(g.anchors.value[k])
  {
    var (x, y) := (BareField(f), BareField(g));
    assert x.key == y.key && x.status == y.status && x.critical == y.critical && x.role == y.role && x.verdict == y.verdict;
    if f.anchors.Some? && g.anchors.Some? {
      assert x.anchors.value == y.anchors.value;
      forall k | 0 <= k < |f.anchors.value| ensures BareAnchor(f.anchors.value[k]) == BareAnchor(g.anchors.value[k]) {
        assert x.anchors.value[k] == y.anchors.value[k];
      }
    }
  }

  lemma BareSamplesAgree(s: Sample, t: Sample)
    requires BareSample(s) == BareSample(t)
    ensures s.name == t.name && s.extraction == t.extraction && s.covers == t.covers && s.coverage == t.coverage
    ensures |s.fields| == |t.fields| && forall k :: 0 <= k < |s.fields| ==> BareField(s.fields[k]) == BareField(t.fields[k])
    ensures |s.propositions| == |t.propositions|
    ensures forall k :: 0 <= k < |s.propositions| ==> s.propositions[k].n == t.propositions[k].n
  {
    var (x, y) := (BareSample(s), BareSample(t));
    assert x.fields == y.fields && x.propositions == y.propositions;
    forall k | 0 <= k < |s.fields| ensures BareField(s.fields[k]) == BareField(t.fields[k]) {
      assert x.fields[k] == y.fields[k];
    }
    forall k | 0 <= k < |s.propositions| ensures s.propositions[k].n == t.propositions[k].n {
      assert x.propositions[k] == y.propositions[k];
    }
  }

  lemma BareReportsAgree(r: Report, q: Report)
    requires Bare(r) == Bare(q)
    ensures r.totals == q.totals && |r.samples| == |q.samples|
    ensures forall k :: 0 <= k < |r.samples| ==> BareSample(r.samples[k]) == BareSample(q.samples[k])
  {
    forall k | 0 <= k < |r.samples| ensures BareSample(r.samples[k]) == BareSample(q.samples[k]) {
      assert Bare(r).samples[k] == Bare(q).samples[k];
    }
  }

  /** Two samples alike but for the marks have the same places to mark. */
  lemma SameSpots(s: Sample, t: Sample, spot: Spot)
    requires BareSample(s) == BareSample(t)
    ensures Within(s, spot) == Within(t, spot)
  {
    BareSamplesAgree(s, t);
    if !spot.AtProposition? && spot.f < |s.fields| { BareFieldsAgree(s.fields[spot.f], t.fields[spot.f]); }
  }

  /** Of an unmarked sample no place is marked. */
  lemma BareIsUnmarked(s: Sample, spot: Spot)
    requires Within(BareSample(s), spot)
    ensures MarkAt(BareSample(s), spot) == None
  {
  }

  /** A setter changes the mark of its own place and nothing else. */
  lemma MarkedMeans(s: Sample, spot: Spot, d: Decided)
    requires Within(s, spot)
    ensures BareSample(Marked(s, spot, d)) == BareSample(s)
    ensures forall other | Within(s, other) ::
              Within(Marked(s, spot, d), other) && MarkAt(Marked(s, spot, d), other) == if other == spot then Some(d) else MarkAt(s, other)
  {
    var t := Marked(s, spot, d);
    match spot
    case AtProposition(m) =>
      assert BareSample(t).propositions == BareSample(s).propositions;
    case AtField(f) =>
      assert BareField(t.fields[f]) == BareField(s.fields[f]);
      assert BareSample(t).fields == BareSample(s).fields;
    case AtAnchor(f, a) =>
      assert Mapped(BareAnchor, t.fields[f].anchors.value) == Mapped(BareAnchor, s.fields[f].anchors.value);
      assert BareField(t.fields[f]) == BareField(s.fields[f]);
      assert BareSample(t).fields == BareSample(s).fields;
  }

  /** The marks are all there is to a sample beside what it is without them. */
  lemma MarksDecide(s: Sample, t: Sample)
    requires BareSample(s) == BareSample(t)
    requires forall spot | Within(s, spot) && Within(t, spot) :: MarkAt(s, spot) == MarkAt(t, spot)
    ensures s == t
  {
    BareSamplesAgree(s, t);
    forall f | 0 <= f < |s.fields| ensures s.fields[f] == t.fields[f] {
      var (x, y) := (s.fields[f], t.fields[f]);
      BareFieldsAgree(x, y);
      assert MarkAt(s, AtField(f)) == MarkAt(t, AtField(f));
      if x.anchors.Some? {
        forall a | 0 <= a < |x.anchors.value| ensures x.anchors.value[a] == y.anchors.value[a] {
          assert MarkAt(s, AtAnchor(f, a)) == MarkAt(t, AtAnchor(f, a));
          assert BareAnchor(x.anchors.value[a]) == BareAnchor(y.anchors.value[a]);
        }
        assert x.anchors.value == y.anchors.value;
      }
    }
    forall m | 0 <= m < |s.propositions| ensures s.propositions[m] == t.propositions[m] {
      assert MarkAt(s, AtProposition(m)) == MarkAt(t, AtProposition(m));
    }
  }

  // ------------------------------------------------------- what is counted

  function ReviewedAnchor(a: Anchor): Cover {
    if a.mark.None? then Cover(a.how, a.unlocated)
    else if a.mark.value.verdict == "covered" then Cover(Some(if a.how.Some? then a.how.value else "quote"), a.unlocated)
    else Cover(None, a.unlocated)
  }

  function ReviewedField(name: string, f: Field): Scored {
    Scored(name, f.key, f.status, f.critical, f.role, if f.mark.Some? then f.mark.value.verdict else f.verdict,
           if f.anchors.Some? then Some(Mapped(ReviewedAnchor, f.anchors.value)) else None)
  }

  function FieldsOf(s: Sample): seq<Scored> {
    Mapped((f: Field) => ReviewedField(s.name, f), s.fields)
  }

  /** `samples.flatMap(reviewedFields)` */
  function ReviewedFields(samples: seq<Sample>): seq<Scored> {
    Flat(Mapped(FieldsOf, samples))
  }

  /** Marks change no question that is counted. */
  lemma {:induction false} MarksKeepQuestions(a: seq<Sample>, b: seq<Sample>)
    requires |a| == |b| && forall k :: 0 <= k < |a| ==> BareSample(a[k]) == BareSample(b[k])
    ensures SameQuestions(ReviewedFields(a), ReviewedFields(b))
  {
    if a != [] {
      MarksKeepQuestions(a[1..], b[1..]);
      assert Mapped(FieldsOf, a)[1..] == Mapped(FieldsOf, a[1..]);
      assert Mapped(FieldsOf, b)[1..] == Mapped(FieldsOf, b[1..]);
      BareSamplesAgree(a[0], b[0]);
      forall k | 0 <= k < |a[0].fields| ensures SameQuestion(FieldsOf(a[0])[k], FieldsOf(b[0])[k]) {
        BareFieldsAgree(a[0].fields[k], b[0].fields[k]);
      }
    }
  }

  // ------------------------------------------------------------ reading back

  /** A report as the harness writes it: its totals and coverage points follow from its fields. */
  predicate Follows(r: Report) {
    var fields := ReviewedFields(r.samples);
    && Summarize(fields) == r.totals
    && forall k :: 0 <= k < |r.samples| ==> Coverage(r.samples[k].name, r.samples[k].covers, fields) == r.samples[k].coverage
  }

  /** `readReport` of a report of the right shape: the report without marks, if its numbers follow. */
  method ReadReport(report: Report) returns (read: Option<Report>)
    ensures read == if Follows(Bare(report)) then Some(Bare(report)) else None
  {
    var plain := Unreviewed(report);
    read := if Follows(plain) then Some(plain) else None;
  }
}
