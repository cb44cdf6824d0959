/**
  What the totals and coverage points of a report count, said of its fields,
  anchors and marks: a person's verdict where there is one, and else the
  mechanical one (`reviewedFields` of `packages/documents-accept/src/review.ts`
  and `totals` and `coverage` of `summary.ts`).
*/
module ReviewCounts {
  import opened Prelude
  import opened Summary
  import opened ReviewReport
  import opened Counting

  /** The field is found to be `v`: by the person who marked it, or by the harness where nobody did. */
  predicate FoundAs(f: Field, v: string) {
    (f.mark.Some? && f.mark.value.verdict == v) || (f.mark.None? && f.verdict == v)
  }

  predicate Neither(f: Field) { !FoundAs(f, "correct") && !FoundAs(f, "review") }

  predicate FoundCovered(a: Anchor) {
    (a.mark.Some? && a.mark.value.verdict == "covered") || (a.mark.None? && a.how.Some?)
  }

  predicate Asked(f: Field, context: bool) { f.role.Context? <==> context }

  // ------------------------------------------------- what the numbers mean

  ghost function FieldsWhere(samples: seq<Sample>, p: Field -> bool): set<(nat, nat)> {
    set s: nat, f: nat | s < |samples| && f < |samples[s].fields| && p(samples[s].fields[f]) :: (s, f)
  }

  ghost function AnchorsWhere(samples: seq<Sample>, context: bool, p: Anchor -> bool): set<(nat, nat, nat)> {
    set s: nat, f: nat, a: nat | s < |samples| && f < |samples[s].fields| && Asked(samples[s].fields[f], context)
      && samples[s].fields[f].anchors.Some? && a < |samples[s].fields[f].anchors.value| && p(samples[s].fields[f].anchors.value[a]) :: (s, f, a)
  }

  ghost function PropositionsWhere(samples: seq<Sample>, p: Proposition -> bool): set<(nat, nat)> {
    set s: nat, m: nat | s < |samples| && m < |samples[s].propositions| && p(samples[s].propositions[m]) :: (s, m)
  }

  /** The list holds the names and verdicts of just these fields, in their order. */
  ghost predicate Names(samples: seq<Sample>, p: Field -> bool, list: seq<Wrong>) {
    exists at: seq<(nat, nat)> ::
      && |at| == |list| && InOrder(at) && (forall x :: x in at <==> x in FieldsWhere(samples, p))
      && forall k :: 0 <= k < |at| ==> NamesField(samples, at[k], list[k])
  }

  predicate NamesField(samples: seq<Sample>, x: (nat, nat), w: Wrong) {
    x.0 < |samples| && x.1 < |samples[x.0].fields| && w.sample == samples[x.0].name && w.key == samples[x.0].fields[x.1].key
    && FoundAs(samples[x.0].fields[x.1], w.verdict)
  }

  ghost predicate TotalsAre(samples: seq<Sample>, context: bool, t: Totals) {
    && t.fields == |FieldsWhere(samples, (f: Field) => Asked(f, context))|
    && t.correct == |FieldsWhere(samples, (f: Field) => Asked(f, context) && FoundAs(f, "correct"))|
    && t.review == |FieldsWhere(samples, (f: Field) => Asked(f, context) && FoundAs(f, "review"))|
    && t.missing.fields == |FieldsWhere(samples, (f: Field) => Asked(f, context) && f.status == Missing)|
    && t.missing.correct == |FieldsWhere(samples, (f: Field) => Asked(f, context) && f.status == Missing && FoundAs(f, "correct"))|
    && t.conflict.fields == |FieldsWhere(samples, (f: Field) => Asked(f, context) && f.status == Conflict)|
    && t.conflict.correct == |FieldsWhere(samples, (f: Field) => Asked(f, context) && f.status == Conflict && FoundAs(f, "correct"))|
    && t.gold == |AnchorsWhere(samples, context, (a: Anchor) => true)|
    && t.covered == |AnchorsWhere(samples, context, (a: Anchor) => FoundCovered(a))|
    && t.unlocated == |AnchorsWhere(samples, context, (a: Anchor) => !FoundCovered(a) && a.unlocated)|
    && Names(samples, (f: Field) => Asked(f, context) && f.critical && Neither(f), t.critical)
    && Names(samples, (f: Field) => Asked(f, context) && f.critical && FoundAs(f, "review"), ForReviewOf(t.criticalReview))
  }

  function ForReviewOf(list: seq<(string, string)>): seq<Wrong> {
    Mapped((x: (string, string)) => Wrong(x.0, x.1, "review"), list)
  }

  /** The first field of that key in the samples of that name. */
  ghost predicate FirstField(samples: seq<Sample>, name: string, key: string, s: nat, f: nat) {
    && IsField(samples, name, key, s, f)
    && forall t: nat, g: nat :: IsField(samples, name, key, t, g) ==> (t, g) == (s, f) || Before((s, f), (t, g))
  }

  predicate IsField(samples: seq<Sample>, name: string, key: string, s: nat, f: nat) {
    s < |samples| && f < |samples[s].fields| && samples[s].name == name && samples[s].fields[f].key == key
  }

  ghost predicate KeyFoundAs(samples: seq<Sample>, name: string, key: string, v: string) {
    exists s: nat, f: nat :: FirstField(samples, name, key, s, f) && FoundAs(samples[s].fields[f], v)
  }

  /** A point has passed exactly if each of its keys was found correct, and waits for a person if some were for review and the rest correct. */
  ghost predicate PointIs(samples: seq<Sample>, name: string, keys: seq<string>, state: State) {
    && (state == Passed <==> forall k :: 0 <= k < |keys| ==> KeyFoundAs(samples, name, keys[k], "correct"))
    && (state == Failed <==> exists k :: 0 <= k < |keys| && !KeyFoundAs(samples, name, keys[k], "correct") && !KeyFoundAs(samples, name, keys[k], "review"))
  }

  ghost predicate CoverageIs(samples: seq<Sample>, s: Sample, coverage: map<string, State>) {
    coverage.Keys == s.covers.Keys && forall point :: point in s.covers ==> PointIs(samples, s.name, s.covers[point], coverage[point])
  }

  // ------------------------------------------------------------ and they do

  /** A test of a scored field, as a test of the field it was scored from. */
  ghost predicate Reads(q: Scored -> bool, p: Field -> bool) {
    forall name, f :: q(ReviewedField(name, f)) <==> p(f)
  }

  lemma SamePlaces(samples: seq<Sample>, q: Scored -> bool, p: Field -> bool)
    requires Reads(q, p)
    ensures Places(q, Mapped(FieldsOf, samples)) == FieldsWhere(samples, p)
  {
    var lists := Mapped(FieldsOf, samples);
    forall s: nat, f: nat | s < |samples| && f < |samples[s].fields| ensures q(lists[s][f]) <==> p(samples[s].fields[f]) {
      assert lists[s][f] == ReviewedField(samples[s].name, samples[s].fields[f]);
    }
    assert forall s: nat :: s < |samples| ==> |lists[s]| == |samples[s].fields|;
  }

  /** Counting scored fields of a role that pass counts the fields. */
  lemma FieldCount(samples: seq<Sample>, role: Scored -> bool, q: Scored -> bool, p: Field -> bool)
    requires Reads((x: Scored) => role(x) && q(x), p)
    ensures |Filter(q, Filter(role, ReviewedFields(samples)))| == |FieldsWhere(samples, p)|
  {
    var both := (x: Scored) => role(x) && q(x);
    FilterTwice(role, q, both, ReviewedFields(samples));
    FilterCounts(both, Mapped(FieldsOf, samples));
    SamePlaces(samples, both, p);
  }

  lemma RoleCount(samples: seq<Sample>, role: Scored -> bool, p: Field -> bool)
    requires Reads(role, p)
    ensures |Filter(role, ReviewedFields(samples))| == |FieldsWhere(samples, p)|
  {
    FilterCounts(role, Mapped(FieldsOf, samples));
    SamePlaces(samples, role, p);
  }

  lemma PartCount(samples: seq<Sample>, role: Scored -> bool, context: bool, status: Status)
    requires Reads(role, (f: Field) => Asked(f, context))
    ensures var part := PartOf(Filter(role, ReviewedFields(samples)), status);
      && part.fields == |FieldsWhere(samples, (f: Field) => Asked(f, context) && f.status == status)|
      && part.correct == |FieldsWhere(samples, (f: Field) => Asked(f, context) && f.status == status && FoundAs(f, "correct"))|
  {
    var scored, has, correct := ReviewedFields(samples), (s: Scored) => s.status == status, (s: Scored) => s.verdict == "correct";
    var both := (x: Scored) => role(x) && has(x);
    FieldCount(samples, role, has, (f: Field) => Asked(f, context) && f.status == status);
    FilterTwice(role, has, both, scored);
    FieldCount(samples, both, correct, (f: Field) => Asked(f, context) && f.status == status && FoundAs(f, "correct"));
  }

  /** The anchors counted of a scored field: none where its role is not asked for. */
  function AnchorsOf(role: Scored -> bool, s: Scored): seq<Cover> {
    if role(s) && s.anchors.Some? then s.anchors.value else []
  }

  lemma FlatFirst<A, B>(of: A -> seq<B>, s: seq<A>)
    requires s != []
    ensures Flat(Mapped(of, s)) == of(s[0]) + Flat(Mapped(of, s[1..]))
  {
    assert Mapped(of, s)[1..] == Mapped(of, s[1..]);
  }

  lemma FlatWithFirst<A, B>(of: A -> seq<B>, x: A, s: seq<A>)
    ensures Flat(Mapped(of, [x] + s)) == of(x) + Flat(Mapped(of, s))
  {
    assert ([x] + s)[1..] == s;
    FlatFirst(of, [x] + s);
  }

  lemma {:induction false} AnchorsOfRole(role: Scored -> bool, scored: seq<Scored>)
    ensures AllAnchors(Filter(role, scored)) == Flat(Mapped((s: Scored) => AnchorsOf(role, s), scored))
    decreases |scored|
  {
    if scored != [] {
      AnchorsOfRole(role, scored[1..]);
      FlatFirst((s: Scored) => AnchorsOf(role, s), scored);
      FlatWithFirst((s: Scored) => if s.anchors.Some? then s.anchors.value else [], scored[0], Filter(role, scored[1..]));
      hide Flat, Mapped;
      if !role(scored[0]) { assert Filter(role, scored) == Filter(role, scored[1..]); }
    }
  }

  lemma AnchorCount(samples: seq<Sample>, role: Scored -> bool, context: bool, q: Cover -> bool, p: Anchor -> bool)
    requires Reads(role, (f: Field) => Asked(f, context)) && forall a :: q(ReviewedAnchor(a)) <==> p(a)
    ensures |Filter(q, AllAnchors(Filter(role, ReviewedFields(samples))))| == |AnchorsWhere(samples, context, p)|
  {
    var lists := Mapped(FieldsOf, samples);
    var of := (s: Scored) => AnchorsOf(role, s);
    AnchorsOfRole(role, Flat(lists));
    FilterCountsDeep(of, q, lists);
    assert Deep(of, q, lists) == AnchorsWhere(samples, context, p) by {
      forall s: nat, f: nat | s < |samples| && f < |samples[s].fields|
        ensures of(lists[s][f]) == if Asked(samples[s].fields[f], context) && samples[s].fields[f].anchors.Some?
                                   then Mapped(ReviewedAnchor, samples[s].fields[f].anchors.value) else []
      {
        assert lists[s][f] == ReviewedField(samples[s].name, samples[s].fields[f]);
        assert role(lists[s][f]) <==> Asked(samples[s].fields[f], context);
      }
      assert forall s: nat :: s < |samples| ==> |lists[s]| == |samples[s].fields|;
    }
  }

  lemma AllKept<A>(p: A -> bool, s: seq<A>)
    requires forall x :: p(x)
    ensures Filter(p, s) == s
  {
  }

  /** The list of the fields that pass names them in their order. */
  lemma ListNames(samples: seq<Sample>, role: Scored -> bool, q: Scored -> bool, r: Scored -> bool, p: Field -> bool, list: seq<Wrong>)
    requires Reads((x: Scored) => role(x) && q(x) && r(x), p)
    requires var found := Filter(r, Filter(q, Filter(role, ReviewedFields(samples))));
      |list| == |found| && forall k :: 0 <= k < |list| ==> list[k] == Wrong(found[k].sample, found[k].key, found[k].verdict)
    ensures Names(samples, p, list)
  {
    var both, all := (x: Scored) => role(x) && q(x), (x: Scored) => role(x) && q(x) && r(x);
    var lists := Mapped(FieldsOf, samples);
    FilterTwice(role, q, both, Flat(lists));
    FilterTwice(both, r, all, Flat(lists));
    var at := FilterFinds(all, lists);
    SamePlaces(samples, all, p);
    var found := Filter(all, Flat(lists));
    forall x ensures x in at <==> x in FieldsWhere(samples, p) {
      if x in at {
        var k :| 0 <= k < |at| && at[k] == x;
        assert lists[x.0][x.1] == found[k];
        assert x in Places(all, lists);
      }
    }
    forall k | 0 <= k < |at| ensures NamesField(samples, at[k], list[k]) {
      var (s, f) := at[k];
      assert lists[s][f] == ReviewedField(samples[s].name, samples[s].fields[f]) == found[k];
    }
  }

  /** The totals of a report's fields are these counts. */
  lemma TotalsMean(samples: seq<Sample>)
    ensures TotalsAre(samples, false, Summarize(ReviewedFields(samples)).answer)
    ensures TotalsAre(samples, true, Summarize(ReviewedFields(samples)).context)
  {
    TotalsOfRole(samples, (s: Scored) => s.role != Context, false);
    TotalsOfRole(samples, (s: Scored) => s.role == Context, true);
  }

  lemma TotalsOfRole(samples: seq<Sample>, role: Scored -> bool, context: bool)
    requires Reads(role, (f: Field) => Asked(f, context))
    ensures TotalsAre(samples, context, TotalsOf(Filter(role, ReviewedFields(samples))))
  {
    FieldTotals(samples, role, context);
    AnchorTotals(samples, role, context);
    CriticalTotals(samples, role, context);
  }

  lemma FieldTotals(samples: seq<Sample>, role: Scored -> bool, context: bool)
    requires Reads(role, (f: Field) => Asked(f, context))
    ensures var t := TotalsOf(Filter(role, ReviewedFields(samples)));
      && t.fields == |FieldsWhere(samples, (f: Field) => Asked(f, context))|
      && t.correct == |FieldsWhere(samples, (f: Field) => Asked(f, context) && FoundAs(f, "correct"))|
      && t.review == |FieldsWhere(samples, (f: Field) => Asked(f, context) && FoundAs(f, "review"))|
      && t.missing.fields == |FieldsWhere(samples, (f: Field) => Asked(f, context) && f.status == Missing)|
      && t.missing.correct == |FieldsWhere(samples, (f: Field) => Asked(f, context) && f.status == Missing && FoundAs(f, "correct"))|
      && t.conflict.fields == |FieldsWhere(samples, (f: Field) => Asked(f, context) && f.status == Conflict)|
      && t.conflict.correct == |FieldsWhere(samples, (f: Field) => Asked(f, context) && f.status == Conflict && FoundAs(f, "correct"))|
  {
    RoleCount(samples, role, (f: Field) => Asked(f, context));
    FieldCount(samples, role, (s: Scored) => s.verdict == "correct", (f: Field) => Asked(f, context) && FoundAs(f, "correct"));
    FieldCount(samples, role, (s: Scored) => s.verdict == "review", (f: Field) => Asked(f, context) && FoundAs(f, "review"));
    PartCount(samples, role, context, Missing);
    PartCount(samples, role, context, Conflict);
  }

  lemma AnchorTotals(samples: seq<Sample>, role: Scored -> bool, context: bool)
    requires Reads(role, (f: Field) => Asked(f, context))
    ensures var t := TotalsOf(Filter(role, ReviewedFields(samples)));
      && t.gold == |AnchorsWhere(samples, context, (a: Anchor) => true)|
      && t.covered == |AnchorsWhere(samples, context, (a: Anchor) => FoundCovered(a))|
      && t.unlocated == |AnchorsWhere(samples, context, (a: Anchor) => !FoundCovered(a) && a.unlocated)|
  {
    AnchorCount(samples, role, context, (c: Cover) => true, (a: Anchor) => true);
    AllKept((c: Cover) => true, AllAnchors(Filter(role, ReviewedFields(samples))));
    AnchorCount(samples, role, context, (c: Cover) => c.how.Some?, (a: Anchor) => FoundCovered(a));
    AnchorCount(samples, role, context, (c: Cover) => c.how.None? && c.unlocated, (a: Anchor) => !FoundCovered(a) && a.unlocated);
  }

  lemma CriticalTotals(samples: seq<Sample>, role: Scored -> bool, context: bool)
    requires Reads(role, (f: Field) => Asked(f, context))
    ensures var t := TotalsOf(Filter(role, ReviewedFields(samples)));
      && Names(samples, (f: Field) => Asked(f, context) && f.critical && Neither(f), t.critical)
      && Names(samples, (f: Field) => Asked(f, context) && f.critical && FoundAs(f, "review"), ForReviewOf(t.criticalReview))
  {
    var scored := Filter(role, ReviewedFields(samples));
    var critical := (s: Scored) => s.critical;
    ListNames(samples, role, critical, (s: Scored) => s.verdict != "correct" && s.verdict != "review",
              (f: Field) => Asked(f, context) && f.critical && Neither(f), TotalsOf(scored).critical);
    var waiting := Filter((s: Scored) => s.verdict == "review", Filter(critical, scored));
    forall k | 0 <= k < |waiting| ensures waiting[k].verdict == "review" {
      FilteredPasses((s: Scored) => s.verdict == "review", Filter(critical, scored), k);
    }
    ListNames(samples, role, critical, (s: Scored) => s.verdict == "review",
              (f: Field) => Asked(f, context) && f.critical && FoundAs(f, "review"), ForReviewOf(TotalsOf(scored).criticalReview));
  }

  lemma FilteredPasses<A>(p: A -> bool, s: seq<A>, k: nat)
    requires k < |Filter(p, s)|
    ensures p(Filter(p, s)[k])
    decreases |s|
  {
    if s != [] {
      if p(s[0]) {
        if k > 0 { FilteredPasses(p, s[1..], k - 1); }
      } else {
        FilteredPasses(p, s[1..], k);
      }
    }
  }

  // ------------------------------------------------------- coverage points

  predicate OfKey(x: Scored, name: string, key: string) { x.sample == name && x.key == key }

  lemma {:induction false} VerdictIsFirst(scored: seq<Scored>, name: string, key: string)
    ensures var found := Filter((x: Scored) => OfKey(x, name, key), scored);
      VerdictOf(scored, name, key) == if found == [] then None else Some(found[0].verdict)
    decreases |scored|
  {
    if scored != [] { VerdictIsFirst(scored[1..], name, key); }
  }

  /** The verdict of a key is how its first field is found. */
  lemma VerdictMeans(samples: seq<Sample>, name: string, key: string, v: string)
    ensures VerdictOf(ReviewedFields(samples), name, key) == Some(v) <==> KeyFoundAs(samples, name, key, v)
  {
    var p, lists := (x: Scored) => OfKey(x, name, key), Mapped(FieldsOf, samples);
    var found := Filter(p, Flat(lists));
    VerdictIsFirst(Flat(lists), name, key);
    var at := FilterFinds(p, lists);
    forall s: nat, f: nat | IsField(samples, name, key, s, f) ensures (s, f) in at {
      assert lists[s][f] == ReviewedField(samples[s].name, samples[s].fields[f]);
    }
    if found == [] {
      assert at == [];
    } else {
      var (s, f) := at[0];
      assert lists[s][f] == ReviewedField(samples[s].name, samples[s].fields[f]) == found[0];
      FirstOfAll(samples, name, key, at);
      if FoundAs(samples[s].fields[f], v) { assert KeyFoundAs(samples, name, key, v); }
      forall t: nat, g: nat | FirstField(samples, name, key, t, g) ensures (t, g) == (s, f) { OneFirst(samples, name, key, s, f, t, g); }
    }
  }

  lemma OneFirst(samples: seq<Sample>, name: string, key: string, s: nat, f: nat, t: nat, g: nat)
    requires FirstField(samples, name, key, s, f) && FirstField(samples, name, key, t, g)
    ensures (t, g) == (s, f)
  {
  }

  lemma FirstOfAll(samples: seq<Sample>, name: string, key: string, at: seq<(nat, nat)>)
    requires at != [] && InOrder(at) && IsField(samples, name, key, at[0].0, at[0].1)
    requires forall s: nat, f: nat :: IsField(samples, name, key, s, f) ==> (s, f) in at
    ensures FirstField(samples, name, key, at[0].0, at[0].1)
  {
    forall t: nat, g: nat | IsField(samples, name, key, t, g) ensures (t, g) == at[0] || Before(at[0], (t, g)) {
      var k :| 0 <= k < |at| && at[k] == (t, g);
      if k > 0 { assert Before(at[0], at[k]); }
    }
  }

  lemma CoverageMeans(samples: seq<Sample>, s: Sample)
    ensures CoverageIs(samples, s, Coverage(s.name, s.covers, ReviewedFields(samples)))
  {
    forall point | point in s.covers ensures PointIs(samples, s.name, s.covers[point], Coverage(s.name, s.covers, ReviewedFields(samples))[point]) {
      StateMeans(samples, s.name, s.covers[point]);
    }
  }

  lemma StateMeans(samples: seq<Sample>, name: string, keys: seq<string>)
    ensures PointIs(samples, name, keys, StateOf(name, keys, ReviewedFields(samples)))
  {
    forall k | 0 <= k < |keys|
      ensures VerdictOf(ReviewedFields(samples), name, keys[k]) == Some("correct") <==> KeyFoundAs(samples, name, keys[k], "correct")
      ensures VerdictOf(ReviewedFields(samples), name, keys[k]) == Some("review") <==> KeyFoundAs(samples, name, keys[k], "review")
    {
      VerdictMeans(samples, name, keys[k], "correct");
      VerdictMeans(samples, name, keys[k], "review");
    }
    hide KeyFoundAs, VerdictOf, ReviewedFields;
  }

  // ------------------------------------------------------------ propositions

  lemma PropositionCount(samples: seq<Sample>, p: Proposition -> bool)
    ensures |Filter(p, Flat(Mapped((s: Sample) => s.propositions, samples)))| == |PropositionsWhere(samples, p)|
  {
    var lists := Mapped((s: Sample) => s.propositions, samples);
    FilterCounts(p, lists);
    assert Places(p, lists) == PropositionsWhere(samples, p) by {
      assert forall s: nat :: s < |samples| ==> lists[s] == samples[s].propositions;
    }
  }

  // ------------------------------------------------------------ the harness

  /** A report of the harness counts its own mechanical verdicts. */
  lemma FollowsMeans(r: Report)
    requires Follows(r)
    ensures TotalsAre(r.samples, false, r.totals.answer) && TotalsAre(r.samples, true, r.totals.context)
    ensures forall k :: 0 <= k < |r.samples| ==> CoverageIs(r.samples, r.samples[k], r.samples[k].coverage)
  {
    TotalsMean(r.samples);
    forall k | 0 <= k < |r.samples| ensures CoverageIs(r.samples, r.samples[k], r.samples[k].coverage) { CoverageMeans(r.samples, r.samples[k]); }
  }
}
