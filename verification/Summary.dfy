/**
  `packages/documents-accept/src/summary.ts`: the totals of a list of scored
  fields and the coverage points of one sample. What a person decides changes
  the verdicts and the covered anchors of the fields, never which fields and
  anchors there are to count.
*/
module Summary {
  import opened Prelude

  datatype Status = Present | Missing | Conflict
  datatype Role = Answer | Context

  datatype Cover = Cover(how: Option<string>, unlocated: bool)

  /** A gold field of a sample, scored. */
  datatype Scored = Scored(sample: string, key: string, status: Status, critical: bool, role: Role,
                           verdict: string, anchors: Option<seq<Cover>>)

  datatype Part = Part(fields: nat, correct: nat)
  datatype Wrong = Wrong(sample: string, key: string, verdict: string)
  datatype Totals = Totals(fields: nat, correct: nat, review: nat, missing: Part, conflict: Part,
                           gold: nat, covered: nat, unlocated: nat, critical: seq<Wrong>, criticalReview: seq<(string, string)>)

  datatype State = Passed | ForReview | Failed

  // ------------------------------------------------------------ list helpers

  function Mapped<A, B>(f: A -> B, s: seq<A>): (r: seq<B>)
    ensures |r| == |s| && forall k :: 0 <= k < |s| ==> r[k] == f(s[k])
  {
    seq(|s|, k requires 0 <= k < |s| => f(s[k]))
  }

  function Filter<A>(p: A -> bool, s: seq<A>): seq<A> {
    if s == [] then [] else (if p(s[0]) then [s[0]] else []) + Filter(p, s[1..])
  }

  function Flat<A>(s: seq<seq<A>>): seq<A> {
    if s == [] then [] else s[0] + Flat(s[1..])
  }

  // --------------------------------------------------------------- the totals

  function AllAnchors(scored: seq<Scored>): seq<Cover> {
    Flat(Mapped((s: Scored) => if s.anchors.Some? then s.anchors.value else [], scored))
  }

  function PartOf(scored: seq<Scored>, status: Status): Part {
    var these := Filter((s: Scored) => s.status == status, scored);
    Part(|these|, |Filter((s: Scored) => s.verdict == "correct", these)|)
  }

  function TotalsOf(scored: seq<Scored>): Totals {
    var anchors := AllAnchors(scored);
    var critical := Filter((s: Scored) => s.critical, scored);
    Totals(|scored|,
           |Filter((s: Scored) => s.verdict == "correct", scored)|,
           |Filter((s: Scored) => s.verdict == "review", scored)|,
           PartOf(scored, Missing), PartOf(scored, Conflict),
           |anchors|,
           |Filter((c: Cover) => c.how.Some?, anchors)|,
           |Filter((c: Cover) => c.how.None? && c.unlocated, anchors)|,
           Mapped((s: Scored) => Wrong(s.sample, s.key, s.verdict),
                  Filter((s: Scored) => s.verdict != "correct" && s.verdict != "review", critical)),
           Mapped((s: Scored) => (s.sample, s.key), Filter((s: Scored) => s.verdict == "review", critical)))
  }

  datatype Summary = Summary(answer: Totals, context: Totals)

  /** `summarize`: the fields a reader must have answered, and apart from them the context fields. */
  function Summarize(scored: seq<Scored>): Summary {
    Summary(TotalsOf(Filter((s: Scored) => s.role != Context, scored)), TotalsOf(Filter((s: Scored) => s.role == Context, scored)))
  }

  /** The verdict of the first field of a sample with a key. */
  function VerdictOf(scored: seq<Scored>, sample: string, key: string): Option<string> {
    if scored == [] then None
    else if scored[0].sample == sample && scored[0].key == key then Some(scored[0].verdict)
    else VerdictOf(scored[1..], sample, key)
  }

  function StateOf(sample: string, keys: seq<string>, scored: seq<Scored>): State {
    if forall k :: 0 <= k < |keys| ==> VerdictOf(scored, sample, keys[k]) == Some("correct") then Passed
    else if forall k :: 0 <= k < |keys| ==> VerdictOf(scored, sample, keys[k]) in {Some("correct"), Some("review")} then ForReview
    else Failed
  }

  /** `coverage`: each point of a sample with how its fields came out. */
  function Coverage(sample: string, covers: map<string, seq<string>>, scored: seq<Scored>): map<string, State> {
    map point | point in covers :: StateOf(sample, covers[point], scored)
  }

  // ------------------------------------------------------------- denominators

  /** What there is to count of a field, whatever its verdict. */
  predicate SameQuestion(a: Scored, b: Scored) {
    && a.sample == b.sample && a.key == b.key && a.status == b.status && a.critical == b.critical && a.role == b.role
    && a.anchors.Some? == b.anchors.Some?
    && (a.anchors.Some? ==> |a.anchors.value| == |b.anchors.value|)
  }

  ghost predicate SameQuestions(a: seq<Scored>, b: seq<Scored>) {
    |a| == |b| && forall k :: 0 <= k < |a| ==> SameQuestion(a[k], b[k])
  }

  /** The numbers no review may move. */
  ghost predicate SameDenominators(t: Totals, u: Totals) {
    t.fields == u.fields && t.missing.fields == u.missing.fields && t.conflict.fields == u.conflict.fields && t.gold == u.gold
  }

  lemma {:induction false} FilterKeepsQuestions(p: Scored -> bool, a: seq<Scored>, b: seq<Scored>)
    requires SameQuestions(a, b)
    requires forall x, y :: SameQuestion(x, y) ==> p(x) == p(y)
    ensures SameQuestions(Filter(p, a), Filter(p, b))
  {
    if a != [] {
      assert SameQuestion(a[0], b[0]);
      FilterKeepsQuestions(p, a[1..], b[1..]);
    }
  }

  lemma {:induction false} SameAnchorCount(a: seq<Scored>, b: seq<Scored>)
    requires SameQuestions(a, b)
    ensures |AllAnchors(a)| == |AllAnchors(b)|
  {
    var of := (s: Scored) => if s.anchors.Some? then s.anchors.value else [];
    FlatLength(Mapped(of, a), Mapped(of, b));
  }

  lemma {:induction false} FlatLength<A>(a: seq<seq<A>>, b: seq<seq<A>>)
    requires |a| == |b| && forall k :: 0 <= k < |a| ==> |a[k]| == |b[k]|
    ensures |Flat(a)| == |Flat(b)|
  {
    if a != [] {
      FlatLength(a[1..], b[1..]);
    }
  }

  lemma TotalsKeepDenominators(a: seq<Scored>, b: seq<Scored>)
    requires SameQuestions(a, b)
    ensures SameDenominators(TotalsOf(a), TotalsOf(b))
  {
    FilterKeepsQuestions((s: Scored) => s.status == Missing, a, b);
    FilterKeepsQuestions((s: Scored) => s.status == Conflict, a, b);
    SameAnchorCount(a, b);
  }

  /** Two scorings of the same questions have the same denominators, for the answers and for the context. */
  lemma SummaryKeepsDenominators(a: seq<Scored>, b: seq<Scored>)
    requires SameQuestions(a, b)
    ensures SameDenominators(Summarize(a).answer, Summarize(b).answer)
    ensures SameDenominators(Summarize(a).context, Summarize(b).context)
  {
    FilterKeepsQuestions((s: Scored) => s.role != Context, a, b);
    FilterKeepsQuestions((s: Scored) => s.role == Context, a, b);
    TotalsKeepDenominators(Filter((s: Scored) => s.role != Context, a), Filter((s: Scored) => s.role != Context, b));
    TotalsKeepDenominators(Filter((s: Scored) => s.role == Context, a), Filter((s: Scored) => s.role == Context, b));
  }

  // ------------------------------------------------------------ conservation

  lemma {:induction false} Disjoint<A>(p: A -> bool, q: A -> bool, s: seq<A>)
    requires forall k :: 0 <= k < |s| ==> !(p(s[k]) && q(s[k]))
    ensures |Filter(p, s)| + |Filter(q, s)| <= |s|
    ensures (forall k :: 0 <= k < |s| ==> p(s[k]) || q(s[k])) ==> |Filter(p, s)| + |Filter(q, s)| == |s|
  {
    if s != [] {
      assert !(p(s[0]) && q(s[0]));
      Disjoint(p, q, s[1..]);
    }
  }

  lemma {:induction false} AnchorsSplit(p: Scored -> bool, q: Scored -> bool, s: seq<Scored>)
    requires forall x :: p(x) <==> !q(x)
    ensures |AllAnchors(Filter(p, s))| + |AllAnchors(Filter(q, s))| == |AllAnchors(s)|
  {
    if s != [] {
      AnchorsSplit(p, q, s[1..]);
      AnchorsOfMore(s[0], s[1..]);
      AnchorsOfMore(s[0], Filter(p, s[1..]));
      AnchorsOfMore(s[0], Filter(q, s[1..]));
      assert s == [s[0]] + s[1..];
      var (mine, other) := if p(s[0]) then (p, q) else (q, p);
      assert Filter(mine, s) == [s[0]] + Filter(mine, s[1..]);
      assert Filter(other, s) == Filter(other, s[1..]);
    }
  }

  lemma AnchorsOfMore(x: Scored, s: seq<Scored>)
    ensures |AllAnchors([x] + s)| == (if x.anchors.Some? then |x.anchors.value| else 0) + |AllAnchors(s)|
  {
    var of := (s: Scored) => if s.anchors.Some? then s.anchors.value else [];
    assert ([x] + s)[1..] == s;
    assert Mapped(of, [x] + s)[1..] == Mapped(of, s);
  }

  /** No field and no anchor is lost between the two totals, and none is counted in both. */
  lemma CountsAddUp(scored: seq<Scored>)
    ensures Summarize(scored).answer.fields + Summarize(scored).context.fields == |scored|
    ensures Summarize(scored).answer.gold + Summarize(scored).context.gold == |AllAnchors(scored)|
  {
    var p, q := (s: Scored) => s.role != Context, (s: Scored) => s.role == Context;
    Disjoint(p, q, scored);
    AnchorsSplit(p, q, scored);
  }

  /** No count passes what it is a count of. */
  lemma TotalsBounded(scored: seq<Scored>)
    ensures TotalsOf(scored).correct + TotalsOf(scored).review <= TotalsOf(scored).fields
    ensures TotalsOf(scored).missing.fields + TotalsOf(scored).conflict.fields <= TotalsOf(scored).fields
    ensures TotalsOf(scored).covered + TotalsOf(scored).unlocated <= TotalsOf(scored).gold
  {
    Disjoint((s: Scored) => s.verdict == "correct", (s: Scored) => s.verdict == "review", scored);
    Disjoint((s: Scored) => s.status == Missing, (s: Scored) => s.status == Conflict, scored);
    Disjoint((c: Cover) => c.how.Some?, (c: Cover) => c.how.None? && c.unlocated, AllAnchors(scored));
  }
}
