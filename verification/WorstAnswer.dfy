/**
  `scoreSample` of `packages/documents-accept/src/run.ts`: a key answered more
  than once is scored by its worst answer, and its anchors by the answer that
  covers the smallest share of them, whatever order the answers came in.
*/
module WorstAnswer {
  import opened Prelude

  datatype Verdict = Correct | Review | Mismatch | Missed | Fabricated | ChoseOne | FalseConflict | Unanswered

  /** How bad a verdict is. */
  function Rank(v: Verdict): nat {
    match v
    case Correct => 0
    case Review => 1
    case _ => 2
  }

  /** How many of the gold anchors are covered. */
  datatype Raw = Cover(covered: nat, gold: nat)
  type Share = s: Raw | s.covered <= s.gold witness Cover(0, 0)

  /** One answer as it was scored, with its anchors if it has any to score. */
  datatype Scored = Scored(verdict: Verdict, anchors: Option<Share>)

  /** `fewer`: a smaller share covered, compared without dividing; of equal shares, more gold anchors. */
  predicate Fewer(a: Share, b: Share) {
    var x, y := a.covered * b.gold, b.covered * a.gold;
    x < y || (x == y && a.gold > b.gold)
  }

  /** The part of its gold anchors that a share covers. */
  function Part(s: Share): real
    requires s.gold > 0
  {
    s.covered as real / s.gold as real
  }

  /** Comparing without dividing is comparing the parts covered, and of equal ones the golds. */
  lemma FewerMeans(a: Share, b: Share)
    requires a.gold > 0 && b.gold > 0
    ensures Fewer(a, b) <==> Part(a) < Part(b) || (Part(a) == Part(b) && a.gold > b.gold)
  {
    var p, q, m, n := a.covered as real, b.covered as real, a.gold as real, b.gold as real;
    PartTimes(p, m, n);
    PartTimes(q, n, m);
    assert (p * n) - (q * m) == (Part(a) - Part(b)) * (m * n);
    assert m * n > 0.0;
    SignOfProduct(Part(a) - Part(b), m * n);
    assert (a.covered * b.gold) as real == p * n && (b.covered * a.gold) as real == q * m;
  }

  lemma PartTimes(p: real, m: real, n: real)
    requires m != 0.0
    ensures p * n == (p / m) * (m * n)
  {
    assert (p / m) * (m * n) == ((p / m) * m) * n;
  }

  lemma SignOfProduct(x: real, y: real)
    requires y > 0.0
    ensures (x * y < 0.0 <==> x < 0.0) && (x * y == 0.0 <==> x == 0.0)
  {
  }

  // ------------------------------------------------------- `fewer` is an order

  lemma Cancel(d: nat, p: int, q: int)
    requires d > 0 && d * p <= d * q
    ensures p <= q
  {
    assert d * p - d * q == d * (p - q);
    assert p - q > 0 ==> d * (p - q) > 0;
  }

  lemma Rearranged(a: nat, b: nat, c: nat)
    ensures a * b * c == b * (a * c) == c * (a * b)
  {
  }

  /** With nothing to cover a share is below no other, and above all that have something. */
  lemma NothingToCover(a: Share, b: Share)
    requires a.gold == 0
    ensures !Fewer(a, b) && (Fewer(b, a) <==> b.gold > 0)
  {
    assert a.covered == 0 && a.covered * b.gold == 0 && b.covered * a.gold == 0;
  }

  lemma {:induction false} FewerTransitive(a: Share, b: Share, c: Share)
    requires Fewer(a, b) && Fewer(b, c)
    ensures Fewer(a, c)
  {
    if a.gold == 0 {
      NothingToCover(a, b);
      assert false;
    } else if b.gold == 0 {
      NothingToCover(b, c);
      assert false;
    } else if c.gold == 0 {
      NothingToCover(c, a);
    } else {
      var (p, q, r) := (a.gold, b.gold, c.gold);
      // a.covered * q <= b.covered * p and b.covered * r <= c.covered * q
      assert (a.covered * q) * r <= (b.covered * p) * r by { Scaled(a.covered * q, b.covered * p, r); }
      assert (b.covered * r) * p <= (c.covered * q) * p by { Scaled(b.covered * r, c.covered * q, p); }
      Rearranged(a.covered, q, r);
      Rearranged(b.covered, p, r);
      Rearranged(b.covered, r, p);
      Rearranged(c.covered, q, p);
      assert q * (a.covered * r) <= q * (c.covered * p);
      Cancel(q, a.covered * r, c.covered * p);
      if a.covered * r == c.covered * p {
        Equal(a, b, c);
      }
    }
  }

  lemma Scaled(x: nat, y: nat, k: nat)
    requires x <= y
    ensures x * k <= y * k
    ensures x < y && k > 0 ==> x * k < y * k
  {
    assert y * k == x * k + (y - x) * k;
  }

  /** Where the outer two shares are equal so are all, and the order is that of the golds. */
  lemma Equal(a: Share, b: Share, c: Share)
    requires a.gold > 0 && b.gold > 0 && c.gold > 0 && Fewer(a, b) && Fewer(b, c)
    requires a.covered * c.gold == c.covered * a.gold
    ensures a.gold > c.gold
  {
    var (p, q, r) := (a.gold, b.gold, c.gold);
    Rearranged(a.covered, q, r);
    Rearranged(b.covered, p, r);
    Rearranged(b.covered, r, p);
    Rearranged(c.covered, q, p);
    Scaled(a.covered * q, b.covered * p, r);
    Scaled(b.covered * r, c.covered * q, p);
    assert q * (a.covered * r) == q * (c.covered * p);
  }

  /** Of two different shares one is below the other, and never both: `fewer` is a strict total order. */
  lemma FewerTotal(a: Share, b: Share)
    ensures !(Fewer(a, b) && Fewer(b, a))
    ensures a != b <==> Fewer(a, b) || Fewer(b, a)
  {
    if a.gold == b.gold && a.covered * b.gold == b.covered * a.gold && a.gold > 0 {
      Cancel(a.gold, a.covered, b.covered);
      Cancel(a.gold, b.covered, a.covered);
    }
  }

  // ----------------------------------------------------------- the reductions

  /** `r` is below or equal to every share in the list, and one of them. */
  ghost predicate Least(scored: seq<Scored>, r: Option<Share>) {
    match r
    case None => forall k :: 0 <= k < |scored| ==> scored[k].anchors.None?
    case Some(s) =>
      && (exists k :: 0 <= k < |scored| && scored[k].anchors == r)
      && (forall k :: 0 <= k < |scored| && scored[k].anchors.Some? ==> !Fewer(scored[k].anchors.value, s))
  }

  ghost predicate Worst(scored: seq<Scored>, i: nat) {
    && i < |scored|
    && (forall k :: 0 <= k < |scored| ==> Rank(scored[k].verdict) <= Rank(scored[i].verdict))
    && (forall k :: 0 <= k < i ==> Rank(scored[k].verdict) < Rank(scored[i].verdict))
  }

  /** No share of the list has a smaller part covered than `r`, and of those with the same part none has more gold;
      a share without gold is taken only where no other is there. */
  ghost predicate SmallestPart(scored: seq<Scored>, r: Option<Share>) {
    && (r.None? <==> forall k :: 0 <= k < |scored| ==> scored[k].anchors.None?)
    && (r.Some? ==> exists k :: 0 <= k < |scored| && scored[k].anchors == r)
    && forall k :: 0 <= k < |scored| && scored[k].anchors.Some? && scored[k].anchors.value.gold > 0 ==>
         r.Some? && r.value.gold > 0
         && (Part(r.value) < Part(scored[k].anchors.value) || (Part(r.value) == Part(scored[k].anchors.value) && r.value.gold >= scored[k].anchors.value.gold))
  }

  lemma LeastIsSmallest(scored: seq<Scored>, r: Option<Share>)
    requires Least(scored, r)
    ensures SmallestPart(scored, r)
  {
    forall k | 0 <= k < |scored| && scored[k].anchors.Some? && scored[k].anchors.value.gold > 0
      ensures r.Some? && r.value.gold > 0
      ensures Part(r.value) < Part(scored[k].anchors.value) || (Part(r.value) == Part(scored[k].anchors.value) && r.value.gold >= scored[k].anchors.value.gold)
    {
      var a := scored[k].anchors.value;
      if r.value.gold == 0 { NothingToCover(r.value, a); }
      FewerMeans(a, r.value);
    }
  }

  /** The first answer that is wrong; where none is, the first that is for review; and where none is, the first. */
  ghost predicate WorstFirst(scored: seq<Scored>, i: nat) {
    && i < |scored|
    && (if exists k :: 0 <= k < |scored| && Wrong(scored[k].verdict) then
          Wrong(scored[i].verdict) && forall k :: 0 <= k < i ==> !Wrong(scored[k].verdict)
        else if exists k :: 0 <= k < |scored| && scored[k].verdict == Review then
          scored[i].verdict == Review && forall k :: 0 <= k < i ==> scored[k].verdict == Correct
        else i == 0 && forall k :: 0 <= k < |scored| ==> scored[k].verdict == Correct)
  }

  /** Neither correct nor for a person to settle. */
  predicate Wrong(v: Verdict) { v != Correct && v != Review }

  lemma WorstIsFirst(scored: seq<Scored>, i: nat)
    requires Worst(scored, i)
    ensures WorstFirst(scored, i)
  {
    if i > 0 { assert Rank(scored[0].verdict) < Rank(scored[i].verdict); }
  }

  lemma LeastOfMore(scored: seq<Scored>, r: Option<Share>, x: Scored)
    requires Least(scored, r)
    ensures Least(scored + [x], if x.anchors.Some? && (r.None? || Fewer(x.anchors.value, r.value)) then x.anchors else r)
  {
    var all := scored + [x];
    assert all[|scored|] == x;
    if r.Some? {
      var k :| 0 <= k < |scored| && scored[k].anchors == r;
      assert all[k].anchors == r;
      if x.anchors.Some? {
        FewerTotal(x.anchors.value, x.anchors.value);
        if Fewer(x.anchors.value, r.value) {
          forall k | 0 <= k < |scored| && scored[k].anchors.Some? ensures !Fewer(scored[k].anchors.value, x.anchors.value) {
            if Fewer(scored[k].anchors.value, x.anchors.value) {
              FewerTransitive(scored[k].anchors.value, x.anchors.value, r.value);
            }
          }
        }
      }
    } else if x.anchors.Some? {
      FewerTotal(x.anchors.value, x.anchors.value);
    }
  }

  /** The two reductions over the answers to a key. */
  method ScoreKey(scored: seq<Scored>) returns (worst: nat, anchors: Option<Share>)
    requires scored != []
    ensures Worst(scored, worst) && Least(scored, anchors)
    ensures WorstFirst(scored, worst) && SmallestPart(scored, anchors)
  {
    worst, anchors := 0, None;
    for i := 0 to |scored|
      invariant i == 0 ==> worst == 0
      invariant i > 0 ==> Worst(scored[..i], worst)
      invariant Least(scored[..i], anchors)
    {
      var s := scored[i];
      assert scored[..i + 1] == scored[..i] + [s];
      LeastOfMore(scored[..i], anchors, s);
      if Rank(s.verdict) > Rank(scored[worst].verdict) { worst := i; }
      if s.anchors.Some? && (anchors.None? || Fewer(s.anchors.value, anchors.value)) { anchors := s.anchors; }
    }
    assert scored[..|scored|] == scored;
    WorstIsFirst(scored, worst);
    LeastIsSmallest(scored, anchors);
  }

  /** The order of the answers changes neither how bad the verdict is nor the anchors. */
  lemma OrderIsNothing(a: seq<Scored>, b: seq<Scored>, i: nat, j: nat, r: Option<Share>, s: Option<Share>)
    requires multiset(a) == multiset(b)
    requires Worst(a, i) && Worst(b, j) && Least(a, r) && Least(b, s)
    ensures Rank(a[i].verdict) == Rank(b[j].verdict) && r == s
  {
    InBoth(a, b, i);
    InBoth(b, a, j);
    if r.Some? {
      var k :| 0 <= k < |a| && a[k].anchors == r;
      InBoth(a, b, k);
    }
    if s.Some? {
      var k :| 0 <= k < |b| && b[k].anchors == s;
      InBoth(b, a, k);
    }
    if r.Some? && s.Some? { FewerTotal(r.value, s.value); }
  }

  lemma InBoth(a: seq<Scored>, b: seq<Scored>, i: nat)
    requires multiset(a) == multiset(b) && i < |a|
    ensures exists k :: 0 <= k < |b| && b[k] == a[i]
  {
    assert a[i] in multiset(b);
  }
}
