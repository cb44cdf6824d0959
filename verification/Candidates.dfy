/**
  `packages/documents-accept/src/score.ts`: how the candidates of a conflict
  are grouped by their normalized form and compared.
  `Norms` are the normalizations of the original, about which nothing is assumed.
*/
module Candidates {
  datatype Said = Said(value: string, normalized: string)

  datatype Norms = Norms(l2: string -> string, trim: string -> string)

  predicate StandsAt(x: string, y: string, i: nat) { i + |y| <= |x| && x[i..i + |y|] == y }

  predicate Includes(x: string, y: string) { exists i: nat :: i <= |x| && StandsAt(x, y, i) }

  /** One of the two holds the other; an empty one holds nothing. */
  predicate Overlaps(n: Norms, a: string, b: string) {
    var (x, y) := (n.l2(a), n.l2(b));
    x != "" && y != "" && (Includes(x, y) || Includes(y, x))
  }

  /** Said of texts put together: the one is the other with something before and after it. */
  lemma OverlapsMeans(n: Norms, a: string, b: string)
    ensures var (x, y) := (n.l2(a), n.l2(b));
      Overlaps(n, a, b) <==> x != "" && y != "" && ((exists p, q :: x == p + y + q) || (exists p, q :: y == p + x + q))
    ensures Overlaps(n, a, b) <==> Overlaps(n, b, a)
    ensures Overlaps(n, a, a) <==> n.l2(a) != ""
  {
    IncludesMeans(n.l2(a), n.l2(b));
    IncludesMeans(n.l2(b), n.l2(a));
    if n.l2(a) != "" { assert StandsAt(n.l2(a), n.l2(a), 0); }
  }

  lemma IncludesMeans(x: string, y: string)
    ensures Includes(x, y) <==> exists p, q :: x == p + y + q
  {
    if Includes(x, y) {
      var i: nat :| i <= |x| && StandsAt(x, y, i);
      assert x == x[..i] + y + x[i + |y|..];
    }
    if p, q :| x == p + y + q { assert StandsAt(x, y, |p|); }
  }

  function FormOf(n: Norms, c: Said): string { n.trim(c.normalized) }

  /** The candidates of one form, in their order. */
  function OfForm(n: Norms, said: seq<Said>, form: string): seq<Said> {
    if said == [] then []
    else (if FormOf(n, said[0]) == form then [said[0]] else []) + OfForm(n, said[1..], form)
  }

  lemma {:induction false} OfFormAppend(n: Norms, said: seq<Said>, c: Said, form: string)
    ensures OfForm(n, said + [c], form) == OfForm(n, said, form) + (if FormOf(n, c) == form then [c] else [])
    decreases |said|
  {
    if said == [] {
      assert said + [c] == [c] && [c][1..] == [];
    } else {
      assert (said + [c])[1..] == said[1..] + [c] && (said + [c])[0] == said[0];
      OfFormAppend(n, said[1..], c, form);
    }
  }

  lemma {:induction false} OfFormHas(n: Norms, said: seq<Said>, form: string)
    ensures forall c :: c in OfForm(n, said, form) <==> c in said && FormOf(n, c) == form
    decreases |said|
  {
    if said != [] {
      OfFormHas(n, said[1..], form);
      assert said == [said[0]] + said[1..];
    }
  }

  /** The groups of candidates: each form that occurs, with its candidates. */
  ghost predicate Grouped(n: Norms, said: seq<Said>, groups: map<string, seq<Said>>) {
    forall form :: (form in groups <==> HasForm(n, said, form)) && (form in groups ==> groups[form] == OfForm(n, said, form))
  }

  lemma GroupedMore(n: Norms, said: seq<Said>, groups: map<string, seq<Said>>, c: Said)
    requires Grouped(n, said, groups)
    ensures var form := FormOf(n, c);
      Grouped(n, said + [c], groups[form := (if form in groups then groups[form] else []) + [c]])
  {
    hide OfForm, HasForm, FormOf;
    var form := FormOf(n, c);
    var more := groups[form := (if form in groups then groups[form] else []) + [c]];
    forall f ensures (f in more <==> HasForm(n, said + [c], f)) && (f in more ==> more[f] == OfForm(n, said + [c], f)) {
      OfFormAppend(n, said, c, f);
      OneMoreForm(n, said, c, f);
      NoForm(n, said, f);
    }
  }

  /** `groups`, filled one candidate at a time. */
  method Groups(n: Norms, said: seq<Said>) returns (groups: map<string, seq<Said>>)
    ensures Grouped(n, said, groups)
  {
    groups := map[];
    for i := 0 to |said|
      invariant Grouped(n, said[..i], groups)
    {
      hide Grouped;
      var form := FormOf(n, said[i]);
      GroupedMore(n, said[..i], groups, said[i]);
      assert said[..i + 1] == said[..i] + [said[i]];
      groups := groups[form := (if form in groups then groups[form] else []) + [said[i]]];
    }
    assert said[..|said|] == said;
  }

  lemma NoForm(n: Norms, said: seq<Said>, form: string)
    ensures !HasForm(n, said, form) ==> OfForm(n, said, form) == []
  {
    OfFormHas(n, said, form);
    if OfForm(n, said, form) != [] {
      var c := OfForm(n, said, form)[0];
      assert c in OfForm(n, said, form);
    }
  }

  lemma OneMoreForm(n: Norms, said: seq<Said>, c: Said, f: string)
    ensures HasForm(n, said + [c], f) <==> HasForm(n, said, f) || FormOf(n, c) == f
  {
    if HasForm(n, said, f) {
      var d :| d in said && FormOf(n, d) == f;
      assert d in said + [c];
    }
    assert c in said + [c];
  }

  ghost predicate HasForm(n: Norms, said: seq<Said>, form: string) {
    exists c :: c in said && FormOf(n, c) == form
  }

  /** A candidate of the one side of this form overlaps one of the other. */
  ghost predicate Matched(n: Norms, gold: seq<Said>, result: seq<Said>, form: string) {
    exists g, r :: g in gold && FormOf(n, g) == form && r in result && FormOf(n, r) == form && Overlaps(n, g.value, r.value)
  }

  datatype Note = Incomplete | NormalizedOnly | Extra

  /** Whether some pair of the two lists overlaps. */
  method SomeOverlap(n: Norms, golds: seq<Said>, ours: seq<Said>) returns (r: bool)
    ensures r <==> exists g, o :: g in golds && o in ours && Overlaps(n, g.value, o.value)
  {
    for i := 0 to |golds|
      invariant forall g, o :: g in golds[..i] && o in ours ==> !Overlaps(n, g.value, o.value)
    {
      for j := 0 to |ours|
        invariant forall o :: o in ours[..j] ==> !Overlaps(n, golds[i].value, o.value)
      {
        if Overlaps(n, golds[i].value, ours[j].value) { return true; }
      }
    }
    return false;
  }

  function Notes(incomplete: bool, nameOnly: bool, extra: bool): seq<Note> {
    (if incomplete then [Incomplete] else []) + (if nameOnly then [NormalizedOnly] else []) + (if extra then [Extra] else [])
  }

  ghost predicate MissesOne(n: Norms, wanted: seq<Said>, got: seq<Said>) {
    exists form :: HasForm(n, wanted, form) && !HasForm(n, got, form)
  }

  ghost predicate SharesInNameOnly(n: Norms, gold: seq<Said>, result: seq<Said>) {
    exists form :: HasForm(n, gold, form) && HasForm(n, result, form) && !Matched(n, gold, result, form)
  }

  /** `compareCandidates`: what keeps the two sides from matching. */
  method CompareCandidates(n: Norms, gold: seq<Said>, result: seq<Said>) returns (notes: seq<Note>)
    ensures notes == Notes(MissesOne(n, gold, result), SharesInNameOnly(n, gold, result), MissesOne(n, result, gold))
    ensures Incomplete in notes <==> exists form :: HasForm(n, gold, form) && !HasForm(n, result, form)
    ensures NormalizedOnly in notes <==> exists form :: HasForm(n, gold, form) && HasForm(n, result, form) && !Matched(n, gold, result, form)
    ensures Extra in notes <==> exists form :: HasForm(n, result, form) && !HasForm(n, gold, form)
  {
    NotesName(n, gold, result);
    hide *;
    var wanted := Groups(n, gold);
    var got := Groups(n, result);
    var shared := wanted.Keys * got.Keys;
    var matched := MatchedForms(n, gold, result, wanted, got);
    NotesTell(n, gold, result, wanted, got, matched);
    notes := Pushed(wanted.Keys - got.Keys != {}, |shared| > |matched|, got.Keys - wanted.Keys != {});
  }

  method Pushed(incomplete: bool, nameOnly: bool, extra: bool) returns (notes: seq<Note>)
    ensures notes == Notes(incomplete, nameOnly, extra)
  {
    notes := [];
    if incomplete { notes := notes + [Incomplete]; }
    if nameOnly { notes := notes + [NormalizedOnly]; }
    if extra { notes := notes + [Extra]; }
  }

  lemma NotesName(n: Norms, gold: seq<Said>, result: seq<Said>)
    ensures var notes := Notes(MissesOne(n, gold, result), SharesInNameOnly(n, gold, result), MissesOne(n, result, gold));
      && (Incomplete in notes <==> exists form :: HasForm(n, gold, form) && !HasForm(n, result, form))
      && (NormalizedOnly in notes <==> exists form :: HasForm(n, gold, form) && HasForm(n, result, form) && !Matched(n, gold, result, form))
      && (Extra in notes <==> exists form :: HasForm(n, result, form) && !HasForm(n, gold, form))
  {
    hide HasForm, Matched;
  }

  /** What the three counts say. */
  lemma NotesTell(n: Norms, gold: seq<Said>, result: seq<Said>, wanted: map<string, seq<Said>>, got: map<string, seq<Said>>, matched: set<string>)
    requires Grouped(n, gold, wanted) && Grouped(n, result, got) && matched <= wanted.Keys * got.Keys
    requires forall form :: form in wanted && form in got ==> (form in matched <==> Matched(n, gold, result, form))
    ensures wanted.Keys - got.Keys != {} <==> MissesOne(n, gold, result)
    ensures got.Keys - wanted.Keys != {} <==> MissesOne(n, result, gold)
    ensures |wanted.Keys * got.Keys| > |matched| <==> SharesInNameOnly(n, gold, result)
  {
    hide HasForm, Matched, OfForm;
    KeysTell(n, gold, result, wanted, got);
    KeysTell(n, result, gold, got, wanted);
    SizeTells(matched, wanted.Keys * got.Keys);
  }

  lemma KeysTell(n: Norms, a: seq<Said>, b: seq<Said>, byA: map<string, seq<Said>>, byB: map<string, seq<Said>>)
    requires Grouped(n, a, byA) && Grouped(n, b, byB)
    ensures byA.Keys - byB.Keys != {} <==> MissesOne(n, a, b)
  {
    hide HasForm, OfForm;
    if MissesOne(n, a, b) {
      var form :| HasForm(n, a, form) && !HasForm(n, b, form);
      assert form in byA.Keys - byB.Keys;
    }
    if byA.Keys - byB.Keys != {} {
      var form :| form in byA.Keys - byB.Keys;
      assert HasForm(n, a, form) && !HasForm(n, b, form);
    }
  }

  /** A part is smaller exactly if it lacks something. */
  lemma SizeTells<T>(a: set<T>, b: set<T>)
    requires a <= b
    ensures |b| > |a| <==> exists x :: x in b && x !in a
  {
    assert b == a + (b - a);
    if b - a != {} {
      var x :| x in b - a;
    }
  }

  /** `matchedGroups`, as the set of the forms that match: never more than are shared. */
  method MatchedForms(n: Norms, gold: seq<Said>, result: seq<Said>, wanted: map<string, seq<Said>>, got: map<string, seq<Said>>) returns (matched: set<string>)
    requires Grouped(n, gold, wanted) && Grouped(n, result, got)
    ensures matched <= wanted.Keys * got.Keys
    ensures forall form :: form in wanted && form in got ==> (form in matched <==> Matched(n, gold, result, form))
  {
    hide HasForm, Matched, OfForm;
    matched := {};
    var left := wanted.Keys;
    while left != {}
      invariant left <= wanted.Keys
      invariant forall form :: form in matched ==> form in wanted && form in got && form !in left
      invariant forall form :: form in wanted && form in got && form !in left ==> (form in matched <==> Matched(n, gold, result, form))
      decreases |left|
    {
      var form :| form in left;
      left := left - {form};
      var ours := if form in got then got[form] else [];
      var overlap := SomeOverlap(n, wanted[form], ours);
      MatchedMeans(n, gold, result, form);
      assert form !in got ==> !overlap;
      if overlap { matched := matched + {form}; }
    }
  }

  lemma MatchedMeans(n: Norms, gold: seq<Said>, result: seq<Said>, form: string)
    ensures Matched(n, gold, result, form) <==>
      exists g, o :: g in OfForm(n, gold, form) && o in OfForm(n, result, form) && Overlaps(n, g.value, o.value)
  {
    OfFormHas(n, gold, form);
    OfFormHas(n, result, form);
    hide OfForm, Overlaps;
  }

  /** The candidates match: both sides have the same forms, and each has an overlapping pair. */
  ghost predicate Agree(n: Norms, gold: seq<Said>, result: seq<Said>) {
    && (forall form :: HasForm(n, gold, form) <==> HasForm(n, result, form))
    && (forall form :: HasForm(n, gold, form) ==> Matched(n, gold, result, form))
  }

  /** Nothing keeps them apart exactly if they agree. */
  lemma NothingNoted(n: Norms, gold: seq<Said>, result: seq<Said>)
    ensures Agree(n, gold, result) <==> !MissesOne(n, gold, result) && !SharesInNameOnly(n, gold, result) && !MissesOne(n, result, gold)
  {
    hide HasForm, Matched;
  }

  /** The order of the candidates on either side changes none of it. */
  lemma OrderIsNothing(n: Norms, gold: seq<Said>, gold': seq<Said>, result: seq<Said>, result': seq<Said>, form: string)
    requires multiset(gold) == multiset(gold') && multiset(result) == multiset(result')
    ensures HasForm(n, gold, form) <==> HasForm(n, gold', form)
    ensures HasForm(n, result, form) <==> HasForm(n, result', form)
    ensures Matched(n, gold, result, form) <==> Matched(n, gold', result', form)
  {
    assert forall c :: c in gold <==> c in multiset(gold);
    assert forall c :: c in gold' <==> c in multiset(gold');
    assert forall c :: c in result <==> c in multiset(result);
    assert forall c :: c in result' <==> c in multiset(result');
  }

  /** `compareCandidates`, with what an empty result means, and for the same candidates in another order. */
  method CompareTwice(n: Norms, gold: seq<Said>, gold': seq<Said>, result: seq<Said>, result': seq<Said>) returns (notes: seq<Note>, notes': seq<Note>)
    requires multiset(gold) == multiset(gold') && multiset(result) == multiset(result')
    ensures notes == notes' && (notes == [] <==> Agree(n, gold, result))
  {
    hide HasForm, Matched, Agree;
    notes := CompareCandidates(n, gold, result);
    notes' := CompareCandidates(n, gold', result');
    NothingNoted(n, gold, result);
    forall form
      ensures HasForm(n, gold, form) <==> HasForm(n, gold', form)
      ensures HasForm(n, result, form) <==> HasForm(n, result', form)
      ensures Matched(n, gold, result, form) <==> Matched(n, gold', result', form)
    {
      OrderIsNothing(n, gold, gold', result, result', form);
    }
  }
}
