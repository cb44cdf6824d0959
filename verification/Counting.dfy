/**
  Counting by filtering lists of lists, and what it counts: the places whose
  element passes the test.
*/
module Counting {
  import opened Summary

  /** The places of a list of lists whose element passes. */
  ghost function Places<A>(p: A -> bool, lists: seq<seq<A>>): set<(nat, nat)> {
    set i: nat, j: nat | i < |lists| && j < |lists[i]| && p(lists[i][j]) :: (i, j)
  }

  predicate Before(x: (nat, nat), y: (nat, nat)) { x.0 < y.0 || (x.0 == y.0 && x.1 < y.1) }

  ghost predicate InOrder(at: seq<(nat, nat)>) { forall k, l :: 0 <= k < l < |at| ==> Before(at[k], at[l]) }

  /** `at` lists the places that pass, in order, and `found` is what stands there. */
  ghost predicate StandsAt<A>(p: A -> bool, lists: seq<seq<A>>, at: seq<(nat, nat)>, found: seq<A>) {
    && |at| == |found| && InOrder(at)
    && (forall k :: 0 <= k < |at| ==> at[k].0 < |lists| && at[k].1 < |lists[at[k].0]| && p(found[k]) && lists[at[k].0][at[k].1] == found[k])
    && (forall i: nat, j: nat :: i < |lists| && j < |lists[i]| && p(lists[i][j]) ==> (i, j) in at)
  }

  lemma Associate<A>(a: seq<A>, b: seq<A>, c: seq<A>)
    ensures a + (b + c) == (a + b) + c
  {
  }

  lemma {:induction false} FilterConcat<A>(p: A -> bool, a: seq<A>, b: seq<A>)
    ensures Filter(p, a + b) == Filter(p, a) + Filter(p, b)
    decreases |a|
  {
    if a == [] {
      assert a + b == b;
    } else {
      FilterConcat(p, a[1..], b);
      assert (a + b)[1..] == a[1..] + b && (a + b)[0] == a[0];
      Associate(if p(a[0]) then [a[0]] else [], Filter(p, a[1..]), Filter(p, b));
    }
  }

  lemma {:induction false} FlatConcat<A>(a: seq<seq<A>>, b: seq<seq<A>>)
    ensures Flat(a + b) == Flat(a) + Flat(b)
    decreases |a|
  {
    if a == [] {
      assert a + b == b;
    } else {
      FlatConcat(a[1..], b);
      assert (a + b)[1..] == a[1..] + b;
    }
  }

  lemma FlatOne<A>(l: seq<A>)
    ensures Flat([l]) == l
  {
    assert [l][1..] == [];
  }

  lemma {:induction false} FilterTwice<A>(p: A -> bool, q: A -> bool, both: A -> bool, s: seq<A>)
    requires forall x :: both(x) <==> p(x) && q(x)
    ensures Filter(q, Filter(p, s)) == Filter(both, s)
    decreases |s|
  {
    if s != [] {
      FilterTwice(p, q, both, s[1..]);
      FilterConcat(q, if p(s[0]) then [s[0]] else [], Filter(p, s[1..]));
    }
  }

  /** `more` lists the places of one row that pass, in order, and `found` is what stands there. */
  ghost predicate RowStandsAt<A>(p: A -> bool, row: seq<A>, i: nat, more: seq<(nat, nat)>, found: seq<A>) {
    && |more| == |found| && InOrder(more)
    && (forall k :: 0 <= k < |more| ==> InRow(p, row, i, more[k]) && row[more[k].1] == found[k])
    && (forall j: nat :: j < |row| && p(row[j]) ==> (i, j) in more)
  }

  predicate InRow<A>(p: A -> bool, row: seq<A>, i: nat, x: (nat, nat)) { x.0 == i && x.1 < |row| && p(row[x.1]) }

  lemma FilterOne<A>(p: A -> bool, x: A)
    ensures Filter(p, [x]) == if p(x) then [x] else []
  {
    assert [x][1..] == [];
  }

  lemma {:induction false} RowFinds<A>(p: A -> bool, row: seq<A>, i: nat) returns (more: seq<(nat, nat)>)
    ensures RowStandsAt(p, row, i, more, Filter(p, row))
    decreases |row|
  {
    more := [];
    if row != [] {
      var n := |row| - 1;
      more := RowFinds(p, row[..n], i);
      assert row == row[..n] + [row[n]];
      FilterConcat(p, row[..n], [row[n]]);
      FilterOne(p, row[n]);
      RowMore(p, row, i, more, Filter(p, row[..n]));
      if p(row[n]) { more := more + [(i, n)]; } else { assert Filter(p, row[..n]) + [] == Filter(p, row[..n]); }
    }
  }

  lemma RowMore<A>(p: A -> bool, row: seq<A>, i: nat, more: seq<(nat, nat)>, found: seq<A>)
    requires row != [] && RowStandsAt(p, row[..|row| - 1], i, more, found)
    ensures p(row[|row| - 1]) ==> RowStandsAt(p, row, i, more + [(i, |row| - 1)], found + [row[|row| - 1]])
    ensures !p(row[|row| - 1]) ==> RowStandsAt(p, row, i, more, found)
  {
    var n := |row| - 1;
    var init := row[..n];
    forall k | 0 <= k < |more| ensures InRow(p, row, i, more[k]) && row[more[k].1] == found[k] && more[k].1 < n {
      assert InRow(p, init, i, more[k]);
    }
    forall j: nat | j < n && p(row[j]) ensures (i, j) in more {
      assert init[j] == row[j];
    }
    if p(row[n]) {
      var all := more + [(i, n)];
      assert all[|more|] == (i, n);
      assert forall k :: 0 <= k < |more| ==> all[k] == more[k];
    }
  }

  /** Filtering the lists one after the other finds the places that pass, in order. */
  lemma {:induction false} FilterFinds<A>(p: A -> bool, lists: seq<seq<A>>) returns (at: seq<(nat, nat)>)
    ensures StandsAt(p, lists, at, Filter(p, Flat(lists)))
    decreases |lists|
  {
    at := [];
    if lists != [] {
      var init, last := lists[..|lists| - 1], lists[|lists| - 1];
      var before := FilterFinds(p, init);
      var more := RowFinds(p, last, |lists| - 1);
      assert lists == init + [last];
      FlatConcat(init, [last]);
      FlatOne(last);
      FilterConcat(p, Flat(init), last);
      at := before + more;
      OrderedOn(before, more, |lists| - 1);
      ManyAndOne(p, lists, before, more, Filter(p, Flat(init)), Filter(p, last));
    }
  }

  lemma OrderedOn(before: seq<(nat, nat)>, more: seq<(nat, nat)>, n: nat)
    requires InOrder(before) && InOrder(more)
    requires (forall k :: 0 <= k < |before| ==> before[k].0 < n) && forall k :: 0 <= k < |more| ==> more[k].0 == n
    ensures InOrder(before + more)
  {
  }

  lemma ManyAndOne<A>(p: A -> bool, lists: seq<seq<A>>, before: seq<(nat, nat)>, more: seq<(nat, nat)>, found: seq<A>, here: seq<A>)
    requires lists != [] && InOrder(before + more)
    requires StandsAt(p, lists[..|lists| - 1], before, found)
    requires RowStandsAt(p, lists[|lists| - 1], |lists| - 1, more, here)
    ensures StandsAt(p, lists, before + more, found + here)
  {
    hide InOrder;
    var n, at, all := |lists| - 1, before + more, found + here;
    var init := lists[..n];
    forall k | 0 <= k < |at|
      ensures at[k].0 < |lists| && at[k].1 < |lists[at[k].0]| && p(all[k]) && lists[at[k].0][at[k].1] == all[k]
    {
      if k < |before| {
        assert at[k] == before[k] && all[k] == found[k] && init[at[k].0] == lists[at[k].0];
      } else {
        assert at[k] == more[k - |before|] && all[k] == here[k - |found|] && InRow(p, lists[n], n, more[k - |before|]);
      }
    }
    forall i: nat, j: nat | i < |lists| && j < |lists[i]| && p(lists[i][j]) ensures (i, j) in at {
      if i < n {
        assert init[i] == lists[i] && (i, j) in before;
      } else {
        assert (n, j) in more;
      }
    }
  }

  lemma {:induction false} InOrderCount(at: seq<(nat, nat)>)
    requires InOrder(at)
    ensures |(set k | 0 <= k < |at| :: at[k])| == |at|
    decreases |at|
  {
    if at != [] {
      var init, last := at[..|at| - 1], at[|at| - 1];
      InOrderCount(init);
      var all, fewer := set k | 0 <= k < |at| :: at[k], set k | 0 <= k < |init| :: init[k];
      assert all == fewer + {last} by {
        forall k | 0 <= k < |at| ensures at[k] in fewer + {last} {
          if k < |init| { assert init[k] == at[k]; }
        }
        forall x | x in fewer ensures x in all {
          var k :| 0 <= k < |init| && init[k] == x;
          assert at[k] == x;
        }
      }
      forall x | x in fewer ensures x != last {
        var k :| 0 <= k < |init| && init[k] == x;
        assert Before(at[k], at[|at| - 1]);
      }
    }
  }

  /** What filtering counts is the places that pass. */
  lemma FilterCounts<A>(p: A -> bool, lists: seq<seq<A>>)
    ensures |Filter(p, Flat(lists))| == |Places(p, lists)|
  {
    var at := FilterFinds(p, lists);
    InOrderCount(at);
    assert Places(p, lists) == set k | 0 <= k < |at| :: at[k] by {
      forall k | 0 <= k < |at| ensures at[k] in Places(p, lists) {
        var (i, j) := at[k];
        assert lists[i][j] == Filter(p, Flat(lists))[k];
      }
    }
  }

  // ------------------------------------------------- lists of lists of lists

  /** The places two levels down, below the elements of a list of lists. */
  ghost function Deep<A, B>(of: A -> seq<B>, p: B -> bool, lists: seq<seq<A>>): set<(nat, nat, nat)> {
    set i: nat, j: nat, k: nat | i < |lists| && j < |lists[i]| && k < |of(lists[i][j])| && p(of(lists[i][j])[k]) :: (i, j, k)
  }

  lemma {:induction false} WithFirst(i: nat, s: set<(nat, nat)>)
    ensures |(set x | x in s :: (i, x.0, x.1))| == |s|
    decreases |s|
  {
    if s != {} {
      var x :| x in s;
      WithFirst(i, s - {x});
      assert (set y | y in s :: (i, y.0, y.1)) == (set y | y in s - {x} :: (i, y.0, y.1)) + {(i, x.0, x.1)};
      assert (i, x.0, x.1) !in set y | y in s - {x} :: (i, y.0, y.1);
    }
  }

  lemma MappedConcat<A, B>(f: A -> B, a: seq<A>, b: seq<A>)
    ensures Mapped(f, a + b) == Mapped(f, a) + Mapped(f, b)
  {
  }

  lemma {:induction false} FilterCountsDeep<A, B>(of: A -> seq<B>, p: B -> bool, lists: seq<seq<A>>)
    ensures |Filter(p, Flat(Mapped(of, Flat(lists))))| == |Deep(of, p, lists)|
    decreases |lists|
  {
    if lists == [] {
      assert Deep(of, p, lists) == {};
    } else {
      var n := |lists| - 1;
      var init, last := lists[..n], lists[n];
      FilterCountsDeep(of, p, init);
      assert lists == init + [last];
      FlatConcat(init, [last]);
      FlatOne(last);
      MappedConcat(of, Flat(init), last);
      FlatConcat(Mapped(of, Flat(init)), Mapped(of, last));
      FilterConcat(p, Flat(Mapped(of, Flat(init))), Flat(Mapped(of, last)));
      FilterCounts(p, Mapped(of, last));
      var here := set x | x in Places(p, Mapped(of, last)) :: (n, x.0, x.1);
      WithFirst(n, Places(p, Mapped(of, last)));
      DeepMore(of, p, lists, here);
    }
  }

  lemma DeepMore<A, B>(of: A -> seq<B>, p: B -> bool, lists: seq<seq<A>>, here: set<(nat, nat, nat)>)
    requires lists != [] && here == set x | x in Places(p, Mapped(of, lists[|lists| - 1])) :: (|lists| - 1, x.0, x.1)
    ensures |Deep(of, p, lists)| == |Deep(of, p, lists[..|lists| - 1])| + |here|
  {
    var n := |lists| - 1;
    var init, last := lists[..n], lists[n];
    assert Deep(of, p, lists) == Deep(of, p, init) + here by {
      forall x | x in Deep(of, p, lists) ensures x in Deep(of, p, init) + here {
        var (i, j, k) := x;
        if i < n { assert init[i] == lists[i]; } else {
          assert Mapped(of, last)[j] == of(last[j]);
          assert (j, k) in Places(p, Mapped(of, last));
        }
      }
      forall x | x in Deep(of, p, init) ensures x in Deep(of, p, lists) {
        var (i, j, k) := x;
        assert init[i] == lists[i];
      }
      forall x | x in here ensures x in Deep(of, p, lists) {
        var y :| y in Places(p, Mapped(of, last)) && x == (n, y.0, y.1);
        assert Mapped(of, last)[y.0] == of(last[y.0]);
      }
    }
  }
}
