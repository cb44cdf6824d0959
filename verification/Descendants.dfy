/**
  `descendants` of `docs/agent/mutate.py`: the processes below a root in one
  snapshot of the process table. The search ends exactly where the root is not
  an ancestor of itself, and then finds every descendant once.
*/
module Descendants {
  import opened Prelude

  /** A line of the snapshot: a process and its parent. */
  datatype Row = Row(pid: int, ppid: int)

  /** A process has one line. */
  ghost predicate Snapshot(rows: seq<Row>) {
    forall i, j :: 0 <= i < j < |rows| ==> rows[i].pid != rows[j].pid
  }

  function Parent(rows: seq<Row>, x: int): Option<int> {
    if rows == [] then None
    else var last := rows[|rows| - 1];
         if last.pid == x then Some(last.ppid) else Parent(rows[..|rows| - 1], x)
  }

  /** The `d`-th ancestor, the process itself being the 0-th. */
  function Up(rows: seq<Row>, x: int, d: nat): Option<int>
    decreases d
  {
    if d == 0 then Some(x)
    else match Up(rows, x, d - 1) case None => None case Some(y) => Parent(rows, y)
  }

  ghost predicate Below(rows: seq<Row>, x: int, root: int) {
    exists d: nat :: d > 0 && Up(rows, x, d) == Some(root)
  }

  // ------------------------------------------------------------- the children

  /** The children of a process in the order of their lines. */
  function KidsOf(rows: seq<Row>, p: int): seq<int> {
    if rows == [] then []
    else var last := rows[|rows| - 1];
         KidsOf(rows[..|rows| - 1], p) + if last.ppid == p then [last.pid] else []
  }

  ghost predicate Distinct(s: seq<int>) {
    forall i, j :: 0 <= i < j < |s| ==> s[i] != s[j]
  }

  lemma {:induction false} PidsAre(rows: seq<Row>, x: int)
    ensures Parent(rows, x).Some? <==> exists i :: 0 <= i < |rows| && rows[i].pid == x
  {
    if rows != [] {
      PidsAre(rows[..|rows| - 1], x);
      assert rows[|rows| - 1] in rows;
      if exists i :: 0 <= i < |rows| - 1 && rows[i].pid == x {
        var i :| 0 <= i < |rows| - 1 && rows[i].pid == x;
        assert rows[..|rows| - 1][i].pid == x;
      }
    }
  }

  /** The children of a process are those whose parent it is, each once. */
  lemma {:induction false} KidsAre(rows: seq<Row>, p: int)
    requires Snapshot(rows)
    ensures forall k :: k in KidsOf(rows, p) <==> Parent(rows, k) == Some(p)
    ensures Distinct(KidsOf(rows, p))
  {
    if rows != [] {
      var (init, last) := (rows[..|rows| - 1], rows[|rows| - 1]);
      KidsAre(init, p);
      PidsAre(init, last.pid);
    }
  }

  /** Said of the lines: the parent of a process is what its line says. */
  lemma {:induction false} ParentMeans(rows: seq<Row>, x: int, p: int)
    requires Snapshot(rows)
    ensures Parent(rows, x) == Some(p) <==> Row(x, p) in rows
  {
    if rows != [] {
      var init, last := rows[..|rows| - 1], rows[|rows| - 1];
      ParentMeans(init, x, p);
      assert rows == init + [last];
      forall i | 0 <= i < |init| ensures init[i].pid != last.pid { assert rows[i].pid != rows[|rows| - 1].pid; }
    }
  }

  /** The children stand in the order of their lines, and each line with the parent is one of them. */
  lemma {:induction false} KidsStand(rows: seq<Row>, p: int) returns (at: seq<nat>)
    ensures |at| == |KidsOf(rows, p)| && forall k, l :: 0 <= k < l < |at| ==> at[k] < at[l]
    ensures forall k :: 0 <= k < |at| ==> at[k] < |rows| && rows[at[k]] == Row(KidsOf(rows, p)[k], p)
    ensures forall i: nat :: i < |rows| && rows[i].ppid == p ==> i in at
  {
    at := [];
    if rows != [] {
      var init, last := rows[..|rows| - 1], rows[|rows| - 1];
      var before := KidsStand(init, p);
      at := before + if last.ppid == p then [|rows| - 1] else [];
      forall k | 0 <= k < |before| ensures rows[before[k]] == init[before[k]] { }
      forall i: nat | i < |rows| && rows[i].ppid == p ensures i in at {
        if i < |init| { assert init[i] == rows[i] && i in before; }
      }
    }
  }

  method Children(rows: seq<Row>) returns (kids: map<int, seq<int>>)
    ensures forall p :: (if p in kids then kids[p] else []) == KidsOf(rows, p)
  {
    kids := map[];
    for i := 0 to |rows|
      invariant forall p :: (if p in kids then kids[p] else []) == KidsOf(rows[..i], p)
    {
      var row := rows[i];
      assert rows[..i + 1][..i] == rows[..i];
      if row.ppid !in kids { kids := kids[row.ppid := []]; }
      kids := kids[row.ppid := kids[row.ppid] + [row.pid]];
    }
    assert rows[..|rows|] == rows;
  }

  // --------------------------------------------------------------- the search

  ghost predicate Reached(found: seq<int>, root: int, x: int) {
    x == root || x in found
  }

  /** What is found so far, and what of it is still to be opened, when the root is not below itself. */
  ghost predicate Searching(rows: seq<Row>, root: int, found: seq<int>, todo: seq<int>) {
    && Distinct(found) && Distinct(todo) && root !in found
    && (forall x :: x in todo ==> Reached(found, root, x))
    && (forall x :: x in found ==> Below(rows, x, root) && Parent(rows, x).Some?
                                   && Reached(found, root, Parent(rows, x).value) && Parent(rows, x).value !in todo)
    && (forall x, k :: Reached(found, root, x) && x !in todo && Parent(rows, k) == Some(x) ==> k in found)
  }

  lemma OneBelow(rows: seq<Row>, x: int, p: int, root: int)
    requires Parent(rows, x) == Some(p) && (p == root || Below(rows, p, root))
    ensures Below(rows, x, root)
  {
    if p == root {
      assert Up(rows, x, 0) == Some(x) && Up(rows, x, 1) == Some(root);
    } else {
      var d: nat :| d > 0 && Up(rows, p, d) == Some(root);
      UpFromParent(rows, x, p, d);
    }
  }

  lemma {:induction false} UpFromParent(rows: seq<Row>, x: int, p: int, d: nat)
    requires Parent(rows, x) == Some(p)
    ensures Up(rows, x, d + 1) == Up(rows, p, d)
  {
    if d > 0 {
      UpFromParent(rows, x, p, d - 1);
    } else {
      assert Up(rows, x, 0) == Some(x);
    }
  }

  /** With nothing left to open, every process below the root is found. */
  lemma {:induction false} AllFound(rows: seq<Row>, root: int, found: seq<int>, x: int, d: nat)
    requires Searching(rows, root, found, []) && d > 0 && Up(rows, x, d) == Some(root)
    ensures x in found
    decreases d
  {
    assert Parent(rows, x).Some? by {
      hide *;
      FirstStep(rows, x, d);
    }
    var p := Parent(rows, x).value;
    UpFromParent(rows, x, p, d - 1);
    if d > 1 { AllFound(rows, root, found, p, d - 1); }
  }

  lemma {:induction false} FirstStep(rows: seq<Row>, x: int, d: nat)
    requires d > 0 && Up(rows, x, d).Some?
    ensures Parent(rows, x).Some?
  {
    if d > 1 {
      FirstStep(rows, x, d - 1);
    } else {
      assert Up(rows, x, 0) == Some(x);
    }
  }

  /** Opening the last process of the list puts its children on it, all of them new. */
  lemma OpeningOne(rows: seq<Row>, root: int, found: seq<int>, todo: seq<int>)
    requires Snapshot(rows) && Searching(rows, root, found, todo) && todo != [] && !Below(rows, root, root)
    ensures var kids := KidsOf(rows, todo[|todo| - 1]);
            Searching(rows, root, found + kids, todo[..|todo| - 1] + kids)
  {
    var (rest, p) := (todo[..|todo| - 1], todo[|todo| - 1]);
    var kids := KidsOf(rows, p);
    KidsAre(rows, p);
    var (more, left) := (found + kids, rest + kids);
    forall x ensures x in todo <==> x in rest || x == p { ButLast(todo, x); }
    forall k | k in kids ensures k !in found && k !in rest && k != root && Below(rows, k, root) {
      OneBelow(rows, k, p, root);
      assert Parent(rows, k) == Some(p) && p in todo;
    }
    hide Below, Parent, KidsOf, Snapshot;
    Joined(found, kids);
    Joined(rest, kids);
    assert p !in left by { assert Distinct(todo); }
    forall x | x in more
      ensures Below(rows, x, root) && Parent(rows, x).Some? && Reached(more, root, Parent(rows, x).value) && Parent(rows, x).value !in left
    {
      var q := Parent(rows, x).value;
      assert q in kids ==> Parent(rows, q) == Some(p);
    }
    forall x, k | Reached(more, root, x) && x !in left && Parent(rows, k) == Some(x) ensures k in more {
      if x != p { assert Reached(found, root, x) && x !in todo; }
    }
  }

  lemma ButLast(s: seq<int>, x: int)
    requires s != []
    ensures x in s <==> x in s[..|s| - 1] || x == s[|s| - 1]
  {
    assert s == s[..|s| - 1] + [s[|s| - 1]];
  }

  lemma Joined(a: seq<int>, b: seq<int>)
    requires Distinct(a) && Distinct(b) && forall x :: x in b ==> x !in a
    ensures Distinct(a + b)
  {
    var s := a + b;
    forall i, j | 0 <= i < j < |s| ensures s[i] != s[j] {
      if i < |a| <= j {
        assert s[i] == a[i] && a[i] in a && s[j] == b[j - |a|] && b[j - |a|] in b;
      } else if |a| <= i {
        assert s[i] == b[i - |a|] && s[j] == b[j - |a|];
      }
    }
  }

  // ------------------------------------------------------------ where it ends

  /** A process on the way from the root round to itself is still to be opened. */
  ghost predicate Circling(rows: seq<Row>, root: int, todo: seq<int>) {
    exists x, d: nat :: x in todo && Up(rows, root, d) == Some(x)
  }

  lemma CirclingOn(rows: seq<Row>, root: int, todo: seq<int>)
    requires Snapshot(rows) && Below(rows, root, root) && Circling(rows, root, todo)
    ensures todo != [] && Circling(rows, root, todo[..|todo| - 1] + KidsOf(rows, todo[|todo| - 1]))
  {
    var x, d: nat :| x in todo && Up(rows, root, d) == Some(x);
    var (rest, p) := (todo[..|todo| - 1], todo[|todo| - 1]);
    ButLast(todo, x);
    KidsAre(rows, p);
    if x in rest {
      assert x in rest + KidsOf(rows, p);
    } else {
      var e: nat :| e > 0 && Up(rows, root, e) == Some(root);
      var c := if d > 0 then d else e;
      var k := Up(rows, root, c - 1).value;
      assert Parent(rows, k) == Some(p);
      assert k in rest + KidsOf(rows, p);
    }
  }

  /** No more are found than there are lines. */
  lemma FoundAreFew(rows: seq<Row>, root: int, found: seq<int>, todo: seq<int>)
    requires Searching(rows, root, found, todo)
    ensures |found| <= |rows|
  {
    var pids := set i | 0 <= i < |rows| :: rows[i].pid;
    forall i | 0 <= i < |found| ensures found[i] in pids {
      assert found[i] in found;
      PidsAre(rows, found[i]);
    }
    PidsBound(rows, |rows|);
    assert pids == PidSet(rows, |rows|);
    DistinctFit(found, pids);
  }

  ghost function PidSet(rows: seq<Row>, n: nat): set<int>
    requires n <= |rows|
  {
    set i | 0 <= i < n :: rows[i].pid
  }

  lemma {:induction false} PidsBound(rows: seq<Row>, n: nat)
    requires n <= |rows|
    ensures |PidSet(rows, n)| <= n
  {
    if n > 0 {
      PidsBound(rows, n - 1);
      assert PidSet(rows, n) == PidSet(rows, n - 1) + {rows[n - 1].pid};
    }
  }

  lemma {:induction false} DistinctFit(s: seq<int>, all: set<int>)
    requires Distinct(s) && forall i :: 0 <= i < |s| ==> s[i] in all
    ensures |s| <= |all|
  {
    if s != [] {
      forall i | 0 <= i < |s| - 1 ensures s[1..][i] in all - {s[0]} { assert s[1..][i] == s[i + 1]; }
      DistinctFit(s[1..], all - {s[0]});
    }
  }

  lemma SearchBegins(rows: seq<Row>, root: int)
    ensures Searching(rows, root, [], [root]) && Circling(rows, root, [root])
  {
    assert Up(rows, root, 0) == Some(root);
  }

  /**
    The search, stopped after some number of turns. With a root below itself it
    would never stop; with any other it stops before it has opened more
    processes than there are, each descendant found once.
  */
  method Descendants(rows: seq<Row>, root: int, turns: nat) returns (found: seq<int>, ended: bool)
    requires Snapshot(rows)
    ensures Below(rows, root, root) ==> !ended
    ensures !Below(rows, root, root) && turns > |rows| ==> ended
    ensures ended ==> Distinct(found) && forall x :: x in found <==> Below(rows, x, root)
  {
    hide *;
    var kids := Children(rows);
    found := [];
    var todo := [root];
    var turn := 0;
    SearchBegins(rows, root);
    while todo != [] && turn < turns
      invariant turn <= turns && turn + |todo| == |found| + 1
      invariant !Below(rows, root, root) ==> Searching(rows, root, found, todo)
      invariant Below(rows, root, root) ==> Circling(rows, root, todo)
      decreases turns - turn
    {
      var p := todo[|todo| - 1];
      if Below(rows, root, root) { CirclingOn(rows, root, todo); } else { OpeningOne(rows, root, found, todo); }
      var next := if p in kids then kids[p] else [];
      assert next == KidsOf(rows, p);
      found, todo, turn := found + next, todo[..|todo| - 1] + next, turn + 1;
    }
    ended := todo == [];
    if Below(rows, root, root) {
      CirclingOn(rows, root, todo);
    } else {
      FoundAreFew(rows, root, found, todo);
      if ended { EndedWithAll(rows, root, found); }
    }
  }

  lemma EndedWithAll(rows: seq<Row>, root: int, found: seq<int>)
    requires Searching(rows, root, found, [])
    ensures Distinct(found) && forall x :: x in found <==> Below(rows, x, root)
  {
    forall x | Below(rows, x, root) ensures x in found {
      var d: nat :| d > 0 && Up(rows, x, d) == Some(root);
      AllFound(rows, root, found, x, d);
    }
  }
}
