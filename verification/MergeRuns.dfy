/**
  The rectangles of `tools/mascot/build_mascot.py`: coloured cells are merged
  into horizontal runs and those, greedily, into rectangles; rasterising the
  rectangles, colour by colour, has to give the cells back.
*/
module MergeRuns {
  import opened Prelude

  type Color = string
  type Cells = map<(int, int), Color>

  datatype Rect = Rect(x: int, y: int, w: int, h: int, color: Color)

  // ------------------------------------------------------------ vocabulary

  /** The cell at column `px` of row `py` lies in the rectangle. */
  predicate In(r: Rect, px: int, py: int) {
    r.x <= px < r.x + r.w && r.y <= py < r.y + r.h
  }

  predicate Colored(cells: Cells, px: int, py: int, c: Color) {
    (px, py) in cells && cells[(px, py)] == c
  }

  /** The row of `r` at `py` is not part of a longer run of its colour. */
  predicate Whole(cells: Cells, r: Rect, py: int) {
    !Colored(cells, r.x + r.w, py, r.color) && (r.x > 0 ==> !Colored(cells, r.x - 1, py, r.color))
  }

  /** A rectangle of cells that all have its colour, none of its rows being part of a longer run. */
  ghost predicate Fits(cells: Cells, r: Rect) {
    && r.x >= 0 && r.y >= 0 && r.w >= 1 && r.h >= 1
    && (forall px, py :: In(r, px, py) ==> Colored(cells, px, py, r.color))
    && (forall py :: r.y <= py < r.y + r.h ==> Whole(cells, r, py))
  }

  ghost predicate Apart(r: Rect, t: Rect) {
    forall px, py :: !(In(r, px, py) && In(t, px, py))
  }

  ghost predicate Disjoint(rects: seq<Rect>) {
    forall i, j :: 0 <= i < j < |rects| ==> Apart(rects[i], rects[j])
  }

  /** `t` goes on right below `r`, as wide and of the same colour. */
  predicate Stacks(r: Rect, t: Rect) {
    t.y == r.y + r.h && t.x == r.x && t.w == r.w && t.color == r.color
  }

  ghost predicate NoneStacks(rects: seq<Rect>) {
    forall i, j :: 0 <= i < |rects| && 0 <= j < |rects| ==> !Stacks(rects[i], rects[j])
  }

  ghost predicate Covered(rects: seq<Rect>, px: int, py: int) {
    exists k :: 0 <= k < |rects| && In(rects[k], px, py)
  }

  /** The rectangles tile exactly the cells whose coordinates are not negative. */
  ghost predicate Tiles(cells: Cells, rects: seq<Rect>) {
    && (forall k :: 0 <= k < |rects| ==> Fits(cells, rects[k]))
    && Disjoint(rects)
    && (forall px, py :: px >= 0 && py >= 0 && (px, py) in cells ==> Covered(rects, px, py))
  }

  // ------------------------------------------------------------------ runs

  /** Runs in reading order, apart from each other. */
  ghost predicate Sorted(runs: seq<Rect>) {
    forall i, j :: 0 <= i < j < |runs| ==>
      runs[i].y < runs[j].y || (runs[i].y == runs[j].y && runs[i].x + runs[i].w <= runs[j].x)
  }

  /** The runs of the cells read so far, which are those before column `x` of row `y`. */
  ghost predicate RunsUpTo(cells: Cells, runs: seq<Rect>, x: int, y: int) {
    && Sorted(runs)
    && (forall k :: 0 <= k < |runs| ==> Fits(cells, runs[k]) && runs[k].h == 1)
    && (forall k :: 0 <= k < |runs| ==> runs[k].y < y || (runs[k].y == y && runs[k].x + runs[k].w <= x))
    && (forall px, py :: 0 <= px && 0 <= py && (py < y || (py == y && px < x)) && (px, py) in cells ==> Covered(runs, px, py))
  }

  /** One more than the greatest coordinate, or less if there is none to cover. */
  method Extent(cells: Cells) returns (width: int, height: int)
    requires cells != map[]
    ensures forall px, py :: (px, py) in cells ==> px < width && py < height
  {
    var left := cells.Keys;
    var first :| first in left;
    width, height := first.0 + 1, first.1 + 1;
    while left != {}
      invariant left <= cells.Keys
      invariant forall px, py :: (px, py) in cells && (px, py) !in left ==> px < width && py < height
      decreases |left|
    {
      var c :| c in left;
      left := left - {c};
      if c.0 + 1 > width { width := c.0 + 1; }
      if c.1 + 1 > height { height := c.1 + 1; }
    }
  }

  lemma CoveredBySame(runs: seq<Rect>, run: Rect, px: int, py: int)
    requires Covered(runs, px, py)
    ensures Covered(runs + [run], px, py)
  {
    var k :| 0 <= k < |runs| && In(runs[k], px, py);
    assert In((runs + [run])[k], px, py);
  }

  /** Reading a run on from `x` keeps what was read. */
  lemma RunAdded(cells: Cells, runs: seq<Rect>, run: Rect, x: int, y: int)
    requires RunsUpTo(cells, runs, x, y) && Fits(cells, run) && run.h == 1 && run.x == x && run.y == y
    ensures RunsUpTo(cells, runs + [run], x + run.w, y)
  {
    forall px, py | 0 <= px && 0 <= py && (py < y || (py == y && px < x + run.w)) && (px, py) in cells
      ensures Covered(runs + [run], px, py)
    {
      if py < y || px < x {
        CoveredBySame(runs, run, px, py);
      } else {
        assert In((runs + [run])[|runs|], px, py);
      }
    }
  }

  /** So does going past a cell that has no colour, and past the last cell of a row. */
  lemma CellSkipped(cells: Cells, runs: seq<Rect>, x: int, y: int)
    requires RunsUpTo(cells, runs, x, y)
    ensures (x, y) !in cells ==> RunsUpTo(cells, runs, x + 1, y)
    ensures (forall px :: (px, y) in cells ==> px < x) ==> RunsUpTo(cells, runs, 0, y + 1)
  {
  }

  /** The end of the run of one colour that goes on at `x`. */
  method RunEnd(cells: Cells, x: int, y: int, width: int, color: Color) returns (x2: int)
    requires 0 <= x && Colored(cells, x, y, color)
    requires forall px, py :: (px, py) in cells ==> px < width
    ensures x <= x2 && !Colored(cells, x2 + 1, y, color)
    ensures forall px :: x <= px <= x2 ==> Colored(cells, px, y, color)
  {
    x2 := x;
    while Colored(cells, x2 + 1, y, color)
      invariant x <= x2 < width
      invariant forall px :: x <= px <= x2 ==> Colored(cells, px, y, color)
      decreases width - x2
    {
      x2 := x2 + 1;
    }
  }

  /** Row `y` read after the rows above it. */
  method RowRuns(cells: Cells, above: seq<Rect>, y: int, width: int) returns (runs: seq<Rect>)
    requires 0 <= y && RunsUpTo(cells, above, 0, y)
    requires forall px, py :: (px, py) in cells ==> px < width
    ensures RunsUpTo(cells, runs, 0, y + 1)
  {
    hide RunsUpTo;
    runs := above;
    var x := 0;
    while x < width
      invariant 0 <= x && RunsUpTo(cells, runs, x, y)
      invariant x > 0 && (x - 1, y) in cells ==> !Colored(cells, x, y, cells[(x - 1, y)])
      decreases width - x
    {
      if (x, y) !in cells {
        CellSkipped(cells, runs, x, y);
        x := x + 1;
      } else {
        var color := cells[(x, y)];
        var x2 := RunEnd(cells, x, y, width, color);
        var run := Rect(x, y, x2 - x + 1, 1, color);
        assert Whole(cells, run, y) && Colored(cells, x2, y, color);
        RunAdded(cells, runs, run, x, y);
        runs := runs + [run];
        x := x2 + 1;
      }
    }
    CellSkipped(cells, runs, x, y);
  }

  /** The horizontal runs of all cells, row by row. */
  method Runs(cells: Cells) returns (runs: seq<Rect>)
    requires cells != map[]
    ensures Sorted(runs)
    ensures forall k :: 0 <= k < |runs| ==> Fits(cells, runs[k]) && runs[k].h == 1
    ensures forall px, py :: 0 <= px && 0 <= py && (px, py) in cells ==> Covered(runs, px, py)
  {
    var width, height := Extent(cells);
    runs := [];
    var y := 0;
    while y < height
      invariant 0 <= y && RunsUpTo(cells, runs, 0, y)
    {
      runs := RowRuns(cells, runs, y, width);
      y := y + 1;
    }
  }

  // --------------------------------------------------------------- merging

  /** The run is one of the rows of `r`. */
  predicate RowOf(r: Rect, run: Rect) {
    run.x == r.x && run.w == r.w && run.color == r.color && run.h == 1 && r.y <= run.y < r.y + r.h
  }

  /** How far merging is: `owner[j]` is the rectangle that took run `j`, or -1;
      `first[k]` is the run rectangle `k` was begun with.  The runs before `i`
      are all taken. */
  ghost predicate Merged(runs: seq<Rect>, used: seq<bool>, i: int, rects: seq<Rect>, owner: seq<int>, first: seq<int>) {
    && |used| == |runs| == |owner| && |first| == |rects| && 0 <= i <= |runs|
    && (forall j :: 0 <= j < |runs| ==> -1 <= owner[j] < |rects|)
    && (forall j :: 0 <= j < i ==> owner[j] >= 0)
    && (forall j :: i <= j < |runs| ==> (used[j] <==> owner[j] >= 0))
    && (forall j :: 0 <= j < |runs| && owner[j] >= 0 ==> RowOf(rects[owner[j]], runs[j]))
    && (forall k :: 0 <= k < |rects| ==> rects[k].h >= 1 && 0 <= first[k] < i && owner[first[k]] == k && runs[first[k]].y == rects[k].y)
    && (forall k, py :: 0 <= k < |rects| && rects[k].y <= py < rects[k].y + rects[k].h ==> HasRow(runs, owner, k, py))
  }

  /** Some run at row `py` went to rectangle `k`. */
  ghost predicate HasRow(runs: seq<Rect>, owner: seq<int>, k: int, py: int)
    requires |owner| == |runs|
  {
    exists j :: 0 <= j < |runs| && owner[j] == k && runs[j].y == py
  }

  /** No rectangle made so far goes on in another one or in a run that is still free. */
  ghost predicate Settled(runs: seq<Rect>, i: int, rects: seq<Rect>, owner: seq<int>)
    requires |owner| == |runs|
  {
    && NoneStacks(rects)
    && (forall k, j :: 0 <= k < |rects| && 0 <= j < |runs| && owner[j] < 0 ==> !Stacks(rects[k], runs[j]))
  }

  /** The next free run that goes on right below `rect`, if there is one. */
  method FindBelow(runs: seq<Rect>, used: seq<bool>, i: nat, rect: Rect) returns (found: Option<nat>)
    requires Sorted(runs) && |used| == |runs| && i < |runs|
    ensures found.Some? ==> i < found.value < |runs| && !used[found.value] && Stacks(rect, runs[found.value])
    ensures found.None? ==> forall j :: i < j < |runs| && !used[j] ==> !Stacks(rect, runs[j])
  {
    var j := i + 1;
    while j < |runs|
      invariant i < j <= |runs|
      invariant forall m :: i < m < j && !used[m] ==> !Stacks(rect, runs[m])
    {
      if !used[j] {
        if runs[j].y > rect.y + rect.h { return None; }
        if Stacks(rect, runs[j]) { return Some(j); }
      }
      j := j + 1;
    }
    return None;
  }

  /** A rectangle that takes one more row. */
  lemma RowTaken(runs: seq<Rect>, used: seq<bool>, i: int, rects: seq<Rect>, owner: seq<int>, first: seq<int>, found: int)
    requires Merged(runs, used, i, rects, owner, first) && |rects| > 0
    requires i <= found < |runs| && !used[found] && runs[found].h == 1
    requires Stacks(rects[|rects| - 1], runs[found])
    ensures var k := |rects| - 1;
      Merged(runs, used[found := true], i, rects[k := rects[k].(h := rects[k].h + 1)], owner[found := k], first)
  {
    var k := |rects| - 1;
    var rects', owner' := rects[k := rects[k].(h := rects[k].h + 1)], owner[found := k];
    forall m, py | 0 <= m < |rects'| && rects'[m].y <= py < rects'[m].y + rects'[m].h
      ensures HasRow(runs, owner', m, py)
    {
      if m == k && py == rects[k].y + rects[k].h {
        assert owner'[found] == k && runs[found].y == py;
      } else {
        assert HasRow(runs, owner, m, py);
        var j :| 0 <= j < |runs| && owner[j] == m && runs[j].y == py;
        assert owner'[j] == m;
      }
    }
  }

  /** A rectangle begun with the free run `i`. */
  lemma RectBegun(runs: seq<Rect>, used: seq<bool>, i: int, rects: seq<Rect>, owner: seq<int>, first: seq<int>)
    requires Merged(runs, used, i, rects, owner, first) && i < |runs| && !used[i] && runs[i].h == 1
    ensures Merged(runs, used, i + 1, rects + [runs[i]], owner[i := |rects|], first + [i])
  {
    var rects', owner' := rects + [runs[i]], owner[i := |rects|];
    forall m, py | 0 <= m < |rects'| && rects'[m].y <= py < rects'[m].y + rects'[m].h
      ensures HasRow(runs, owner', m, py)
    {
      if m == |rects| {
        assert owner'[i] == m && runs[i].y == py;
      } else {
        assert HasRow(runs, owner, m, py);
        var j :| 0 <= j < |runs| && owner[j] == m && runs[j].y == py;
        assert owner'[j] == m;
      }
    }
  }

  /** Nothing is left to stack once the search below the new rectangle finds nothing. */
  lemma RectSettled(runs: seq<Rect>, used: seq<bool>, i: int, rects: seq<Rect>, rect: Rect, before: seq<int>, owner: seq<int>, first: seq<int>)
    requires Sorted(runs) && 0 <= i < |runs| && |before| == |runs| && before[i] < 0
    requires Settled(runs, i, rects, before)
    requires Merged(runs, used, i + 1, rects + [rect], owner, first + [i]) && |first| == |rects|
    requires forall j :: 0 <= j < |runs| && owner[j] < 0 ==> before[j] < 0
    requires RowOf(rect, runs[i]) && rect.y == runs[i].y
    requires forall j :: i < j < |runs| && !used[j] ==> !Stacks(rect, runs[j])
    ensures Settled(runs, i + 1, rects + [rect], owner)
  {
    var all := rects + [rect];
    forall k, m | 0 <= k < |all| && 0 <= m < |all| ensures !Stacks(all[k], all[m]) {
      if m < |rects| {
        var f := (first + [i])[m];
        assert all[m].y == runs[f].y;
        assert k == |rects| ==> runs[f].y <= runs[i].y;
      } else if k < |rects| {
        assert !Stacks(rects[k], runs[i]);
      }
    }
  }

  /** Where every run is taken the rectangles tile the cells. */
  lemma MergedTiles(cells: Cells, runs: seq<Rect>, used: seq<bool>, rects: seq<Rect>, owner: seq<int>, first: seq<int>)
    requires Sorted(runs) && (forall k :: 0 <= k < |runs| ==> Fits(cells, runs[k]) && runs[k].h == 1)
    requires forall px, py :: 0 <= px && 0 <= py && (px, py) in cells ==> Covered(runs, px, py)
    requires Merged(runs, used, |runs|, rects, owner, first)
    ensures Tiles(cells, rects)
  {
    forall k | 0 <= k < |rects| ensures Fits(cells, rects[k]) {
      RectFits(cells, runs, used, rects, owner, first, k);
    }
    forall k, m | 0 <= k < m < |rects| ensures Apart(rects[k], rects[m]) {
      RectsApart(runs, used, rects, owner, first, k, m);
    }
    forall px, py | px >= 0 && py >= 0 && (px, py) in cells ensures Covered(rects, px, py) {
      assert Covered(runs, px, py);
      var j :| 0 <= j < |runs| && In(runs[j], px, py);
      assert In(rects[owner[j]], px, py);
    }
  }

  lemma RectFits(cells: Cells, runs: seq<Rect>, used: seq<bool>, rects: seq<Rect>, owner: seq<int>, first: seq<int>, k: int)
    requires forall j :: 0 <= j < |runs| ==> Fits(cells, runs[j]) && runs[j].h == 1
    requires Merged(runs, used, |runs|, rects, owner, first) && 0 <= k < |rects|
    ensures Fits(cells, rects[k])
  {
    var r := rects[k];
    assert RowOf(r, runs[first[k]]);
    hide Merged;
    forall py | r.y <= py < r.y + r.h ensures Whole(cells, r, py) {
      var j := RunAt(runs, used, rects, owner, first, k, py);
      assert Whole(cells, runs[j], py);
    }
    forall px, py | In(r, px, py) ensures Colored(cells, px, py, r.color) {
      var j := RunAt(runs, used, rects, owner, first, k, py);
      assert In(runs[j], px, py);
    }
  }

  lemma RectsApart(runs: seq<Rect>, used: seq<bool>, rects: seq<Rect>, owner: seq<int>, first: seq<int>, k: int, m: int)
    requires Sorted(runs) && Merged(runs, used, |runs|, rects, owner, first) && 0 <= k < m < |rects|
    ensures Apart(rects[k], rects[m])
  {
    forall px, py ensures !(In(rects[k], px, py) && In(rects[m], px, py)) {
      if In(rects[k], px, py) && In(rects[m], px, py) {
        var i := RunAt(runs, used, rects, owner, first, k, py);
        var j := RunAt(runs, used, rects, owner, first, m, py);
        assert false;
      }
    }
  }

  /** The run that is row `py` of rectangle `k`. */
  lemma RunAt(runs: seq<Rect>, used: seq<bool>, rects: seq<Rect>, owner: seq<int>, first: seq<int>, k: int, py: int) returns (j: int)
    requires Merged(runs, used, |runs|, rects, owner, first)
    requires 0 <= k < |rects| && rects[k].y <= py < rects[k].y + rects[k].h
    ensures 0 <= j < |runs| && owner[j] == k && RowOf(rects[k], runs[j]) && runs[j].y == py
  {
    assert HasRow(runs, owner, k, py);
    j :| 0 <= j < |runs| && owner[j] == k && runs[j].y == py;
  }

  /** A rectangle begun with run `i` and grown downwards as far as it goes. */
  method Grow(runs: seq<Rect>, free: seq<bool>, i: nat, ghost rects: seq<Rect>, ghost begun: seq<int>, ghost first: seq<int>)
    returns (rect: Rect, used: seq<bool>, ghost owner: seq<int>)
    requires |free| == |begun| == |runs| && Sorted(runs) && i < |runs| && forall k :: 0 <= k < |runs| ==> runs[k].h == 1
    requires Merged(runs, free, i + 1, rects + [runs[i]], begun, first + [i])
    ensures |used| == |owner| == |runs| && Merged(runs, used, i + 1, rects + [rect], owner, first + [i])
    ensures forall j :: 0 <= j < |runs| && owner[j] < 0 ==> begun[j] < 0
    ensures RowOf(rect, runs[i]) && rect.y == runs[i].y
    ensures forall j :: i < j < |runs| && !used[j] ==> !Stacks(rect, runs[j])
  {
    hide Merged;
    rect, used, owner := runs[i], free, begun;
    ghost var last := i;
    var found := FindBelow(runs, used, i, rect);
    while found.Some?
      invariant |used| == |owner| == |runs| && Merged(runs, used, i + 1, rects + [rect], owner, first + [i])
      invariant forall j :: 0 <= j < |runs| && owner[j] < 0 ==> begun[j] < 0
      invariant RowOf(rect, runs[i]) && rect.y == runs[i].y
      invariant i <= last < |runs| && runs[last].y == rect.y + rect.h - 1
      invariant found.Some? ==> i < found.value < |runs| && !used[found.value] && Stacks(rect, runs[found.value])
      invariant found.None? ==> forall j :: i < j < |runs| && !used[j] ==> !Stacks(rect, runs[j])
      decreases |runs| - last, if found.Some? then 1 else 0
    {
      RowTaken(runs, used, i + 1, rects + [rect], owner, first + [i], found.value);
      owner := owner[found.value := |rects|];
      assert (rects + [rect])[|rects| := rect.(h := rect.h + 1)] == rects + [rect.(h := rect.h + 1)];
      used := used[found.value := true];
      rect := rect.(h := rect.h + 1);
      last := found.value;
      found := FindBelow(runs, used, i, rect);
    }
  }

  /** The runs merged downwards, each as far as it goes. */
  method Merge(cells: Cells, runs: seq<Rect>) returns (rects: seq<Rect>)
    requires Sorted(runs) && (forall k :: 0 <= k < |runs| ==> Fits(cells, runs[k]) && runs[k].h == 1)
    requires forall px, py :: 0 <= px && 0 <= py && (px, py) in cells ==> Covered(runs, px, py)
    ensures Tiles(cells, rects) && NoneStacks(rects)
  {
    rects := [];
    var used := seq(|runs|, _ => false);
    ghost var owner: seq<int>, first: seq<int> := seq(|runs|, _ => -1), [];
    for i := 0 to |runs|
      invariant Merged(runs, used, i, rects, owner, first) && Settled(runs, i, rects, owner)
    {
      if !used[i] {
        ghost var before := owner;
        RectBegun(runs, used, i, rects, owner, first);
        var rect;
        rect, used, owner := Grow(runs, used, i, rects, owner[i := |rects|], first);
        RectSettled(runs, used, i, rects, rect, before, owner, first);
        rects := rects + [rect];
        first := first + [i];
      }
    }
    MergedTiles(cells, runs, used, rects, owner, first);
  }

  /** `merge_runs`. */
  method MergeRuns(cells: Cells) returns (rects: seq<Rect>)
    ensures Tiles(cells, rects) && NoneStacks(rects)
  {
    if cells == map[] { return []; }
    var runs := Runs(cells);
    rects := Merge(cells, runs);
  }
}
