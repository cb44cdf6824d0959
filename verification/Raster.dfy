/**
  From rectangles back to cells in `tools/mascot/build_mascot.py`: the
  rectangles are grouped by colour for the SVG, rasterised again, and held
  against the grid they were made from.
*/
module Raster {
  import opened Prelude
  import opened MergeRuns

  /** The rectangles of one colour, in their order. */
  function Only(rects: seq<Rect>, c: Color): seq<Rect> {
    if rects == [] then []
    else (if rects[0].color == c then [rects[0]] else []) + Only(rects[1..], c)
  }

  /** The rectangles in the order they stand in the SVG: group by group. */
  function Listed(rects: seq<Rect>, colors: seq<Color>): seq<Rect> {
    if colors == [] then [] else Only(rects, colors[0]) + Listed(rects, colors[1..])
  }

  /** `by_color`, filled rectangle by rectangle. */
  method Group(rects: seq<Rect>) returns (byColor: map<Color, seq<Rect>>)
    ensures forall c :: (c in byColor <==> Only(rects, c) != []) && (c in byColor ==> byColor[c] == Only(rects, c))
  {
    byColor := map[];
    for i := 0 to |rects|
      invariant forall c :: (c in byColor <==> Only(rects[..i], c) != []) && (c in byColor ==> byColor[c] == Only(rects[..i], c))
    {
      var r := rects[i];
      forall c ensures Only(rects[..i + 1], c) == Only(rects[..i], c) + (if r.color == c then [r] else []) {
        assert rects[..i + 1] == rects[..i] + [r];
        OnlyConcat(rects[..i], [r], c);
      }
      byColor := byColor[r.color := (if r.color in byColor then byColor[r.color] else []) + [r]];
    }
    assert rects[..|rects|] == rects;
  }

  lemma {:induction false} OnlyConcat(a: seq<Rect>, b: seq<Rect>, c: Color)
    ensures Only(a + b, c) == Only(a, c) + Only(b, c)
    decreases |a|
  {
    if a == [] {
      assert a + b == b;
    } else {
      assert (a + b)[1..] == a[1..] + b && (a + b)[0] == a[0];
      OnlyConcat(a[1..], b, c);
      Associative(if a[0].color == c then [a[0]] else [], Only(a[1..], c), Only(b, c));
    }
  }

  lemma Associative(a: seq<Rect>, b: seq<Rect>, c: seq<Rect>)
    ensures (a + b) + c == a + (b + c)
  {
  }

  /** What painting a list of rectangles yields: every cell in the colour of its rectangle. */
  ghost predicate Painted(rects: seq<Rect>, covered: Cells) {
    && (forall k, px, py :: 0 <= k < |rects| && In(rects[k], px, py) ==> Colored(covered, px, py, rects[k].color))
    && (forall px, py :: (px, py) in covered ==> Covered(rects, px, py))
  }

  /** Painting one rectangle over what is covered: refused at the first cell that is covered already. */
  method PaintRect(r: Rect, covered: Cells) returns (painted: Option<Cells>)
    ensures painted.Some? <==> forall px, py :: In(r, px, py) ==> (px, py) !in covered
    ensures painted.Some? ==> forall px, py :: (px, py) in painted.value <==> (px, py) in covered || In(r, px, py)
    ensures painted.Some? ==> forall px, py :: (px, py) in painted.value ==>
      painted.value[(px, py)] == if In(r, px, py) then r.color else covered[(px, py)]
  {
    var now := covered;
    var yy := r.y;
    while yy < r.y + r.h
      invariant r.y <= yy
      invariant forall px, py :: In(r, px, py) && py < yy ==> (px, py) !in covered
      invariant forall px, py :: (px, py) in now <==> (px, py) in covered || (In(r, px, py) && py < yy)
      invariant forall px, py :: (px, py) in now ==> now[(px, py)] == if In(r, px, py) && py < yy then r.color else covered[(px, py)]
    {
      var xx := r.x;
      while xx < r.x + r.w
        invariant r.x <= xx
        invariant forall px, py :: In(r, px, py) && (py < yy || (py == yy && px < xx)) ==> (px, py) !in covered
        invariant forall px, py :: (px, py) in now <==> (px, py) in covered || (In(r, px, py) && (py < yy || (py == yy && px < xx)))
        invariant forall px, py :: (px, py) in now ==>
          now[(px, py)] == if In(r, px, py) && (py < yy || (py == yy && px < xx)) then r.color else covered[(px, py)]
      {
        if (xx, yy) in now {
          assert In(r, xx, yy);
          return None;
        }
        now := now[(xx, yy) := r.color];
        xx := xx + 1;
      }
      yy := yy + 1;
    }
    return Some(now);
  }

  /** `raster_svg_rects`, over the rectangles in the order of the SVG: it stops exactly where two of them share a cell. */
  method RasterRects(rects: seq<Rect>) returns (covered: Option<Cells>)
    ensures covered.Some? <==> Disjoint(rects)
    ensures covered.Some? ==> Painted(rects, covered.value)
  {
    var now: Cells := map[];
    for i := 0 to |rects|
      invariant Disjoint(rects[..i]) && Painted(rects[..i], now)
    {
      var next := PaintRect(rects[i], now);
      assert rects[..i + 1] == rects[..i] + [rects[i]];
      PaintStep(rects[..i], rects[i], now);
      if next.None? {
        PrefixDisjoint(rects, i + 1);
        return None;
      }
      PaintedStep(rects[..i], rects[i], now, next.value);
      now := next.value;
    }
    assert rects[..|rects|] == rects;
    return Some(now);
  }

  lemma PrefixDisjoint(rects: seq<Rect>, n: nat)
    requires n <= |rects| && !Disjoint(rects[..n])
    ensures !Disjoint(rects)
  {
    var i, j :| 0 <= i < j < n && !Apart(rects[..n][i], rects[..n][j]);
    assert !Apart(rects[i], rects[j]);
  }

  lemma PaintStep(rects: seq<Rect>, r: Rect, now: Cells)
    requires Disjoint(rects) && Painted(rects, now)
    ensures Disjoint(rects + [r]) <==> forall px, py :: In(r, px, py) ==> (px, py) !in now
  {
    if forall px, py :: In(r, px, py) ==> (px, py) !in now {
      forall k | 0 <= k < |rects| ensures Apart(rects[k], r) {
      }
    } else {
      var px, py :| In(r, px, py) && (px, py) in now;
      assert Covered(rects, px, py);
      var k :| 0 <= k < |rects| && In(rects[k], px, py);
      assert !Apart((rects + [r])[k], (rects + [r])[|rects|]);
    }
  }

  lemma PaintedStep(rects: seq<Rect>, r: Rect, now: Cells, next: Cells)
    requires Painted(rects, now)
    requires forall px, py :: In(r, px, py) ==> (px, py) !in now
    requires forall px, py :: (px, py) in next <==> (px, py) in now || In(r, px, py)
    requires forall px, py :: (px, py) in next ==> next[(px, py)] == if In(r, px, py) then r.color else now[(px, py)]
    ensures Painted(rects + [r], next)
  {
    var all := rects + [r];
    forall k, px, py | 0 <= k < |all| && In(all[k], px, py) ensures Colored(next, px, py, all[k].color) {
      if k < |rects| { assert Colored(now, px, py, rects[k].color); }
    }
    forall px, py | (px, py) in next ensures Covered(all, px, py) {
      if (px, py) in now {
        CoveredBySame(rects, r, px, py);
      } else {
        assert In(all[|rects|], px, py);
      }
    }
  }

  // ------------------------------------------- grouping loses no rectangle

  lemma {:induction false} OnlyAt(rects: seq<Rect>, c: Color, k: nat) returns (i: nat)
    requires k < |Only(rects, c)|
    ensures i < |rects| && rects[i] == Only(rects, c)[k] && rects[i].color == c
    decreases |rects|
  {
    if rects[0].color == c && k == 0 {
      i := 0;
    } else {
      i := OnlyAt(rects[1..], c, if rects[0].color == c then k - 1 else k);
      i := i + 1;
    }
  }

  lemma {:induction false} OnlyHas(rects: seq<Rect>, c: Color, i: nat)
    requires i < |rects| && rects[i].color == c
    ensures rects[i] in Only(rects, c)
    decreases |rects|
  {
    if i > 0 { OnlyHas(rects[1..], c, i - 1); }
  }

  /** The groups keep rectangles apart that were apart. */
  lemma {:induction false} OnlyDisjoint(rects: seq<Rect>, c: Color)
    requires Disjoint(rects)
    ensures Disjoint(Only(rects, c))
    decreases |rects|
  {
    if rects != [] {
      OnlyDisjoint(rects[1..], c);
      var rest := Only(rects[1..], c);
      if rects[0].color == c {
        forall j | 0 <= j < |rest| ensures Apart(rects[0], rest[j]) {
          var i := OnlyAt(rects[1..], c, j);
          assert Apart(rects[0], rects[i + 1]);
        }
      }
    }
  }

  lemma {:induction false} ListedAt(rects: seq<Rect>, colors: seq<Color>, k: nat) returns (i: nat)
    requires k < |Listed(rects, colors)|
    ensures i < |rects| && rects[i] == Listed(rects, colors)[k] && rects[i].color in colors
    decreases |colors|
  {
    var here := Only(rects, colors[0]);
    if k < |here| {
      i := OnlyAt(rects, colors[0], k);
    } else {
      i := ListedAt(rects, colors[1..], k - |here|);
    }
  }

  lemma {:induction false} ListedHas(rects: seq<Rect>, colors: seq<Color>, i: nat)
    requires i < |rects| && rects[i].color in colors
    ensures rects[i] in Listed(rects, colors)
    decreases |colors|
  {
    if rects[i].color == colors[0] {
      OnlyHas(rects, colors[0], i);
    } else {
      ListedHas(rects, colors[1..], i);
    }
  }

  lemma {:induction false} ListedDisjoint(rects: seq<Rect>, colors: seq<Color>)
    requires Disjoint(rects)
    requires forall i, j :: 0 <= i < j < |colors| ==> colors[i] != colors[j]
    ensures Disjoint(Listed(rects, colors))
    decreases |colors|
  {
    if colors != [] {
      var here, rest := Only(rects, colors[0]), Listed(rects, colors[1..]);
      OnlyDisjoint(rects, colors[0]);
      ListedDisjoint(rects, colors[1..]);
      forall i, j | 0 <= i < |here| && 0 <= j < |rest| ensures Apart(here[i], rest[j]) {
        var a := OnlyAt(rects, colors[0], i);
        var b := ListedAt(rects, colors[1..], j);
        assert rects[a].color != rects[b].color;
        if a < b { assert Apart(rects[a], rects[b]); } else { assert Apart(rects[b], rects[a]); }
      }
    }
  }

  /** Merging cells without negative coordinates, grouping the rectangles by
      colour in any order, and painting them gives the cells back. */
  lemma RasterUndoesMerge(cells: Cells, rects: seq<Rect>, colors: seq<Color>, covered: Cells)
    requires Tiles(cells, rects)
    requires forall k :: 0 <= k < |rects| ==> rects[k].color in colors
    requires Painted(Listed(rects, colors), covered)
    ensures forall px, py :: (px, py) in covered <==> (px, py) in cells && px >= 0 && py >= 0
    ensures forall px, py :: (px, py) in covered ==> covered[(px, py)] == cells[(px, py)]
  {
    var listed := Listed(rects, colors);
    forall px, py | (px, py) in covered
      ensures (px, py) in cells && px >= 0 && py >= 0 && covered[(px, py)] == cells[(px, py)]
    {
      assert Covered(listed, px, py);
      var k :| 0 <= k < |listed| && In(listed[k], px, py);
      var i := ListedAt(rects, colors, k);
      assert Fits(cells, rects[i]);
    }
    forall px, py | (px, py) in cells && px >= 0 && py >= 0 ensures (px, py) in covered {
      assert Covered(rects, px, py);
      var i :| 0 <= i < |rects| && In(rects[i], px, py);
      ListedHas(rects, colors, i);
      var k :| 0 <= k < |listed| && listed[k] == rects[i];
      assert In(listed[k], px, py);
    }
  }

  // ------------------------------------------------------- the whole check

  /** A grid of colour names, row by row; `None` is a transparent cell. */
  type Grid = seq<seq<Option<string>>>

  predicate Rectangular(grid: Grid) {
    |grid| > 0 && forall y :: 0 <= y < |grid| ==> |grid[y]| == |grid[0]|
  }

  /** What the grid has at a place, in the colours of the palette. */
  ghost predicate Shows(grid: Grid, palette: map<string, Color>, cells: Cells) {
    forall x, y :: 0 <= y < |grid| && 0 <= x < |grid[y]| ==> Shown(grid, palette, cells, x, y)
  }

  predicate Shown(grid: Grid, palette: map<string, Color>, cells: Cells, x: int, y: int)
    requires 0 <= y < |grid| && 0 <= x < |grid[y]|
  {
    match grid[y][x]
    case None => (x, y) !in cells
    case Some(name) => name in palette && Colored(cells, x, y, palette[name])
  }

  /** The coloured cells of a grid, as `svg_for` collects them. */
  method ColoredCells(grid: Grid, palette: map<string, Color>) returns (cells: Cells)
    requires Rectangular(grid)
    requires forall x, y :: 0 <= y < |grid| && 0 <= x < |grid[y]| && grid[y][x].Some? ==> grid[y][x].value in palette
    ensures Shows(grid, palette, cells)
    ensures forall x, y :: (x, y) in cells ==> 0 <= y < |grid| && 0 <= x < |grid[0]|
  {
    var h, w := |grid|, |grid[0]|;
    cells := map[];
    for y := 0 to h
      invariant forall a, b :: (a, b) in cells ==> 0 <= b < y && 0 <= a < w
      invariant forall a, b :: 0 <= b < y && 0 <= a < w ==> Shown(grid, palette, cells, a, b)
    {
      for x := 0 to w
        invariant forall a, b :: (a, b) in cells ==> 0 <= b <= y && 0 <= a < w && (b == y ==> a < x)
        invariant forall a, b :: 0 <= b <= y && 0 <= a < w && (b == y ==> a < x) ==> Shown(grid, palette, cells, a, b)
      {
        ghost var was := cells;
        if grid[y][x].Some? {
          cells := cells[(x, y) := palette[grid[y][x].value]];
        }
        assert forall a, b :: 0 <= b < h && 0 <= a < w && (a, b) != (x, y) && Shown(grid, palette, was, a, b) ==> Shown(grid, palette, cells, a, b);
      }
    }
  }

  lemma ShowsMeans(grid: Grid, palette: map<string, Color>, cells: Cells)
    ensures Shows(grid, palette, cells) <==> forall x, y :: 0 <= y < |grid| && 0 <= x < |grid[y]| ==>
      (grid[y][x].None? ==> (x, y) !in cells)
      && (grid[y][x].Some? ==> grid[y][x].value in palette && (x, y) in cells && cells[(x, y)] == palette[grid[y][x].value])
  {
    if forall x, y :: 0 <= y < |grid| && 0 <= x < |grid[y]| ==>
      (grid[y][x].None? ==> (x, y) !in cells)
      && (grid[y][x].Some? ==> grid[y][x].value in palette && (x, y) in cells && cells[(x, y)] == palette[grid[y][x].value])
    {
      forall x, y | 0 <= y < |grid| && 0 <= x < |grid[y]| ensures Shown(grid, palette, cells, x, y) {
        assert grid[y][x].None? ==> (x, y) !in cells;
      }
    }
    if Shows(grid, palette, cells) {
      forall x, y | 0 <= y < |grid| && 0 <= x < |grid[y]|
        ensures grid[y][x].None? ==> (x, y) !in cells
        ensures grid[y][x].Some? ==> grid[y][x].value in palette && (x, y) in cells && cells[(x, y)] == palette[grid[y][x].value]
      {
        assert Shown(grid, palette, cells, x, y);
      }
    }
  }

  /** `assert_svg_matches`: whether every cell is covered as the grid has it. */
  method Matches(grid: Grid, palette: map<string, Color>, covered: Cells) returns (ok: bool)
    ensures ok <==> Shows(grid, palette, covered)
    ensures ok <==> forall x, y :: 0 <= y < |grid| && 0 <= x < |grid[y]| ==>
      (grid[y][x].None? ==> (x, y) !in covered)
      && (grid[y][x].Some? ==> grid[y][x].value in palette && (x, y) in covered && covered[(x, y)] == palette[grid[y][x].value])
  {
    ShowsMeans(grid, palette, covered);
    for y := 0 to |grid|
      invariant forall a, b :: 0 <= b < y && 0 <= a < |grid[b]| ==> Shown(grid, palette, covered, a, b)
    {
      for x := 0 to |grid[y]|
        invariant forall a, b :: 0 <= b < y && 0 <= a < |grid[b]| ==> Shown(grid, palette, covered, a, b)
        invariant forall a :: 0 <= a < x ==> Shown(grid, palette, covered, a, y)
      {
        if !Shown(grid, palette, covered, x, y) { return false; }
      }
    }
    return true;
  }

  /** The groups in some order of their colours, each colour once. */
  method List(byColor: map<Color, seq<Rect>>, ghost rects: seq<Rect>) returns (listed: seq<Rect>, ghost colors: seq<Color>)
    requires forall c :: c in byColor ==> byColor[c] == Only(rects, c)
    ensures listed == Listed(rects, colors)
    ensures forall c :: c in byColor <==> c in colors
    ensures forall i, j :: 0 <= i < j < |colors| ==> colors[i] != colors[j]
  {
    listed, colors := [], [];
    var left := byColor.Keys;
    while left != {}
      invariant left <= byColor.Keys && listed == Listed(rects, colors)
      invariant forall c :: c in byColor <==> c in colors || c in left
      invariant forall c :: c in colors ==> c !in left
      invariant forall i, j :: 0 <= i < j < |colors| ==> colors[i] != colors[j]
      decreases |left|
    {
      var c :| c in left;
      left := left - {c};
      listed, colors := byColor[c] + listed, [c] + colors;
    }
  }

  /** What is drawn of a grid always passes the check against it. */
  method DrawAndCheck(grid: Grid, palette: map<string, Color>) returns (ok: bool)
    requires Rectangular(grid)
    requires forall x, y :: 0 <= y < |grid| && 0 <= x < |grid[y]| && grid[y][x].Some? ==> grid[y][x].value in palette
    ensures ok
  {
    var cells := ColoredCells(grid, palette);
    var rects := MergeRuns.MergeRuns(cells);
    var byColor := Group(rects);
    var listed, colors := List(byColor, rects);
    ListedDisjoint(rects, colors);
    var covered := RasterRects(listed);
    if covered.None? { return false; }
    forall k | 0 <= k < |rects| ensures rects[k].color in colors {
      OnlyHas(rects, rects[k].color, k);
      assert Only(rects, rects[k].color) != [];
    }
    RasterUndoesMerge(cells, rects, colors, covered.value);
    ok := Matches(grid, palette, covered.value);
    assert Shows(grid, palette, covered.value) by {
      forall x, y | 0 <= y < |grid| && 0 <= x < |grid[y]| ensures Shown(grid, palette, covered.value, x, y) {
        assert Shown(grid, palette, cells, x, y);
      }
    }
  }
}
