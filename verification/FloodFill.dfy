/**
  `body_bbox` of `tools/mascot/build_mascot.py`: the bounding box of the
  largest connected group of opaque pixels, found by flooding.
*/
module FloodFill {
  import opened Prelude

  const ALPHA_MIN := 160

  type Pixel = (int, int)

  datatype Image = Image(width: nat, height: nat, alpha: (int, int) -> int)

  datatype Box = Box(left: int, top: int, right: int, bottom: int)

  // --------------------------------------------------------- connectedness

  predicate Inside(img: Image, p: Pixel) { 0 <= p.0 < img.width && 0 <= p.1 < img.height }

  predicate Opaque(img: Image, p: Pixel) { Inside(img, p) && img.alpha(p.0, p.1) >= ALPHA_MIN }

  /** Two pixels that touch, be it at a corner. */
  predicate Touch(p: Pixel, q: Pixel) { p != q && -1 <= p.0 - q.0 <= 1 && -1 <= p.1 - q.1 <= 1 }

  /** The eight pixels around one. */
  lemma TouchMeans(p: Pixel, q: Pixel)
    ensures Touch(p, q) <==>
      q in {(p.0 - 1, p.1 - 1), (p.0, p.1 - 1), (p.0 + 1, p.1 - 1), (p.0 - 1, p.1), (p.0 + 1, p.1), (p.0 - 1, p.1 + 1), (p.0, p.1 + 1), (p.0 + 1, p.1 + 1)}
  {
  }

  ghost predicate Path(img: Image, path: seq<Pixel>, p: Pixel, q: Pixel) {
    && |path| > 0 && path[0] == p && path[|path| - 1] == q
    && (forall i :: 0 <= i < |path| ==> Opaque(img, path[i]))
    && (forall i :: 0 < i < |path| ==> Touch(path[i - 1], path[i]))
  }

  ghost predicate Connected(img: Image, p: Pixel, q: Pixel) { exists path :: Path(img, path, p, q) }

  /** An 8-connected component: an opaque pixel and all that it is connected to. */
  ghost predicate IsComponent(img: Image, s: set<Pixel>) {
    exists seed :: ComponentOf(img, seed, s)
  }

  ghost predicate ComponentOf(img: Image, seed: Pixel, s: set<Pixel>) {
    Opaque(img, seed) && forall q :: q in s <==> Connected(img, seed, q)
  }

  ghost predicate Closed(img: Image, s: set<Pixel>) {
    forall p, q :: p in s && Opaque(img, q) && Touch(p, q) ==> q in s
  }

  lemma ConnectedSelf(img: Image, p: Pixel)
    requires Opaque(img, p)
    ensures Connected(img, p, p)
  {
    assert Path(img, [p], p, p);
  }

  lemma ConnectedStep(img: Image, p: Pixel, q: Pixel, r: Pixel)
    requires Connected(img, p, q) && Opaque(img, r) && Touch(q, r)
    ensures Connected(img, p, r)
  {
    var path :| Path(img, path, p, q);
    assert Path(img, path + [r], p, r);
  }

  lemma ConnectedBack(img: Image, p: Pixel, q: Pixel)
    requires Connected(img, p, q)
    ensures Connected(img, q, p)
  {
    var path :| Path(img, path, p, q);
    var n := |path|;
    var back := seq(n, i requires 0 <= i < n => path[n - 1 - i]);
    forall i | 0 < i < n ensures Touch(back[i - 1], back[i]) {
      assert Touch(path[n - 1 - i], path[n - i]);
    }
    assert Path(img, back, q, p);
  }

  lemma ConnectedOn(img: Image, p: Pixel, q: Pixel, r: Pixel)
    requires Connected(img, p, q) && Connected(img, q, r)
    ensures Connected(img, p, r)
  {
    var a :| Path(img, a, p, q);
    var b :| Path(img, b, q, r);
    var c := a + b[1..];
    forall i | 0 < i < |c| ensures Touch(c[i - 1], c[i]) {
      if i > |a| {
        assert c[i] == b[i - |a| + 1] && c[i - 1] == b[i - |a|];
      } else if i == |a| {
        assert c[i] == b[1] && c[i - 1] == b[0];
      }
    }
    assert Path(img, c, p, r);
  }

  /** A path does not leave a set that is closed under touching. */
  lemma {:induction false} PathStays(img: Image, s: set<Pixel>, path: seq<Pixel>, p: Pixel, q: Pixel)
    requires Closed(img, s) && Path(img, path, p, q) && p in s
    ensures q in s
    decreases |path|
  {
    if |path| > 1 {
      var r := path[|path| - 2];
      var init := path[..|path| - 1];
      assert Path(img, init, p, r);
      PathStays(img, s, init, p, r);
      assert Touch(r, q);
    }
  }

  lemma FloodedIsComponent(img: Image, seed: Pixel, s: set<Pixel>)
    requires Opaque(img, seed) && seed in s && Closed(img, s)
    requires forall q :: q in s ==> Connected(img, seed, q)
    ensures ComponentOf(img, seed, s)
  {
    forall q | Connected(img, seed, q) ensures q in s {
      var path :| Path(img, path, seed, q);
      PathStays(img, s, path, seed, q);
    }
  }

  lemma ComponentClosed(img: Image, seed: Pixel, s: set<Pixel>)
    requires ComponentOf(img, seed, s)
    ensures seed in s && Opaque(img, seed) && Closed(img, s)
  {
    ConnectedSelf(img, seed);
    forall p, q | p in s && Opaque(img, q) && Touch(p, q) ensures q in s {
      ConnectedStep(img, seed, p, q);
    }
  }

  /** Two components that share a pixel are the same. */
  lemma ComponentsMeet(img: Image, a: Pixel, s: set<Pixel>, b: Pixel, t: set<Pixel>, p: Pixel)
    requires ComponentOf(img, a, s) && ComponentOf(img, b, t) && p in s && p in t
    ensures s == t
  {
    forall q | q in s ensures q in t { SameSide(img, a, b, p, q); }
    forall q | q in t ensures q in s { SameSide(img, b, a, p, q); }
  }

  lemma SameSide(img: Image, a: Pixel, b: Pixel, p: Pixel, q: Pixel)
    requires Connected(img, a, p) && Connected(img, b, p) && Connected(img, a, q)
    ensures Connected(img, b, q)
  {
    ConnectedBack(img, a, p);
    ConnectedOn(img, b, p, a);
    ConnectedOn(img, b, a, q);
  }

  // ---------------------------------------------------------------- flooding

  ghost function Elements(s: seq<Pixel>): set<Pixel> { set p | p in s }

  ghost predicate Distinct(s: seq<Pixel>) { forall i, j :: 0 <= i < j < |s| ==> s[i] != s[j] }

  lemma {:induction false} DistinctSize(s: seq<Pixel>)
    requires Distinct(s)
    ensures |Elements(s)| == |s|
    decreases |s|
  {
    if s != [] {
      var init := s[..|s| - 1];
      DistinctSize(init);
      assert Elements(s) == Elements(init) + {s[|s| - 1]};
      assert s[|s| - 1] !in Elements(init);
    }
  }

  /** The matrix has marked exactly the pixels in `marked`. */
  ghost predicate Marks(img: Image, seen: array2<bool>, marked: set<Pixel>)
    reads seen
  {
    && seen.Length0 == img.height && seen.Length1 == img.width
    && (forall p :: p in marked ==> Inside(img, p))
    && (forall x, y :: 0 <= x < img.width && 0 <= y < img.height ==> (seen[y, x] <==> (x, y) in marked))
  }

  ghost function AllPixels(img: Image): set<Pixel> {
    set x, y | 0 <= x < img.width && 0 <= y < img.height :: (x, y)
  }

  /** What flooding from `seed` has reached, each pixel once and none that was marked before. */
  ghost predicate Reached(img: Image, before: set<Pixel>, seed: Pixel, reached: seq<Pixel>) {
    && Distinct(reached)
    && (forall p :: p in reached ==> p !in before && Opaque(img, p) && Connected(img, seed, p))
  }

  /** The neighbour `q` of `c`, if it is one and opaque, has been reached or was marked before. */
  ghost predicate Looked(img: Image, before: set<Pixel>, reached: seq<Pixel>, c: Pixel, q: Pixel) {
    Opaque(img, q) && Touch(c, q) ==> q in reached || q in before
  }

  lemma OneMore(img: Image, before: set<Pixel>, seed: Pixel, reached: seq<Pixel>, c: Pixel, q: Pixel)
    requires Reached(img, before, seed, reached) && c in reached
    requires q !in reached && q !in before && Opaque(img, q) && Touch(c, q)
    ensures Reached(img, before, seed, reached + [q])
    ensures Elements(reached + [q]) == Elements(reached) + {q}
  {
    ConnectedStep(img, seed, c, q);
  }

  /** One neighbour of `c`, marked and queued if it is opaque and was not marked. */
  method Visit(img: Image, seen: array2<bool>, c: Pixel, q: Pixel, queue0: seq<Pixel>, ghost before: set<Pixel>, ghost seed: Pixel, ghost comp: seq<Pixel>)
    returns (queue: seq<Pixel>)
    requires Reached(img, before, seed, comp + queue0) && c in comp && q.0 - 1 <= c.0 <= q.0 + 1 && q.1 - 1 <= c.1 <= q.1 + 1
    requires Marks(img, seen, before + Elements(comp + queue0))
    modifies seen
    ensures Reached(img, before, seed, comp + queue) && queue0 <= queue
    ensures Marks(img, seen, before + Elements(comp + queue))
    ensures Looked(img, before, comp + queue, c, q)
  {
    queue := queue0;
    if q == c || q.0 < 0 || q.1 < 0 || q.0 >= img.width || q.1 >= img.height { return; }
    if seen[q.1, q.0] || img.alpha(q.0, q.1) < ALPHA_MIN { return; }
    OneMore(img, before, seed, comp + queue, c, q);
    assert comp + (queue + [q]) == (comp + queue) + [q];
    seen[q.1, q.0] := true;
    queue := queue + [q];
  }

  /** The eight neighbours of one pixel. */
  method LookAround(img: Image, seen: array2<bool>, c: Pixel, queue0: seq<Pixel>, ghost before: set<Pixel>, ghost seed: Pixel, ghost comp: seq<Pixel>)
    returns (queue: seq<Pixel>)
    requires Reached(img, before, seed, comp + queue0) && c in comp
    requires Marks(img, seen, before + Elements(comp + queue0))
    modifies seen
    ensures Reached(img, before, seed, comp + queue) && queue0 <= queue
    ensures Marks(img, seen, before + Elements(comp + queue))
    ensures forall q :: Looked(img, before, comp + queue, c, q)
  {
    hide Reached, Marks;
    queue := queue0;
    for dy := -1 to 2
      invariant Reached(img, before, seed, comp + queue) && queue0 <= queue
      invariant Marks(img, seen, before + Elements(comp + queue))
      invariant forall q: Pixel :: q.1 < c.1 + dy ==> Looked(img, before, comp + queue, c, q)
    {
      for dx := -1 to 2
        invariant Reached(img, before, seed, comp + queue) && queue0 <= queue
        invariant Marks(img, seen, before + Elements(comp + queue))
        invariant forall q: Pixel :: q.1 < c.1 + dy || (q.1 == c.1 + dy && q.0 < c.0 + dx) ==> Looked(img, before, comp + queue, c, q)
      {
        queue := Visit(img, seen, c, (c.0 + dx, c.1 + dy), queue, before, seed, comp);
      }
    }
  }

  lemma Bounded(img: Image, s: set<Pixel>)
    requires forall p :: p in s ==> Inside(img, p)
    ensures s <= AllPixels(img)
  {
  }

  /** Between two turns of the queue loop: everything next to a pixel that is done with has been reached. */
  ghost predicate Flooding(img: Image, before: set<Pixel>, seed: Pixel, comp: seq<Pixel>, queue: seq<Pixel>) {
    && Reached(img, before, seed, comp + queue) && seed in comp + queue
    && forall p, q :: p in comp ==> Looked(img, before, comp + queue, p, q)
  }

  /** One turn of the queue loop. */
  method Turn(img: Image, seen: array2<bool>, comp: seq<Pixel>, queue0: seq<Pixel>, ghost before: set<Pixel>, ghost seed: Pixel) returns (queue: seq<Pixel>)
    requires queue0 != [] && Flooding(img, before, seed, comp, queue0)
    requires Marks(img, seen, before + Elements(comp + queue0))
    modifies seen
    ensures Flooding(img, before, seed, comp + [queue0[0]], queue)
    ensures Marks(img, seen, before + Elements(comp + [queue0[0]] + queue))
  {
    var c := queue0[0];
    assert (comp + [c]) + queue0[1..] == comp + queue0;
    queue := LookAround(img, seen, c, queue0[1..], before, seed, comp + [c]);
    FloodingGoesOn(img, before, seed, comp, queue0, queue);
  }

  lemma FloodingGoesOn(img: Image, before: set<Pixel>, seed: Pixel, comp: seq<Pixel>, queue0: seq<Pixel>, queue: seq<Pixel>)
    requires queue0 != [] && Flooding(img, before, seed, comp, queue0) && queue0[1..] <= queue
    requires Reached(img, before, seed, comp + [queue0[0]] + queue)
    requires forall q :: Looked(img, before, comp + [queue0[0]] + queue, queue0[0], q)
    ensures Flooding(img, before, seed, comp + [queue0[0]], queue)
  {
    var now, was := comp + [queue0[0]] + queue, comp + queue0;
    assert now[..|was|] == was;
    assert forall p :: p in was ==> p in now;
    forall p, q | p in comp + [queue0[0]] ensures Looked(img, before, now, p, q) {
      if p in comp { assert Looked(img, before, was, p, q); }
    }
  }

  /** The queue loop: everything connected to an opaque pixel that was not marked, each pixel once. */
  method Flood(img: Image, seen: array2<bool>, seed: Pixel, ghost before: set<Pixel>) returns (comp: seq<Pixel>)
    requires Opaque(img, seed) && seed !in before && Closed(img, before) && Marks(img, seen, before)
    modifies seen
    ensures Distinct(comp) && ComponentOf(img, seed, Elements(comp))
    ensures Marks(img, seen, before + Elements(comp)) && before !! Elements(comp)
  {
    var queue := [seed];
    FloodingBegins(img, before, seed);
    seen[seed.1, seed.0] := true;
    comp := [];
    hide Marks, Flooding;
    while queue != []
      invariant Flooding(img, before, seed, comp, queue)
      invariant Marks(img, seen, before + Elements(comp + queue))
      decreases |AllPixels(img) - Elements(comp)|
    {
      Progress(img, before, seed, comp, queue);
      var c := queue[0];
      queue := Turn(img, seen, comp, queue, before, seed);
      comp := comp + [c];
    }
    assert comp + queue == comp;
    FloodClosed(img, before, seed, comp);
  }

  lemma FloodingBegins(img: Image, before: set<Pixel>, seed: Pixel)
    requires Opaque(img, seed) && seed !in before
    ensures Flooding(img, before, seed, [], [seed]) && Elements([] + [seed]) == {seed}
  {
    ConnectedSelf(img, seed);
    assert [] + [seed] == [seed];
  }

  lemma Progress(img: Image, before: set<Pixel>, seed: Pixel, comp: seq<Pixel>, queue: seq<Pixel>)
    requires Flooding(img, before, seed, comp, queue) && queue != []
    ensures |AllPixels(img) - Elements(comp + [queue[0]])| < |AllPixels(img) - Elements(comp)|
  {
    var c := queue[0];
    assert (comp + queue)[|comp|] == c;
    assert c in comp + queue;
    assert forall i :: 0 <= i < |comp| ==> comp[i] == (comp + queue)[i] != c;
    assert AllPixels(img) - Elements(comp + [c]) == (AllPixels(img) - Elements(comp)) - {c};
  }

  lemma FloodClosed(img: Image, before: set<Pixel>, seed: Pixel, comp: seq<Pixel>)
    requires Opaque(img, seed) && Closed(img, before) && Flooding(img, before, seed, comp, [])
    ensures Distinct(comp) && ComponentOf(img, seed, Elements(comp)) && before !! Elements(comp)
  {
    assert comp + [] == comp;
    var s := Elements(comp);
    forall p, q | p in s && Opaque(img, q) && Touch(p, q) ensures q in s {
      assert Looked(img, before, comp, p, q);
      assert Touch(q, p);
    }
    FloodedIsComponent(img, seed, s);
  }

  // -------------------------------------------------------- bounding box

  /** The components found so far, which cover what is marked. */
  ghost predicate Found(img: Image, comps: seq<set<Pixel>>, marked: set<Pixel>) {
    && (forall k :: 0 <= k < |comps| ==> IsComponent(img, comps[k]) && comps[k] <= marked)
    && (forall p :: p in marked ==> InSome(comps, p))
  }

  ghost predicate InSome(comps: seq<set<Pixel>>, p: Pixel) { exists k :: 0 <= k < |comps| && p in comps[k] }

  /** The largest of the components, as the list of its pixels. */
  ghost predicate Best(comps: seq<set<Pixel>>, best: seq<Pixel>) {
    if comps == [] then best == []
    else best != [] && Elements(best) in comps && forall k :: 0 <= k < |comps| ==> |comps[k]| <= |best| == |Elements(best)|
  }

  lemma FoundClosed(img: Image, comps: seq<set<Pixel>>, marked: set<Pixel>)
    requires Found(img, comps, marked)
    ensures Closed(img, marked)
  {
    forall p, q | p in marked && Opaque(img, q) && Touch(p, q) ensures q in marked {
      assert InSome(comps, p);
      var k :| 0 <= k < |comps| && p in comps[k];
      var seed :| ComponentOf(img, seed, comps[k]);
      ComponentClosed(img, seed, comps[k]);
    }
  }

  lemma FoundOneMore(img: Image, comps: seq<set<Pixel>>, marked: set<Pixel>, s: set<Pixel>)
    requires Found(img, comps, marked) && IsComponent(img, s)
    ensures Found(img, comps + [s], marked + s)
  {
    hide IsComponent;
    var all := comps + [s];
    assert all[|comps|] == s;
    forall p | p in marked + s ensures InSome(all, p) {
      if p in marked {
        assert InSome(comps, p);
        var k :| 0 <= k < |comps| && p in comps[k];
        assert p in all[k];
      } else {
        assert p in all[|comps|];
      }
    }
  }

  lemma BestOfMore(comps: seq<set<Pixel>>, best: seq<Pixel>, comp: seq<Pixel>)
    requires Best(comps, best) && Distinct(comp) && comp != []
    ensures Best(comps + [Elements(comp)], if |comp| > |best| then comp else best)
  {
    DistinctSize(comp);
    hide Elements, Distinct;
    var all := comps + [Elements(comp)];
    assert all[|comps|] == Elements(comp);
    if comps != [] {
      var k :| 0 <= k < |comps| && comps[k] == Elements(best);
      assert all[k] == Elements(best);
    }
  }

  ghost predicate Largest(img: Image, s: set<Pixel>) {
    forall t :: IsComponent(img, t) ==> |t| <= |s|
  }

  /** The smallest box that holds the set. */
  ghost predicate Tight(b: Box, s: set<Pixel>) {
    && (forall p :: p in s ==> b.left <= p.0 <= b.right && b.top <= p.1 <= b.bottom)
    && (exists p :: p in s && p.0 == b.left) && (exists p :: p in s && p.0 == b.right)
    && (exists p :: p in s && p.1 == b.top) && (exists p :: p in s && p.1 == b.bottom)
  }

  /** Once every opaque pixel is marked the best is a largest component. */
  lemma BestIsLargest(img: Image, comps: seq<set<Pixel>>, marked: set<Pixel>, best: seq<Pixel>)
    requires Found(img, comps, marked) && Best(comps, best) && comps != []
    requires Scanned(img, marked, 0, img.height)
    ensures IsComponent(img, Elements(best)) && Largest(img, Elements(best))
  {
    hide ComponentOf, Elements, Connected, Closed;
    forall t | IsComponent(img, t) ensures |t| <= |Elements(best)| {
      var b :| ComponentOf(img, b, t);
      ComponentClosed(img, b, t);
      assert InSome(comps, b);
      var k :| 0 <= k < |comps| && b in comps[k];
      var a :| ComponentOf(img, a, comps[k]);
      ComponentsMeet(img, a, comps[k], b, t, b);
    }
  }

  /** The corners of a list of pixels. */
  method Corners(comp: seq<Pixel>) returns (b: Box)
    requires comp != []
    ensures Tight(b, Elements(comp))
  {
    var p := comp[0];
    b := Box(p.0, p.1, p.0, p.1);
    assert comp[0] in Elements(comp[..1]);
    for i := 1 to |comp|
      invariant Tight(b, Elements(comp[..i]))
    {
      p := comp[i];
      ghost var was := b;
      b := Box(if p.0 < b.left then p.0 else b.left, if p.1 < b.top then p.1 else b.top,
               if p.0 > b.right then p.0 else b.right, if p.1 > b.bottom then p.1 else b.bottom);
      assert Elements(comp[..i + 1]) == Elements(comp[..i]) + {p};
      Wider(was, b, Elements(comp[..i]), p);
    }
    assert comp[..|comp|] == comp;
  }

  lemma Wider(was: Box, b: Box, s: set<Pixel>, p: Pixel)
    requires Tight(was, s)
    requires b.left == (if p.0 < was.left then p.0 else was.left) && b.top == (if p.1 < was.top then p.1 else was.top)
    requires b.right == (if p.0 > was.right then p.0 else was.right) && b.bottom == (if p.1 > was.bottom then p.1 else was.bottom)
    ensures Tight(b, s + {p})
  {
    assert p in s + {p};
    assert forall q :: q in s ==> q in s + {p};
  }

  /** One pixel of the scan: its component is flooded if it is opaque and was not marked. */
  method Consider(img: Image, seen: array2<bool>, x: int, y: int, best0: seq<Pixel>, ghost comps0: seq<set<Pixel>>, ghost marked0: set<Pixel>)
    returns (best: seq<Pixel>, ghost comps: seq<set<Pixel>>, ghost marked: set<Pixel>)
    requires Inside(img, (x, y)) && Marks(img, seen, marked0) && Found(img, comps0, marked0) && Best(comps0, best0)
    modifies seen
    ensures Marks(img, seen, marked) && Found(img, comps, marked) && Best(comps, best)
    ensures marked0 <= marked && (Opaque(img, (x, y)) ==> (x, y) in marked)
  {
    best, comps, marked := best0, comps0, marked0;
    if seen[y, x] || img.alpha(x, y) < ALPHA_MIN { return; }
    FoundClosed(img, comps, marked);
    var comp := Flood(img, seen, (x, y), marked);
    ComponentClosed(img, (x, y), Elements(comp));
    assert comp != [];
    FoundOneMore(img, comps, marked, Elements(comp));
    BestOfMore(comps, best, comp);
    comps, marked := comps + [Elements(comp)], marked + Elements(comp);
    if |comp| > |best| { best := comp; }
  }

  /** Every opaque pixel before column `x` of row `y` is marked. */
  ghost predicate Scanned(img: Image, marked: set<Pixel>, x: int, y: int) {
    forall p :: Opaque(img, p) && (p.1 < y || (p.1 == y && p.0 < x)) ==> p in marked
  }

  lemma ScannedOn(img: Image, was: set<Pixel>, marked: set<Pixel>, x: int, y: int)
    requires Scanned(img, was, x, y) && was <= marked && (Opaque(img, (x, y)) ==> (x, y) in marked)
    ensures Scanned(img, marked, x + 1, y)
    ensures x + 1 == img.width ==> Scanned(img, marked, 0, y + 1)
  {
    forall p | Opaque(img, p) && (p.1 < y || (p.1 == y && p.0 < x + 1)) ensures p in marked {
      assert p == (p.0, p.1);
    }
  }

  /** The scan of all pixels, row by row. */
  method Scan(img: Image, seen: array2<bool>)
    returns (best: seq<Pixel>, ghost comps: seq<set<Pixel>>, ghost marked: set<Pixel>)
    requires Marks(img, seen, {})
    modifies seen
    ensures Found(img, comps, marked) && Best(comps, best)
    ensures Scanned(img, marked, 0, img.height)
  {
    best, comps, marked := [], [], {};
    assert Found(img, comps, marked) && Best(comps, best);
    assert Scanned(img, marked, 0, 0);
    hide Marks, Found, Best, Scanned, Opaque;
    for y := 0 to img.height
      invariant Marks(img, seen, marked) && Found(img, comps, marked) && Best(comps, best)
      invariant Scanned(img, marked, 0, y)
    {
      for x := 0 to img.width
        invariant Marks(img, seen, marked) && Found(img, comps, marked) && Best(comps, best)
        invariant Scanned(img, marked, x, y)
        invariant x == img.width ==> Scanned(img, marked, 0, y + 1)
      {
        ghost var was := marked;
        best, comps, marked := Consider(img, seen, x, y, best, comps, marked);
        ScannedOn(img, was, marked, x, y);
      }
    }
  }

  /** The tight bounding box of a largest component; none exactly where no
      pixel is opaque, where the original raises. */
  method BodyBox(img: Image) returns (box: Option<Box>)
    ensures box.Some? <==> exists p :: Opaque(img, p)
    ensures box.Some? ==> exists s :: IsComponent(img, s) && Largest(img, s) && Tight(box.value, s)
  {
    var seen := new bool[img.height, img.width]((_, _) => false);
    ghost var comps, marked;
    var best;
    best, comps, marked := Scan(img, seen);
    NoneFound(img, comps, marked, best);
    if best == [] { return None; }
    hide Found, Best, IsComponent, Largest, Tight, Opaque;
    var b := Corners(best);
    BestIsLargest(img, comps, marked, best);
    return Some(b);
  }

  lemma NoneFound(img: Image, comps: seq<set<Pixel>>, marked: set<Pixel>, best: seq<Pixel>)
    requires Found(img, comps, marked) && Best(comps, best)
    requires Scanned(img, marked, 0, img.height)
    ensures best != [] <==> exists p :: Opaque(img, p)
    ensures best != [] <==> comps != []
  {
    hide ComponentOf, Elements, Closed;
    if comps != [] {
      var seed :| ComponentOf(img, seed, comps[0]);
      ComponentClosed(img, seed, comps[0]);
    }
  }
}
