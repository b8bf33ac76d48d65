/** get_bbox: the box prompt derived from a mask, the tight bounding box of its
    foreground widened by a margin and clamped to the image. */
module BoundingBox {
  import opened Grids

  /** A 2D box prompt [x_min, y_min, x_max, y_max] in pixel coordinates. */
  datatype Box = Box(xMin: int, yMin: int, xMax: int, yMax: int)

  /** A pixel position as np.where reports it. */
  datatype Cell = Cell(y: nat, x: nat)

  /** The default bbox_shift of get_bbox. */
  const BboxShift: int := 3

  function Max(a: int, b: int): int { if a < b then b else a }
  function Min(a: int, b: int): int { if a < b then a else b }

  /** The foreground cells of row y from column x on, left to right. */
  function WhereRow(m: Grid, y: nat, x: nat): (cells: seq<Cell>)
    requires y < |m| && x <= |m[y]|
    ensures forall c :: c in cells <==> c.y == y && x <= c.x && Positive(m, c.y, c.x)
    decreases |m[y]| - x
  {
    if x == |m[y]| then []
    else (if m[y][x] > 0 then [Cell(y, x)] else []) + WhereRow(m, y, x + 1)
  }

  /** The foreground cells of rows y.. in row-major order. */
  function WhereFrom(m: Grid, y: nat): (cells: seq<Cell>)
    requires y <= |m|
    ensures forall c :: c in cells <==> y <= c.y && Positive(m, c.y, c.x)
    decreases |m| - y
  {
    if y == |m| then [] else WhereRow(m, y, 0) + WhereFrom(m, y + 1)
  }

  /** np.where(m > 0): exactly the foreground cells of m. */
  function Where(m: Grid): (cells: seq<Cell>)
    ensures forall c :: c in cells <==> Positive(m, c.y, c.x)
    ensures forall y: nat, x: nat :: y < |m| && x < |m[y]| && m[y][x] > 0 ==> Cell(y, x) in cells
  {
    WhereFrom(m, 0)
  }

  /** The column indices of the cells (x_indices). */
  function Xs(cells: seq<Cell>): (xs: seq<int>)
    ensures |xs| == |cells| && forall i :: 0 <= i < |cells| ==> xs[i] == cells[i].x
  {
    seq(|cells|, i requires 0 <= i < |cells| => cells[i].x as int)
  }

  /** The row indices of the cells (y_indices). */
  function Ys(cells: seq<Cell>): (ys: seq<int>)
    ensures |ys| == |cells| && forall i :: 0 <= i < |cells| ==> ys[i] == cells[i].y
  {
    seq(|cells|, i requires 0 <= i < |cells| => cells[i].y as int)
  }

  /** np.min: an element of s that no element of s is below. */
  function MinOf(s: seq<int>): (m: int)
    requires |s| > 0
    ensures m in s && forall i :: 0 <= i < |s| ==> m <= s[i]
  {
    if |s| == 1 then s[0]
    else
      var rest := MinOf(s[1..]);
      if s[0] <= rest then s[0] else rest
  }

  /** np.max: an element of s that no element of s is above. */
  function MaxOf(s: seq<int>): (m: int)
    requires |s| > 0
    ensures m in s && forall i :: 0 <= i < |s| ==> s[i] <= m
  {
    if |s| == 1 then s[0]
    else
      var rest := MaxOf(s[1..]);
      if s[0] >= rest then s[0] else rest
  }

  /** The reference characterisation of the tight bounding box of the
      foreground of m: every foreground pixel lies inside t, and each of
      the four edges of t passes through a foreground pixel. */
  ghost predicate IsTightBox(m: Grid, t: Box)
  {
    (forall y, x :: Positive(m, y, x) ==> t.xMin <= x <= t.xMax && t.yMin <= y <= t.yMax) &&
    (exists y :: Positive(m, y, t.xMin)) &&
    (exists y :: Positive(m, y, t.xMax)) &&
    (exists x :: Positive(m, t.yMin, x)) &&
    (exists x :: Positive(m, t.yMax, x))
  }

  /** The tight box as get_bbox computes it, by np.min / np.max over the
      indices np.where returns. */
  function TightBox(m: Grid): Box
    requires |Where(m)| > 0
  {
    var cells := Where(m);
    Box(MinOf(Xs(cells)), MinOf(Ys(cells)), MaxOf(Xs(cells)), MaxOf(Ys(cells)))
  }

  /** The margin and clamping of get_bbox: x to [0, w] and y to [0, h]. */
  function Widen(t: Box, shift: int, h: nat, w: nat): Box
  {
    Box(Max(0, t.xMin - shift), Max(0, t.yMin - shift), Min(w, t.xMax + shift), Min(h, t.yMax + shift))
  }

  /** get_bbox(mask, bbox_shift) for a mask of shape (h, w). None stands for
      the exception np.min raises on an empty selection, which happens
      exactly when the mask has no foreground. */
  function GetBbox(m: Grid, h: nat, w: nat, shift: int): (r: Option<Box>)
    requires IsGrid(m, h, w)
    ensures r.Some? <==> HasForeground(m)
  {
    if |Where(m)| == 0 then None
    else
      assert Positive(m, Where(m)[0].y, Where(m)[0].x);
      Some(Widen(TightBox(m), shift, h, w))
  }

  /** The box computed from np.where's indices meets the reference
      characterisation. */
  lemma TightBoxIsTight(m: Grid)
    requires |Where(m)| > 0
    ensures IsTightBox(m, TightBox(m))
  {
    var cells := Where(m);
    var xs, ys := Xs(cells), Ys(cells);
    var t := TightBox(m);
    forall y, x | Positive(m, y, x)
      ensures t.xMin <= x <= t.xMax && t.yMin <= y <= t.yMax
    {
      assert Cell(y, x) in cells;
      var i :| 0 <= i < |cells| && cells[i] == Cell(y, x);
      assert xs[i] == x && ys[i] == y;
    }
    var i0 :| 0 <= i0 < |xs| && xs[i0] == t.xMin;
    assert Positive(m, cells[i0].y, t.xMin);
    var i1 :| 0 <= i1 < |xs| && xs[i1] == t.xMax;
    assert Positive(m, cells[i1].y, t.xMax);
    var i2 :| 0 <= i2 < |ys| && ys[i2] == t.yMin;
    assert Positive(m, t.yMin, cells[i2].x);
    var i3 :| 0 <= i3 < |ys| && ys[i3] == t.yMax;
    assert Positive(m, t.yMax, cells[i3].x);
  }

  /** The reference characterisation fixes one box. */
  lemma TightBoxUnique(m: Grid, t1: Box, t2: Box)
    requires IsTightBox(m, t1) && IsTightBox(m, t2)
    ensures t1 == t2
  {
    var a :| Positive(m, a, t1.xMin);
    var b :| Positive(m, b, t2.xMin);
    var c :| Positive(m, c, t1.xMax);
    var d :| Positive(m, d, t2.xMax);
    var e :| Positive(m, t1.yMin, e);
    var f :| Positive(m, t2.yMin, f);
    var g :| Positive(m, t1.yMax, g);
    var k :| Positive(m, t2.yMax, k);
  }

  /** get_bbox returns the tight bounding box of the foreground, widened by
      the margin and clamped to [0, w] x [0, h]. */
  lemma GetBboxIsWidenedTightBox(m: Grid, h: nat, w: nat, shift: int, t: Box)
    requires IsGrid(m, h, w) && IsTightBox(m, t)
    ensures GetBbox(m, h, w, shift) == Some(Widen(t, shift, h, w))
  {
    var y :| Positive(m, y, t.xMin);
    assert Cell(y, t.xMin) in Where(m);
    TightBoxIsTight(m);
    TightBoxUnique(m, t, TightBox(m));
  }

  /** The tight box of an (h, w) mask lies on its pixels. */
  lemma TightBoxInside(m: Grid, h: nat, w: nat)
    requires IsGrid(m, h, w) && |Where(m)| > 0
    ensures var t := TightBox(m);
      0 <= t.xMin <= t.xMax < w && 0 <= t.yMin <= t.yMax < h
  {
    var t := TightBox(m);
    TightBoxIsTight(m);
    var a :| Positive(m, a, t.xMin);
    var c :| Positive(m, c, t.xMax);
    var e :| Positive(m, t.yMin, e);
    var g :| Positive(m, t.yMax, g);
  }

  /** A non-negative margin widens a box on the pixels into one that lies
      in [0, w] x [0, h] and contains it. */
  lemma WidenBounds(t: Box, shift: int, h: nat, w: nat)
    requires shift >= 0 && 0 <= t.xMin <= t.xMax < w && 0 <= t.yMin <= t.yMax < h
    ensures var b := Widen(t, shift, h, w);
      0 <= b.xMin <= t.xMin && t.xMax <= b.xMax <= w && 0 <= b.yMin <= t.yMin && t.yMax <= b.yMax <= h
  {
  }

  /** For a mask with foreground and a non-negative margin the box is well
      formed, lies in [0, w] x [0, h] (the upper clamp is w and h, one past
      the last index) and contains every foreground pixel. */
  lemma GetBboxBounds(m: Grid, h: nat, w: nat, shift: int)
    requires IsGrid(m, h, w) && HasForeground(m) && shift >= 0
    ensures GetBbox(m, h, w, shift).Some?
    ensures var b := GetBbox(m, h, w, shift).value;
      0 <= b.xMin <= b.xMax <= w && 0 <= b.yMin <= b.yMax <= h &&
      forall y, x :: Positive(m, y, x) ==> b.xMin <= x <= b.xMax && b.yMin <= y <= b.yMax
  {
    var y0, x0 :| 0 <= y0 < |m| && 0 <= x0 < |m[y0]| && m[y0][x0] > 0;
    assert Cell(y0, x0) in Where(m);
    TightBoxInside(m, h, w);
    TightBoxIsTight(m);
    WidenBounds(TightBox(m), shift, h, w);
  }

  /** The upper clamp is w (resp. h), not w - 1: a foreground pixel within
      the margin of the right (resp. bottom) border pushes x_max to w
      (resp. y_max to h). */
  lemma GetBboxReachesBorder(m: Grid, h: nat, w: nat, shift: int, y: int, x: int)
    requires IsGrid(m, h, w) && Positive(m, y, x)
    ensures GetBbox(m, h, w, shift).Some?
    ensures x + shift >= w ==> GetBbox(m, h, w, shift).value.xMax == w
    ensures y + shift >= h ==> GetBbox(m, h, w, shift).value.yMax == h
  {
    assert Cell(y, x) in Where(m);
    TightBoxIsTight(m);
  }
}
