/** Two-dimensional grids of labels, logits and boolean masks, indexed g[y][x]
    (row y, column x), as the numpy arrays of the inference script are. */
module Grids {

  datatype Option<T> = None | Some(value: T)

  /** A label map slice or a logit map: one integer per pixel. */
  type Grid = seq<seq<int>>

  /** A binary segmentation mask. */
  type Mask = seq<seq<bool>>

  /** g has shape (h, w). */
  predicate IsGrid<T>(g: seq<seq<T>>, h: nat, w: nat)
  {
    |g| == h && forall y :: 0 <= y < h ==> |g[y]| == w
  }

  /** Pixel (y, x) lies inside g and is foreground (strictly positive). */
  predicate Positive(g: Grid, y: int, x: int)
  {
    0 <= y < |g| && 0 <= x < |g[y]| && g[y][x] > 0
  }

  /** np.max(g) > 0: some pixel of g is strictly positive. */
  predicate HasForeground(g: Grid)
  {
    exists y, x | 0 <= y < |g| && 0 <= x < |g[y]| :: g[y][x] > 0
  }

  /** np.zeros((h, w)). */
  function Zeros(h: nat, w: nat): (g: Grid)
    ensures IsGrid(g, h, w)
    ensures forall y, x :: 0 <= y < h && 0 <= x < w ==> g[y][x] == 0
  {
    seq(h, y => seq(w, x => 0))
  }

  lemma ZerosHaveNoForeground(h: nat, w: nat)
    ensures !HasForeground(Zeros(h, w))
  {
  }
}
