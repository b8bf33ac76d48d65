/** efficientsam_infer: one box prompt in, one binary mask out. The network's
    mask decoder is a parameter, `predict`, taking an embedding, the prompt
    points with their type labels, and the original height and width, and
    returning candidate masks as (predicted IoU, logit map) pairs. */
module Inference {
  import opened Grids
  import opened BoundingBox

  datatype Point = Point(x: int, y: int)

  /** The prompt handed to the mask decoder: points and their type labels. */
  datatype Prompt = Prompt(points: seq<Point>, labels: seq<int>)

  /** One candidate mask: its predicted IoU and its logit map. */
  datatype Candidate = Candidate(iou: int, logits: Grid)

  /** The mask decoder (predict_masks) as an uninterpreted pure function. */
  type Predictor<!E> = (E, Prompt, nat, nat) -> seq<Candidate>

  /** The point-type labels of a box prompt: 2 for the top-left corner and
      3 for the bottom-right corner. */
  const BoxCornerLabels: seq<int> := [2, 3]

  /** np.array([x_min, y_min, x_max, y_max]) */
  function Coords(b: Box): (s: seq<int>)
    ensures |s| == 4
  {
    [b.xMin, b.yMin, b.xMax, b.yMax]
  }

  /** torch.reshape(flat, [1, 1, -1, 2]): consecutive pairs become points. */
  function PairUp(flat: seq<int>): (pts: seq<Point>)
    requires |flat| % 2 == 0
    ensures |pts| == |flat| / 2
    ensures forall i :: 0 <= i < |pts| ==> pts[i] == Point(flat[2 * i], flat[2 * i + 1])
  {
    if |flat| == 0 then [] else [Point(flat[0], flat[1])] + PairUp(flat[2..])
  }

  /** The inverse of PairUp: the coordinates of the points, in order. */
  function Flatten(pts: seq<Point>): (flat: seq<int>)
    ensures |flat| == 2 * |pts|
  {
    if |pts| == 0 then [] else [pts[0].x, pts[0].y] + Flatten(pts[1..])
  }

  lemma {:induction false} FlattenPairUp(flat: seq<int>)
    requires |flat| % 2 == 0
    ensures Flatten(PairUp(flat)) == flat
    decreases |flat|
  {
    if |flat| > 0 {
      FlattenPairUp(flat[2..]);
      assert PairUp(flat)[1..] == PairUp(flat[2..]);
    }
  }

  lemma {:induction false} PairUpFlatten(pts: seq<Point>)
    ensures PairUp(Flatten(pts)) == pts
  {
    if |pts| > 0 {
      PairUpFlatten(pts[1..]);
      assert Flatten(pts)[2..] == Flatten(pts[1..]);
    }
  }

  /** The prompt efficientsam_infer builds from a box: the two corners
      (box[0], box[1]) and (box[2], box[3]), labelled 2 and 3. */
  function BoxPrompt(b: Box): (p: Prompt)
    ensures p.points == [Point(b.xMin, b.yMin), Point(b.xMax, b.yMax)]
    ensures p.labels == [2, 3]
  {
    Prompt(PairUp(Coords(b)), BoxCornerLabels)
  }

  /** The box can be read back from its prompt's points. */
  lemma BoxPromptKeepsBox(b: Box)
    ensures Flatten(BoxPrompt(b).points) == Coords(b)
  {
    FlattenPairUp(Coords(b));
  }

  /** Candidate k has the highest predicted IoU. */
  predicate IsBest(cands: seq<Candidate>, k: int)
  {
    0 <= k < |cands| && forall j :: 0 <= j < |cands| ==> cands[j].iou <= cands[k].iou
  }

  /** The first candidate after sorting by predicted IoU, descending. The
      sort is not stable, so only maximality is promised, not which of
      several equal scores wins. */
  function Best(cands: seq<Candidate>): (k: nat)
    requires |cands| > 0
    ensures IsBest(cands, k)
  {
    if |cands| == 1 then 0
    else
      var k := Best(cands[..|cands| - 1]);
      if cands[|cands| - 1].iou > cands[k].iou then |cands| - 1 else k
  }

  /** torch.ge(logits, 0) */
  function Threshold(logits: Grid, h: nat, w: nat): (m: Mask)
    requires IsGrid(logits, h, w)
    ensures IsGrid(m, h, w)
    ensures forall y, x :: 0 <= y < h && 0 <= x < w ==> (m[y][x] <==> logits[y][x] >= 0)
  {
    seq(h, y requires 0 <= y < h => seq(w, x requires 0 <= x < w => logits[y][x] >= 0))
  }

  /** What the mask decoder is expected to return for an (h, w) image: at
      least one candidate, each with an (h, w) logit map. */
  predicate ValidOutput(cands: seq<Candidate>, h: nat, w: nat)
  {
    |cands| > 0 && forall k :: 0 <= k < |cands| ==> IsGrid(cands[k].logits, h, w)
  }

  /** The decoder returns valid output for every embedding and prompt. */
  ghost predicate OracleValid<E(!new)>(predict: Predictor<E>, h: nat, w: nat)
  {
    forall e, p :: ValidOutput(predict(e, p, h, w), h, w)
  }

  /** efficientsam_infer(embedding, box, model, H, W): the (h, w) mask of the
      candidate with the highest predicted IoU, thresholded at 0. */
  function Infer<E>(predict: Predictor<E>, emb: E, b: Box, h: nat, w: nat): (mask: Mask)
    requires ValidOutput(predict(emb, BoxPrompt(b), h, w), h, w)
    ensures IsGrid(mask, h, w)
    ensures var cands := predict(emb, BoxPrompt(b), h, w);
      exists k :: IsBest(cands, k) &&
        forall y, x :: 0 <= y < h && 0 <= x < w ==> (mask[y][x] <==> cands[k].logits[y][x] >= 0)
  {
    var cands := predict(emb, BoxPrompt(b), h, w);
    Threshold(cands[Best(cands)].logits, h, w)
  }
}
