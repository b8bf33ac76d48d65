/** EfficientSAM_infer_npz_2D: one embedding for the image, one mask per
    box, the masks written into a uint8 label map in box order. */
module Segment2D {
  import opened Grids
  import opened BoundingBox
  import opened Inference
  import opened LabelMaps

  /** Which boxes' masks cover pixel (y, x), in box order. */
  function Covers<E>(predict: Predictor<E>, emb: E, boxes: seq<Box>, h: nat, w: nat, y: nat, x: nat): (c: seq<bool>)
    requires forall k :: 0 <= k < |boxes| ==> ValidOutput(predict(emb, BoxPrompt(boxes[k]), h, w), h, w)
    requires y < h && x < w
    ensures |c| == |boxes|
  {
    if |boxes| == 0 then []
    else
      var n := |boxes| - 1;
      Covers(predict, emb, boxes[..n], h, w, y, x) + [Infer(predict, emb, boxes[n], h, w)[y][x]]
  }

  /** The label map of one 2D image: segs starts at zero and box k (from 1)
      writes k wherever its mask is set, so each pixel ends up with the last
      box whose mask covers it, or 0; with no boxes the map is all zero. */
  method InferNpz2D<E>(predict: Predictor<E>, emb: E, boxes: seq<Box>, h: nat, w: nat) returns (segs: array2<int>)
    requires |boxes| <= 255
    requires forall k :: 0 <= k < |boxes| ==> ValidOutput(predict(emb, BoxPrompt(boxes[k]), h, w), h, w)
    ensures fresh(segs) && segs.Length0 == h && segs.Length1 == w
    ensures forall y, x :: 0 <= y < h && 0 <= x < w ==>
      segs[y, x] == LastTrue(Covers(predict, emb, boxes, h, w, y, x)) && 0 <= segs[y, x] <= |boxes|
  {
    segs := new int[h, w]((y, x) => 0);
    for k := 0 to |boxes|
      invariant forall y, x :: 0 <= y < h && 0 <= x < w ==>
        segs[y, x] == LastTrue(Covers(predict, emb, boxes[..k], h, w, y, x))
    {
      var mask := Infer(predict, emb, boxes[k], h, w);
      forall y, x | 0 <= y < h && 0 <= x < w && mask[y][x] {
        segs[y, x] := k + 1;
      }
      assert boxes[..k + 1][..k] == boxes[..k];
    }
    assert boxes[..|boxes|] == boxes;
  }
}
