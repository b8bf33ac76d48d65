/** EfficientSAM_infer_npz_3D: per 3D box, a walk outward from the middle
    slice, each slice prompted by the box of the neighbouring slice of the
    label map built so far, into a scratch volume that is merged into the
    label map once the walk is done. */
module Segment3D {
  import opened Grids
  import opened BoundingBox
  import opened Inference
  import opened LabelMaps

  /** A 3D box prompt [x_min, y_min, z_min, x_max, y_max, z_max]. */
  datatype Box3D = Box3D(xMin: int, yMin: int, zMin: int, xMax: int, yMax: int, zMax: int)
  {
    /** mid_slice_bbox_2d: the box with its z components dropped. */
    function Seed(): Box { Box(xMin, yMin, xMax, yMax) }
  }

  /** A label volume, indexed v[z][y][x]. */
  type Volume = seq<Grid>

  predicate IsVolume(v: Volume, d: nat, h: nat, w: nat)
  {
    |v| == d && forall z :: 0 <= z < d ==> IsGrid(v[z], h, w)
  }

  /** np.zeros((d, h, w)) */
  function ZeroVolume(d: nat, h: nat, w: nat): (v: Volume)
    ensures IsVolume(v, d, h, w)
    ensures forall z :: 0 <= z < d ==> v[z] == Zeros(h, w)
  {
    seq(d, z => Zeros(h, w))
  }

  /** A box that passes the z_min < z_max assertion and whose z range lies
      inside a volume of depth d. */
  predicate Walkable(b: Box3D, d: nat)
  {
    0 <= b.zMin < b.zMax <= d
  }

  /** int((z_max - z_min) / 2 + z_min). For 0 <= z_min < z_max the true
      quotient is non-negative, so int() truncation is the floor. The middle
      slice lies in [z_min, z_max) and splits it evenly: the forward pass
      gets as many slices as lie below it, or one more. */
  function ZMiddle(zMin: int, zMax: int): (zMid: int)
    requires 0 <= zMin < zMax
    ensures zMin <= zMid < zMax
    ensures 0 <= (zMax - zMid) - (zMid - zMin) <= 1
  {
    zMin + (zMax - zMin) / 2
  }

  /** range(lo, hi): lo, lo + 1, ..., hi - 1. */
  function Ascending(lo: int, hi: int): (s: seq<int>)
    ensures |s| == if lo < hi then hi - lo else 0
    decreases hi - lo
  {
    if hi <= lo then [] else Ascending(lo, hi - 1) + [hi - 1]
  }

  /** The i-th slice of range(lo, hi) is lo + i. */
  lemma {:induction false} AscendingAt(lo: int, hi: int)
    ensures forall i :: 0 <= i < |Ascending(lo, hi)| ==> Ascending(lo, hi)[i] == lo + i
    decreases hi - lo
  {
    if lo < hi {
      AscendingAt(lo, hi - 1);
    }
  }

  /** range(hi, lo, -1): hi, hi - 1, ..., lo + 1. */
  function Descending(hi: int, lo: int): (s: seq<int>)
    ensures |s| == if lo < hi then hi - lo else 0
    decreases hi - lo
  {
    if hi <= lo then [] else Descending(hi, lo + 1) + [lo + 1]
  }

  /** The i-th slice of range(hi, lo, -1) is hi - i. */
  lemma {:induction false} DescendingAt(hi: int, lo: int)
    ensures forall i :: 0 <= i < |Descending(hi, lo)| ==> Descending(hi, lo)[i] == hi - i
    decreases hi - lo
  {
    if lo < hi {
      DescendingAt(hi, lo + 1);
    }
  }

  /** The slices the two passes visit, in order: the forward pass
      range(z_middle, z_max), then the backward pass range(z_middle - 1, z_min, -1). */
  function WalkOrder(b: Box3D): (s: seq<int>)
    requires 0 <= b.zMin < b.zMax
  {
    var zMid := ZMiddle(b.zMin, b.zMax);
    Ascending(zMid, b.zMax) + Descending(zMid - 1, b.zMin)
  }

  /** Slice z is visited by one of the two passes. */
  predicate Walked(b: Box3D, z: int)
    requires 0 <= b.zMin < b.zMax
  {
    var zMid := ZMiddle(b.zMin, b.zMax);
    zMid <= z < b.zMax || b.zMin < z < zMid
  }

  /** Each slice is visited at most once, and the visited slices are those
      strictly between z_min and z_max, plus z_min itself only when
      z_max = z_min + 1; z_max is never visited. */
  lemma WalkOrderVisits(b: Box3D)
    requires 0 <= b.zMin < b.zMax
    ensures forall i, j :: 0 <= i < j < |WalkOrder(b)| ==> WalkOrder(b)[i] != WalkOrder(b)[j]
    ensures forall z :: z in WalkOrder(b) <==> Walked(b, z)
    ensures forall z :: Walked(b, z) <==> b.zMin < z < b.zMax || (z == b.zMin && b.zMax == b.zMin + 1)
  {
    var zMid := ZMiddle(b.zMin, b.zMax);
    var up, down := Ascending(zMid, b.zMax), Descending(zMid - 1, b.zMin);
    AscendingAt(zMid, b.zMax);
    DescendingAt(zMid - 1, b.zMin);
    assert WalkOrder(b) == up + down;
    forall z | Walked(b, z) ensures z in WalkOrder(b) {
      if z >= zMid {
        assert up[z - zMid] == z;
      } else {
        assert down[zMid - 1 - z] == z;
      }
    }
  }

  /** The prompt for a slice when the neighbouring slice of the label map is
      g: get_bbox of g if np.max(g) > 0, else the seed box. */
  function NeighbourPrompt(g: Grid, h: nat, w: nat, seed: Box): Box
    requires IsGrid(g, h, w)
  {
    if HasForeground(g) then GetBbox(g, h, w, BboxShift).value else seed
  }

  /** The prompt for slice z of box b's walk, given the label map vol as it
      stood before the walk: slice z_middle uses the seed box; a forward
      slice looks at slice z - 1 of vol, a backward slice at slice z + 1. */
  function SlicePrompt(vol: Volume, b: Box3D, z: int, h: nat, w: nat): Box
    requires IsVolume(vol, |vol|, h, w) && Walkable(b, |vol|) && Walked(b, z)
  {
    var zMid := ZMiddle(b.zMin, b.zMax);
    if z == zMid then b.Seed()
    else if z > zMid then NeighbourPrompt(vol[z - 1], h, w, b.Seed())
    else NeighbourPrompt(vol[z + 1], h, w, b.Seed())
  }

  /** segs_3d_temp[z, mask > 0] = idx on a zero slice. */
  function Paint(mask: Mask, h: nat, w: nat, idx: int): (g: Grid)
    requires IsGrid(mask, h, w)
    ensures IsGrid(g, h, w)
  {
    seq(h, y requires 0 <= y < h => seq(w, x requires 0 <= x < w => if mask[y][x] then idx else 0))
  }

  /** The scratch volume segs_3d_temp after box b's walk under label idx,
      given the label map vol before the walk. */
  function BoxTemp(predict: Predictor<nat>, vol: Volume, b: Box3D, idx: int, h: nat, w: nat): (t: Volume)
    requires IsVolume(vol, |vol|, h, w) && Walkable(b, |vol|) && OracleValid(predict, h, w)
    ensures IsVolume(t, |vol|, h, w)
  {
    seq(|vol|, z requires 0 <= z < |vol| =>
      if Walked(b, z) then Paint(Infer<nat>(predict, z, SlicePrompt(vol, b, z, h, w), h, w), h, w, idx)
      else Zeros(h, w))
  }

  /** BoxTemp at one voxel: idx where the walk visits the slice and the
      slice's mask is set, 0 elsewhere. */
  lemma BoxTempAt(predict: Predictor<nat>, vol: Volume, b: Box3D, idx: int, h: nat, w: nat, z: nat, y: nat, x: nat)
    requires IsVolume(vol, |vol|, h, w) && Walkable(b, |vol|) && OracleValid(predict, h, w)
    requires z < |vol| && y < h && x < w
    ensures BoxTemp(predict, vol, b, idx, h, w)[z][y][x] ==
      if Walked(b, z) && Infer<nat>(predict, z, SlicePrompt(vol, b, z, h, w), h, w)[y][x] then idx else 0
  {
  }

  /** segs[temp > 0] = idx */
  function Merge(vol: Volume, t: Volume, idx: int, d: nat, h: nat, w: nat): (r: Volume)
    requires IsVolume(vol, d, h, w) && IsVolume(t, d, h, w)
    ensures IsVolume(r, d, h, w)
  {
    seq(d, z requires 0 <= z < d =>
      seq(h, y requires 0 <= y < h =>
        seq(w, x requires 0 <= x < w => if t[z][y][x] > 0 then idx else vol[z][y][x])))
  }

  /** The label map after the boxes, numbered from 1, have been walked and
      merged in order. */
  function Label3D(predict: Predictor<nat>, boxes: seq<Box3D>, d: nat, h: nat, w: nat): (v: Volume)
    requires forall k :: 0 <= k < |boxes| ==> Walkable(boxes[k], d)
    requires OracleValid(predict, h, w)
    ensures IsVolume(v, d, h, w)
  {
    if |boxes| == 0 then ZeroVolume(d, h, w)
    else
      var n := |boxes| - 1;
      var prev := Label3D(predict, boxes[..n], d, h, w);
      Merge(prev, BoxTemp(predict, prev, boxes[n], n + 1, h, w), n + 1, d, h, w)
  }

  /** Box k's scratch volume, walked against the label map of the boxes
      before it. */
  function TempOf(predict: Predictor<nat>, boxes: seq<Box3D>, k: nat, d: nat, h: nat, w: nat): (t: Volume)
    requires forall j :: 0 <= j < |boxes| ==> Walkable(boxes[j], d)
    requires OracleValid(predict, h, w) && k < |boxes|
    ensures IsVolume(t, d, h, w)
  {
    BoxTemp(predict, Label3D(predict, boxes[..k], d, h, w), boxes[k], k + 1, h, w)
  }

  /** Which boxes' scratch volumes are set at voxel (z, y, x), in box order. */
  function Writers(predict: Predictor<nat>, boxes: seq<Box3D>, d: nat, h: nat, w: nat, z: nat, y: nat, x: nat): (c: seq<bool>)
    requires forall j :: 0 <= j < |boxes| ==> Walkable(boxes[j], d)
    requires OracleValid(predict, h, w) && z < d && y < h && x < w
    ensures |c| == |boxes|
  {
    seq(|boxes|, k requires 0 <= k < |boxes| => TempOf(predict, boxes, k, d, h, w)[z][y][x] > 0)
  }

  /** A scratch volume holds only 0 and idx, and idx only on the slices the
      walk visits: never on z_max, and on z_min only when z_max = z_min + 1. */
  lemma BoxTempSlices(predict: Predictor<nat>, vol: Volume, b: Box3D, idx: int, h: nat, w: nat, z: nat, y: nat, x: nat)
    requires IsVolume(vol, |vol|, h, w) && Walkable(b, |vol|) && OracleValid(predict, h, w)
    requires z < |vol| && y < h && x < w
    ensures var v := BoxTemp(predict, vol, b, idx, h, w)[z][y][x];
      (v == 0 || v == idx) &&
      (v != 0 ==> b.zMin < z < b.zMax || (z == b.zMin && b.zMax == b.zMin + 1))
  {
    WalkOrderVisits(b);
  }

  /** One step of Label3D: the last box's scratch volume, walked against
      the label map of the boxes before it, is merged into that map. */
  lemma Label3DStep(predict: Predictor<nat>, boxes: seq<Box3D>, n: nat, d: nat, h: nat, w: nat)
    requires forall j :: 0 <= j < |boxes| ==> Walkable(boxes[j], d)
    requires OracleValid(predict, h, w) && |boxes| == n + 1
    ensures Label3D(predict, boxes, d, h, w) ==
      Merge(Label3D(predict, boxes[..n], d, h, w), TempOf(predict, boxes, n, d, h, w), n + 1, d, h, w)
  {
  }

  /** Merge at one voxel. */
  lemma MergeAt(vol: Volume, t: Volume, idx: int, d: nat, h: nat, w: nat, z: nat, y: nat, x: nat)
    requires IsVolume(vol, d, h, w) && IsVolume(t, d, h, w) && z < d && y < h && x < w
    ensures Merge(vol, t, idx, d, h, w)[z][y][x] == if t[z][y][x] > 0 then idx else vol[z][y][x]
  {
  }

  /** The writers of a prefix of the boxes are a prefix of the writers. */
  lemma WritersPrefix(predict: Predictor<nat>, boxes: seq<Box3D>, n: nat, d: nat, h: nat, w: nat, z: nat, y: nat, x: nat)
    requires forall j :: 0 <= j < |boxes| ==> Walkable(boxes[j], d)
    requires OracleValid(predict, h, w) && z < d && y < h && x < w && n <= |boxes|
    ensures Writers(predict, boxes[..n], d, h, w, z, y, x) == Writers(predict, boxes, d, h, w, z, y, x)[..n]
  {
    var prefix := boxes[..n];
    forall k | 0 <= k < n
      ensures TempOf(predict, prefix, k, d, h, w) == TempOf(predict, boxes, k, d, h, w)
    {
      assert prefix[..k] == boxes[..k];
    }
  }

  /** The last writer wins: each voxel of the label map holds the number of
      the last box whose scratch volume is set there, or 0. */
  lemma {:induction false} Label3DLastWriter(predict: Predictor<nat>, boxes: seq<Box3D>, d: nat, h: nat, w: nat, z: nat, y: nat, x: nat)
    requires forall j :: 0 <= j < |boxes| ==> Walkable(boxes[j], d)
    requires OracleValid(predict, h, w) && z < d && y < h && x < w
    ensures Label3D(predict, boxes, d, h, w)[z][y][x] == LastTrue(Writers(predict, boxes, d, h, w, z, y, x))
    decreases |boxes|
  {
    if |boxes| > 0 {
      var n := |boxes| - 1;
      Label3DLastWriter(predict, boxes[..n], d, h, w, z, y, x);
      Label3DStep(predict, boxes, n, d, h, w);
      MergeAt(Label3D(predict, boxes[..n], d, h, w), TempOf(predict, boxes, n, d, h, w), n + 1, d, h, w, z, y, x);
      WritersPrefix(predict, boxes, n, d, h, w, z, y, x);
    }
  }

  /** Every label lies in 0..N for N boxes. */
  lemma Label3DRange(predict: Predictor<nat>, boxes: seq<Box3D>, d: nat, h: nat, w: nat, z: nat, y: nat, x: nat)
    requires forall j :: 0 <= j < |boxes| ==> Walkable(boxes[j], d)
    requires OracleValid(predict, h, w) && z < d && y < h && x < w
    ensures 0 <= Label3D(predict, boxes, d, h, w)[z][y][x] <= |boxes|
  {
    Label3DLastWriter(predict, boxes, d, h, w, z, y, x);
  }

  /** Because prompts are read from the label map before the walk, the first
      box never propagates: every slice of its walk uses the seed box. */
  lemma FirstBoxUsesSeed(b: Box3D, d: nat, h: nat, w: nat, z: int)
    requires Walkable(b, d) && Walked(b, z)
    ensures SlicePrompt(ZeroVolume(d, h, w), b, z, h, w) == b.Seed()
  {
    ZerosHaveNoForeground(h, w);
  }

  /** A slice away from the middle whose neighbour in the label map has
      foreground is prompted with that neighbour's tight bounding box,
      widened by 3 and clamped to [0, w] x [0, h]. */
  lemma PromptFromNeighbour(vol: Volume, b: Box3D, z: int, h: nat, w: nat, t: Box)
    requires IsVolume(vol, |vol|, h, w) && Walkable(b, |vol|) && Walked(b, z)
    requires z != ZMiddle(b.zMin, b.zMax)
    requires var n := if z > ZMiddle(b.zMin, b.zMax) then z - 1 else z + 1;
      IsTightBox(vol[n], t)
    ensures SlicePrompt(vol, b, z, h, w) == Widen(t, BboxShift, h, w)
  {
    var n := if z > ZMiddle(b.zMin, b.zMax) then z - 1 else z + 1;
    var y :| Positive(vol[n], y, t.xMin);
    assert HasForeground(vol[n]);
    GetBboxIsWidenedTightBox(vol[n], h, w, BboxShift, t);
  }

  /** segs[z, :, :] */
  function SliceOf(a: array3<int>, z: nat): (g: Grid)
    reads a
    requires z < a.Length0
    ensures IsGrid(g, a.Length1, a.Length2)
  {
    seq(a.Length1, y requires 0 <= y < a.Length1 reads a =>
      seq(a.Length2, x requires 0 <= x < a.Length2 reads a => a[z, y, x]))
  }

  /** The contents of a 3D array as a volume. */
  ghost function VolumeOf(a: array3<int>): (v: Volume)
    reads a
    ensures IsVolume(v, a.Length0, a.Length1, a.Length2)
  {
    seq(a.Length0, z requires 0 <= z < a.Length0 reads a => SliceOf(a, z))
  }

  /** Two volumes of one shape that agree voxel by voxel are equal. */
  lemma VolumeExt(u: Volume, v: Volume, d: nat, h: nat, w: nat)
    requires IsVolume(u, d, h, w) && IsVolume(v, d, h, w)
    requires forall z, y, x :: 0 <= z < d && 0 <= y < h && 0 <= x < w ==> u[z][y][x] == v[z][y][x]
    ensures u == v
  {
    forall z | 0 <= z < d ensures u[z] == v[z] {
      forall y | 0 <= y < h ensures u[z][y] == v[z][y] {
      }
    }
  }

  /** segs[segs_3d_temp > 0] = idx: voxels where the scratch volume is set
      take idx; every other voxel keeps its label. */
  method MergeInto(segs: array3<int>, temp: array3<int>, idx: int)
    requires temp != segs
    requires temp.Length0 == segs.Length0 && temp.Length1 == segs.Length1 && temp.Length2 == segs.Length2
    modifies segs
    ensures forall z, y, x :: 0 <= z < segs.Length0 && 0 <= y < segs.Length1 && 0 <= x < segs.Length2 ==>
      segs[z, y, x] == if temp[z, y, x] > 0 then idx else old(segs[z, y, x])
  {
    forall z, y, x | 0 <= z < segs.Length0 && 0 <= y < segs.Length1 && 0 <= x < segs.Length2 && temp[z, y, x] > 0 {
      segs[z, y, x] := idx;
    }
  }

  /** SlicePrompt unfolded: the middle slice uses the seed box, any other
      slice the prompt derived from its neighbour n. */
  lemma SlicePromptNeighbour(vol: Volume, b: Box3D, z: int, h: nat, w: nat, n: int)
    requires IsVolume(vol, |vol|, h, w) && Walkable(b, |vol|) && Walked(b, z)
    requires z != ZMiddle(b.zMin, b.zMax)
    requires n == if z > ZMiddle(b.zMin, b.zMax) then z - 1 else z + 1
    ensures 0 <= n < |vol|
    ensures SlicePrompt(vol, b, z, h, w) == NeighbourPrompt(vol[n], h, w, b.Seed())
  {
  }

  /** The prompt computation of one slice of the walk, reading segs. */
  method ChoosePrompt(segs: array3<int>, b: Box3D, z: nat) returns (box: Box)
    requires Walkable(b, segs.Length0) && Walked(b, z)
    ensures box == SlicePrompt(VolumeOf(segs), b, z, segs.Length1, segs.Length2)
  {
    var h, w := segs.Length1, segs.Length2;
    var zMid := ZMiddle(b.zMin, b.zMax);
    var seed := b.Seed();
    if z == zMid {
      return seed;
    }
    var n: nat := if z > zMid then z - 1 else z + 1;
    ghost var vol := VolumeOf(segs);
    SlicePromptNeighbour(vol, b, z, h, w, n);
    var pre := SliceOf(segs, n);
    assert pre == vol[n];
    if HasForeground(pre) {
      box := GetBbox(pre, h, w, BboxShift).value;
    } else {
      box := seed;
    }
  }

  /** The scratch volume holds t on the slices lo..hi - 1 and 0 elsewhere. */
  ghost predicate Filled(temp: array3<int>, t: Volume, lo: int, hi: int)
    reads temp
  {
    IsVolume(t, temp.Length0, temp.Length1, temp.Length2) &&
    forall z, y, x :: 0 <= z < temp.Length0 && 0 <= y < temp.Length1 && 0 <= x < temp.Length2 ==>
      temp[z, y, x] == if lo <= z < hi then t[z][y][x] else 0
  }

  /** segs_3d_temp[z, mask > 0] = idx on a slice next to the slices already
      done, when t holds exactly that painting on slice z: the done range
      grows by slice z. */
  method PaintSlice(temp: array3<int>, z: nat, mask: Mask, idx: int, ghost t: Volume, ghost lo: int, ghost hi: int)
    requires z < temp.Length0 && IsGrid(mask, temp.Length1, temp.Length2)
    requires Filled(temp, t, lo, hi) && (z == hi || z == lo - 1) && lo <= hi
    requires forall y, x :: 0 <= y < temp.Length1 && 0 <= x < temp.Length2 ==>
      t[z][y][x] == if mask[y][x] then idx else 0
    modifies temp
    ensures z == hi ==> Filled(temp, t, lo, hi + 1)
    ensures z == lo - 1 ==> Filled(temp, t, lo - 1, hi)
  {
    forall y, x | 0 <= y < temp.Length1 && 0 <= x < temp.Length2 && mask[y][x] {
      temp[z, y, x] := idx;
    }
    ghost var lo', hi' := if z == hi then lo else z, if z == hi then hi + 1 else hi;
    forall z', y, x | 0 <= z' < temp.Length0 && 0 <= y < temp.Length1 && 0 <= x < temp.Length2
      ensures temp[z', y, x] == if lo' <= z' < hi' then t[z'][y][x] else 0
    {
      if z' != z {
        assert temp[z', y, x] == old(temp[z', y, x]);
      }
    }
  }

  /** One slice of the walk next to the slices already done: choose its
      prompt from segs, infer its mask and paint the mask into slice z of
      the scratch volume under label idx. t is the scratch volume the whole
      walk produces. */
  method VisitSlice(predict: Predictor<nat>, segs: array3<int>, temp: array3<int>, b: Box3D, idx: int, z: nat,
                    ghost vol: Volume, ghost t: Volume, ghost lo: int, ghost hi: int)
    requires temp != segs && Walkable(b, segs.Length0) && Walked(b, z)
    requires OracleValid(predict, segs.Length1, segs.Length2)
    requires temp.Length0 == segs.Length0 && temp.Length1 == segs.Length1 && temp.Length2 == segs.Length2
    requires vol == VolumeOf(segs) && t == BoxTemp(predict, vol, b, idx, segs.Length1, segs.Length2)
    requires Filled(temp, t, lo, hi) && (z == hi || z == lo - 1) && lo <= hi
    modifies temp
    ensures z == hi ==> Filled(temp, t, lo, hi + 1)
    ensures z == lo - 1 ==> Filled(temp, t, lo - 1, hi)
  {
    var h, w := segs.Length1, segs.Length2;
    var box := ChoosePrompt(segs, b, z);
    var mask := Infer(predict, z, box, h, w);
    forall y, x | 0 <= y < h && 0 <= x < w
      ensures t[z][y][x] == if mask[y][x] then idx else 0
    {
      BoxTempAt(predict, vol, b, idx, h, w, z, y, x);
    }
    PaintSlice(temp, z, mask, idx, t, lo, hi);
  }

  /** The forward pass: for z in range(z_middle, z_max), ascending, visit
      slice z. */
  method ForwardPass(predict: Predictor<nat>, segs: array3<int>, temp: array3<int>, b: Box3D, idx: int, ghost vol: Volume, ghost t: Volume)
    requires temp != segs && Walkable(b, segs.Length0) && OracleValid(predict, segs.Length1, segs.Length2)
    requires temp.Length0 == segs.Length0 && temp.Length1 == segs.Length1 && temp.Length2 == segs.Length2
    requires vol == VolumeOf(segs) && t == BoxTemp(predict, vol, b, idx, segs.Length1, segs.Length2)
    requires Filled(temp, t, ZMiddle(b.zMin, b.zMax), ZMiddle(b.zMin, b.zMax))
    modifies temp
    ensures Filled(temp, t, ZMiddle(b.zMin, b.zMax), b.zMax)
  {
    var zMid := ZMiddle(b.zMin, b.zMax);
    for z := zMid to b.zMax
      invariant Filled(temp, t, zMid, z)
    {
      VisitSlice(predict, segs, temp, b, idx, z, vol, t, zMid, z);
    }
  }

  /** The backward pass: for z in range(z_middle - 1, z_min, -1), descending,
      visit slice z. */
  method BackwardPass(predict: Predictor<nat>, segs: array3<int>, temp: array3<int>, b: Box3D, idx: int, ghost vol: Volume, ghost t: Volume)
    requires temp != segs && Walkable(b, segs.Length0) && OracleValid(predict, segs.Length1, segs.Length2)
    requires temp.Length0 == segs.Length0 && temp.Length1 == segs.Length1 && temp.Length2 == segs.Length2
    requires vol == VolumeOf(segs) && t == BoxTemp(predict, vol, b, idx, segs.Length1, segs.Length2)
    requires Filled(temp, t, ZMiddle(b.zMin, b.zMax), b.zMax)
    modifies temp
    ensures Filled(temp, t, if b.zMax == b.zMin + 1 then b.zMin else b.zMin + 1, b.zMax)
  {
    var zMid := ZMiddle(b.zMin, b.zMax);
    var z := zMid - 1;
    while z > b.zMin
      invariant b.zMin - 1 <= z < zMid && (z < b.zMin ==> z == zMid - 1)
      invariant Filled(temp, t, z + 1, b.zMax)
      decreases z
    {
      VisitSlice(predict, segs, temp, b, idx, z, vol, t, z + 1, b.zMax);
      z := z - 1;
    }
  }

  /** The walk of one box under label idx: a zeroed scratch volume, the
      forward pass, then the backward pass. segs is only read: every prompt
      comes from the label map as the earlier boxes left it, never from
      this box's scratch volume. */
  method WalkBox(predict: Predictor<nat>, segs: array3<int>, b: Box3D, idx: int) returns (temp: array3<int>)
    requires Walkable(b, segs.Length0) && OracleValid(predict, segs.Length1, segs.Length2)
    ensures fresh(temp)
    ensures temp.Length0 == segs.Length0 && temp.Length1 == segs.Length1 && temp.Length2 == segs.Length2
    ensures forall z, y, x :: 0 <= z < segs.Length0 && 0 <= y < segs.Length1 && 0 <= x < segs.Length2 ==>
      temp[z, y, x] == BoxTemp(predict, VolumeOf(segs), b, idx, segs.Length1, segs.Length2)[z][y][x]
  {
    var d, h, w := segs.Length0, segs.Length1, segs.Length2;
    ghost var vol := VolumeOf(segs);
    ghost var t := BoxTemp(predict, vol, b, idx, h, w);
    temp := new int[d, h, w]((z, y, x) => 0);
    ForwardPass(predict, segs, temp, b, idx, vol, t);
    BackwardPass(predict, segs, temp, b, idx, vol, t);
    forall z, y, x | 0 <= z < d && 0 <= y < h && 0 <= x < w && !Walked(b, z)
      ensures t[z][y][x] == 0
    {
      BoxTempAt(predict, vol, b, idx, h, w, z, y, x);
    }
  }

  /** The label map holds the volume v. */
  ghost predicate Holds(segs: array3<int>, v: Volume)
    reads segs
  {
    IsVolume(v, segs.Length0, segs.Length1, segs.Length2) &&
    forall z, y, x :: 0 <= z < segs.Length0 && 0 <= y < segs.Length1 && 0 <= x < segs.Length2 ==>
      segs[z, y, x] == v[z][y][x]
  }

  /** One pass of the box loop: walk box k under label k + 1 against the
      label map of the boxes before it, then merge its scratch volume in. */
  method AddBox(predict: Predictor<nat>, segs: array3<int>, boxes: seq<Box3D>, k: nat)
    requires k < |boxes| && forall j :: 0 <= j <= k ==> Walkable(boxes[j], segs.Length0)
    requires OracleValid(predict, segs.Length1, segs.Length2)
    requires Holds(segs, Label3D(predict, boxes[..k], segs.Length0, segs.Length1, segs.Length2))
    modifies segs
    ensures Holds(segs, Label3D(predict, boxes[..k + 1], segs.Length0, segs.Length1, segs.Length2))
  {
    var d, h, w := segs.Length0, segs.Length1, segs.Length2;
    ghost var upto := boxes[..k + 1];
    assert upto[..k] == boxes[..k];
    ghost var before := Label3D(predict, boxes[..k], d, h, w);
    VolumeExt(VolumeOf(segs), before, d, h, w);
    var temp := WalkBox(predict, segs, boxes[k], k + 1);
    MergeInto(segs, temp, k + 1);
    Label3DStep(predict, upto, k, d, h, w);
    ghost var t := TempOf(predict, upto, k, d, h, w);
    assert t == BoxTemp(predict, before, boxes[k], k + 1, h, w);
    forall z, y, x | 0 <= z < d && 0 <= y < h && 0 <= x < w
      ensures segs[z, y, x] == Label3D(predict, upto, d, h, w)[z][y][x]
    {
      MergeAt(before, t, k + 1, d, h, w, z, y, x);
    }
  }

  /** The label map of one volume. Each 3D box must pass z_min < z_max;
      the first box that does not aborts the run (ok is false and the map
      is discarded). Otherwise the map is the merge of every box's walk in
      order. */
  method InferNpz3D(predict: Predictor<nat>, boxes: seq<Box3D>, d: nat, h: nat, w: nat) returns (segs: array3<int>, ok: bool)
    requires |boxes| <= 255
    requires forall k :: 0 <= k < |boxes| ==> 0 <= boxes[k].zMin && boxes[k].zMax <= d
    requires OracleValid(predict, h, w)
    ensures fresh(segs) && segs.Length0 == d && segs.Length1 == h && segs.Length2 == w
    ensures ok <==> forall k :: 0 <= k < |boxes| ==> boxes[k].zMin < boxes[k].zMax
    ensures ok ==> forall z, y, x :: 0 <= z < d && 0 <= y < h && 0 <= x < w ==>
      segs[z, y, x] == Label3D(predict, boxes, d, h, w)[z][y][x]
  {
    segs := new int[d, h, w]((z, y, x) => 0);
    assert boxes[..0] == [];
    for k := 0 to |boxes|
      invariant forall j :: 0 <= j < k ==> Walkable(boxes[j], d)
      invariant Holds(segs, Label3D(predict, boxes[..k], d, h, w))
    {
      if !(boxes[k].zMin < boxes[k].zMax) {
        ok := false;
        return;
      }
      AddBox(predict, segs, boxes, k);
    }
    assert boxes[..|boxes|] == boxes;
    ok := true;
  }
}
