# EfficientSAM box-prompt inference: prompt and label-map bookkeeping

This project models, in Dafny, the non-neural part of the EfficientSAM
inference script `CVPR24_EfficientSAM_infer.py`:

- `get_bbox`: the tight bounding box of a mask's foreground, widened by
  `bbox_shift` (3 by default) and clamped to `[0, W] x [0, H]`
  (`bounding_box.dfy`, module `BoundingBox`).
- `efficientsam_infer`: one box turned into two corner points with point
  labels `[2, 3]`, the candidate with the highest predicted IoU picked, and
  its logit map thresholded with `>= 0` (`inference.dfy`, module `Inference`).
- The 2D label map of `EfficientSAM_infer_npz_2D`: boxes numbered from 1,
  each writing its number where its mask is set, the last writer winning
  (`segment2d.dfy`, module `Segment2D`, over `label_maps.dfy`, module
  `LabelMaps`).
- The 3D slice propagation of `EfficientSAM_infer_npz_3D`. For each box:
  - the `z_min < z_max` check;
  - the middle slice;
  - a forward pass up to `z_max` and a backward pass down to `z_min`, each
    slice prompted by the box of its neighbouring slice in the label map
    (or the seed box);
  - a per-box scratch volume merged into the label map after both passes

  (`segment3d.dfy`, module `Segment3D`).

`grids.dfy` (module `Grids`) holds the shared grid types.

The network (`preprocess`, `image_encoder`, `predict_masks`) is a parameter
`predict: (E, Prompt, nat, nat) -> seq<Candidate>`. It maps an embedding, a
prompt (points and labels) and the image height and width to candidate
masks, each a predicted IoU with a logit map. In the 2D case the embedding
is the image's. In the 3D case it is the slice index: every slice's
embedding is computed from that slice alone. The only requirement on the
network is the shape of its output: at least one candidate, each with an
`H x W` logit map (`Inference.ValidOutput`, `Inference.OracleValid`).

The pure parts are functions with lemmas. The label maps are arrays
updated in place:
- `InferNpz2D` fills an `array2<int>` box by box.
- `WalkBox` fills a fresh scratch `array3<int>` slice by slice in two loops.
- `MergeInto` writes the scratch volume into the label map.

Each method is proved against a specification function on values:
`LastTrue`/`Covers` in 2D, `BoxTemp`, `Merge` and `Label3D` in 3D.

Two behaviours of the code are made explicit:
- The walk of a box only reads the label map, which changes only at the
  merge (`:219`). So a slice's "previous slice" prompt comes from the
  merged masks of earlier boxes, never from the current box's own
  scratch volume. For the first box every slice uses the seed box
  (`FirstBoxUsesSeed`).
- Some descriptions of `get_bbox` give the clamp as `[0, W)`. The code
  clamps the upper edge to `W` (resp. `H`), one past the last index, and
  the model follows the code (`GetBboxReachesBorder`).

## Model

| member | source | states |
|---|---|---|
| BoundingBox.Where | CVPR24_EfficientSAM_infer.py:75 | `np.where(mask > 0)` yields exactly the foreground cells |
| BoundingBox.MinOf | CVPR24_EfficientSAM_infer.py:76-77 | `np.min` returns an element of the indices that no index is below |
| BoundingBox.MaxOf | CVPR24_EfficientSAM_infer.py:76-77 | `np.max` returns an element of the indices that no index is above |
| BoundingBox.TightBoxIsTight | CVPR24_EfficientSAM_infer.py:75-77 | the min/max of the foreground indices form a box that contains every foreground pixel, each of whose four edges passes through a foreground pixel |
| BoundingBox.TightBoxUnique | CVPR24_EfficientSAM_infer.py:75-77 | that characterisation determines the box uniquely |
| BoundingBox.GetBbox | CVPR24_EfficientSAM_infer.py:58-88 | `get_bbox` yields a box exactly when the mask has foreground; otherwise `np.min` fails on the empty selection (None) |
| BoundingBox.GetBboxIsWidenedTightBox | CVPR24_EfficientSAM_infer.py:75-86 | the result is the tight box with `x_min, y_min` lowered by the shift and floored at 0, and `x_max, y_max` raised by it and capped at `W`, `H` |
| BoundingBox.GetBboxBounds | CVPR24_EfficientSAM_infer.py:80-86 | with foreground and shift >= 0: `0 <= x_min <= x_max <= W`, `0 <= y_min <= y_max <= H`, and every foreground pixel lies inside the box |
| BoundingBox.GetBboxReachesBorder | CVPR24_EfficientSAM_infer.py:80-84 | a foreground pixel within the shift of the right (bottom) border makes `x_max == W` (`y_max == H`): the cap is `W`/`H`, not `W-1`/`H-1` |
| Inference.PairUp | CVPR24_EfficientSAM_infer.py:94 | the reshape to `[1, 1, -1, 2]` makes point i from coordinates 2i and 2i+1 |
| Inference.FlattenPairUp | CVPR24_EfficientSAM_infer.py:94 | flattening the points gives back the coordinates |
| Inference.PairUpFlatten | CVPR24_EfficientSAM_infer.py:94 | pairing up a flattening gives back the points |
| Inference.BoxPrompt | CVPR24_EfficientSAM_infer.py:92-95 | the prompt is exactly the points `(x_min, y_min)`, `(x_max, y_max)` with labels `[2, 3]` |
| Inference.BoxPromptKeepsBox | CVPR24_EfficientSAM_infer.py:94 | the box can be read back from the prompt's points |
| Inference.Best | CVPR24_EfficientSAM_infer.py:97-101 | the first candidate after the descending sort by IoU has the highest IoU |
| Inference.Threshold | CVPR24_EfficientSAM_infer.py:103 | `torch.ge(logits, 0)`: same `H x W` shape, set exactly where the logit is >= 0 |
| Inference.Infer | CVPR24_EfficientSAM_infer.py:91-103 | the mask is `H x W` and equals, pixel by pixel, `logit >= 0` for a candidate of highest IoU among those the network returns for the box prompt |
| LabelMaps.LastTrue | CVPR24_EfficientSAM_infer.py:126-128 | the label a pixel ends with is 0 or the number of a writer that covers it |
| LabelMaps.LastTrueIsLastWriter | CVPR24_EfficientSAM_infer.py:126-128 | label k > 0 exactly when writer k covers the pixel and no later writer does; 0 exactly when no writer covers it |
| Segment2D.InferNpz2D | CVPR24_EfficientSAM_infer.py:112-128 | the zeroed `H x W` map after the box loop holds at each pixel the last box number whose mask covers it, or 0, a value in `0..N` |
| Segment3D.ZMiddle | CVPR24_EfficientSAM_infer.py:165-167 | given `0 <= z_min < z_max`, `z_min <= z_middle < z_max`, and `[z_middle, z_max)` has as many slices as `[z_min, z_middle)`, or one more |
| Segment3D.AscendingAt | CVPR24_EfficientSAM_infer.py:169 | `range(lo, hi)` lists lo, lo + 1, ... |
| Segment3D.DescendingAt | CVPR24_EfficientSAM_infer.py:197 | `range(hi, lo, -1)` lists hi, hi - 1, ... |
| Segment3D.WalkOrderVisits | CVPR24_EfficientSAM_infer.py:169-197 | the two passes visit no slice twice; they visit exactly the slices strictly between `z_min` and `z_max`, plus `z_min` only when `z_max == z_min + 1`, and never `z_max` |
| Segment3D.BoxTempSlices | CVPR24_EfficientSAM_infer.py:163-218 | the scratch volume holds only 0 and `idx`, and `idx` only on visited slices |
| Segment3D.FirstBoxUsesSeed | CVPR24_EfficientSAM_infer.py:184-191 | against the all-zero label map every slice's prompt is the seed box |
| Segment3D.PromptFromNeighbour | CVPR24_EfficientSAM_infer.py:184-216 | a slice other than the middle, whose neighbour (z - 1 forward, z + 1 backward) in the label map has foreground, is prompted with that neighbour's tight box widened by 3 and clamped |
| Segment3D.ChoosePrompt | CVPR24_EfficientSAM_infer.py:184-216 | the box the method computes from the array is the specified slice prompt of the label map's current contents |
| Segment3D.PaintSlice | CVPR24_EfficientSAM_infer.py:193 | writing `idx` where the mask is set extends the done range of the scratch volume by slice z and changes no other slice |
| Segment3D.VisitSlice | CVPR24_EfficientSAM_infer.py:170-193 | one visited slice: the done range grows by that slice, which then holds the specified painting of the slice's mask |
| Segment3D.ForwardPass | CVPR24_EfficientSAM_infer.py:169-193 | after `for z in range(z_middle, z_max)` the scratch volume holds the specified slices `z_middle..z_max-1` and 0 elsewhere |
| Segment3D.BackwardPass | CVPR24_EfficientSAM_infer.py:197-218 | after `for z in range(z_middle-1, z_min, -1)` it holds every visited slice |
| Segment3D.WalkBox | CVPR24_EfficientSAM_infer.py:163-218 | a fresh scratch volume, equal voxel by voxel to `BoxTemp` of the label map as it stood before the walk; the label map is not modified |
| Segment3D.MergeInto | CVPR24_EfficientSAM_infer.py:219 | `segs[temp > 0] = idx`: those voxels take `idx`, every other voxel keeps its label |
| Segment3D.AddBox | CVPR24_EfficientSAM_infer.py:162-219 | one box of the loop takes the label map from `Label3D` of the earlier boxes to `Label3D` including this box |
| Segment3D.InferNpz3D | CVPR24_EfficientSAM_infer.py:153-219 | the run succeeds exactly when every box has `z_min < z_max`, and then the label map equals `Label3D` of all boxes |
| Segment3D.Label3DLastWriter | CVPR24_EfficientSAM_infer.py:162-219 | each voxel of the final map holds the number of the last box whose scratch volume is set there, or 0: later boxes win on overlap |
| Segment3D.Label3DRange | CVPR24_EfficientSAM_infer.py:159-219 | every label lies in `0..N` |

## Left out

- The network: `preprocess`, `image_encoder` and `predict_masks` form an uninterpreted parameter. The per-slice image embedding is identified with the slice index. Building `torch` and `ToTensor` tensors is not modelled.
- Floating point: IoU scores and logits are integers. Only their order and the comparison with 0 matter to the code modelled here.
- Inference.Best: promises only a candidate of highest IoU, not which one `torch.argsort` puts first among equal scores, because that sort is not stable.
- `np.load`, `np.savez_compressed` and the unused `spacing` field are file I/O and are not modelled. The boxes and the image shape are parameters.
- Plotting (`show_mask`, `show_box`, the overlay blocks, random colours) is cosmetic output and is not modelled.
- The `__main__` driver (argument parsing, directories, seeding, globbing, timing, `gc.collect`, CSV writing) is process plumbing and is not modelled.
- Segment2D.InferNpz2D: requires at most 255 boxes instead of modelling the wrap-around of the `uint8` label map.
- Segment3D.InferNpz3D: likewise requires at most 255 boxes. It also requires `0 <= z_min` and `z_max <= D` for every box rather than modelling negative or out-of-range slice indices. A failed `z_min < z_max` assertion is modelled as `ok == false`, with no promise about the discarded map.
- Replicating a single-channel slice to three channels feeds only the network, so it is not modelled.
- Empty images (`H == 0` or `W == 0`), where `np.max` of an empty slice raises, are not modelled separately. The neighbour check treats such a slice as having no foreground.
- Segment3D.WalkBox: the contract states which slices the walk writes and what each holds, but not the order of the visits. That order is specified separately by `WalkOrder` and `WalkOrderVisits`. Every prompt is read from the label map, which the walk does not modify, so the order cannot affect the result.
