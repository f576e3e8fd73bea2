# Gray-matter segmentation: atlas-slice selection and label binarisation

A Dafny model of the decision logic in the multi-atlas gray-matter
segmentation script `scripts/sct_segment_graymatter_NEW.py`:

- **Similarity engine** (`SegmentGM.compute_similarities`). For every
  projected target slice and every atlas (dictionary) slice it computes a raw
  similarity `exp(-weight_coord * d)`, where `d` is the norm of the difference
  of reduced-space coordinates. When a vertebral-level file was supplied, the
  similarity also gets a factor `exp(-weight_level * |level gap|)`. The
  similarities of one target slice are divided by their sum. The result keeps,
  in atlas order, every atlas index whose normalised similarity is at least
  `thr_similarity`.
- **Label fusion** (`SegmentGM.label_fusion`). For every target slice the
  selected atlas slices are averaged. With `type_seg == "bin"` each fused
  gray- and white-matter mask then goes through two in-place passes:
  `mask[mask >= 0.5] = 1`, then `mask[mask < 0.5] = 0`. Any other
  `type_seg` keeps the averaged masks unchanged.
- **Parameters** (`ParamSeg`). Defaults are `weight_level = 2.5`,
  `weight_coord = 0.0065`, `thr_similarity = 0.8` and `type_seg = "prob"`.

Files:

- `params.dfy`: module `Params`, the parameters and their defaults.
- `sums.dfy`: module `Sums`, the left-fold sum and the normalisation.
- `selection.dfy`: module `Selection`, the threshold walk and what it selects.
- `similarity.dfy`: module `Similarity`, the similarity rule and `ComputeSimilarities`.
- `label_fusion.dfy`: module `LabelFusion`, binarisation, label fusion and
  the composition of selection and fusion.
- `arith.dfy`: module `Arith`, small facts of real arithmetic.

All arithmetic is over Dafny's `real`, not IEEE doubles. `exp` and the
vector 2-norm are parameters of the model. `IsExp` assumes `exp` is positive,
equal to 1 at 0 and strictly increasing. `IsNorm` assumes the norm is
non-negative and zero exactly on the zero vector. Masks are `seq<real>`, one
entry per voxel.

Three behaviours of the code that the model keeps:

- **Empty atlas.** The comprehension on line 318 runs over an empty list,
  divides by nothing and yields an empty index list (`Sums.Normalize`,
  `Similarity.EmptyAtlasSelectsNothing`).
- **Threshold comparison.** A slice is kept when its normalised similarity is
  `>=` the threshold (line 322), not only when it exceeds it.
- **Threshold range.** `-thr-sim` is parsed as any float and never
  range-checked (lines 94-98), so the model accepts any real threshold; the
  cap on how many slices are selected is proved for every positive threshold.

## Model

| member | source | states |
|---|---|---|
| `Params.Default` | scripts/sct_segment_graymatter_NEW.py:155-167 | a fresh parameter set has no level file, positive level and coordinate weights, a threshold in (0, 1] with floor(1 / thr) == 1, and an output type other than "bin" |
| `Similarity.Difference` | scripts/sct_segment_graymatter_NEW.py:308 | the coordinate difference fed to the norm has the coordinates' dimension and is the zero vector exactly when the two coordinate vectors are equal |
| `Similarity.RawSimilarity` | scripts/sct_segment_graymatter_NEW.py:310-315 | every raw similarity, with or without the level factor, is strictly positive |
| `Similarity.RawSimilarities` | scripts/sct_segment_graymatter_NEW.py:305-317 | one positive raw similarity per atlas slice, in atlas order, each computed from that atlas slice and its norm distance to the target (`Distance`, the 2-norm call on line 308) |
| `Sums.SumPositive` | scripts/sct_segment_graymatter_NEW.py:318 | the divisor on line 318 is positive for a non-empty atlas, so the division is defined |
| `Sums.Normalize` | scripts/sct_segment_graymatter_NEW.py:318 | each normalised similarity lies in (0, 1] and is its raw similarity's share of the total; for a non-empty list they sum to exactly 1; an empty list stays empty |
| `Similarity.NormalizedSimilarities` | scripts/sct_segment_graymatter_NEW.py:305-318 | one normalised similarity per atlas slice, each in (0, 1], summing to 1 when the atlas is non-empty |
| `Selection.Select` | scripts/sct_segment_graymatter_NEW.py:320-323 | the selected list is strictly increasing (atlas order, not similarity order), lies in [0, number of atlas slices), and holds index j iff its normalised similarity is >= the threshold |
| `Selection.SelectionIsUnique` | scripts/sct_segment_graymatter_NEW.py:320-323 | any list meeting that membership rule in increasing order is the selected list: nothing but the threshold decides membership |
| `Selection.SelectMonotone` | scripts/sct_segment_graymatter_NEW.py:322 | every index selected at a higher threshold is also selected at a lower one |
| `Selection.SelectMonotoneSize` | scripts/sct_segment_graymatter_NEW.py:322 | a higher threshold never selects more indices |
| `Selection.SelectedMass` | scripts/sct_segment_graymatter_NEW.py:320-323 | the number of selected indices times the threshold is at most the sum of the similarities |
| `Selection.SelectionCap` | scripts/sct_segment_graymatter_NEW.py:318-323 | for similarities summing to 1 and a positive threshold, at most floor(1 / thr) indices are selected |
| `Similarity.SelectForSlice` | scripts/sct_segment_graymatter_NEW.py:305-325 | the index list of one target slice is exactly the threshold selection over its normalised similarities, and every index names an atlas slice |
| `Similarity.ComputeSimilarities` | scripts/sct_segment_graymatter_NEW.py:302-327 | one index list per target slice, in target-slice order, each the threshold selection of that slice's normalised similarities and within the atlas |
| `Similarity.FactorAntitone` | scripts/sct_segment_graymatter_NEW.py:312-315 | a factor exp(-w * d) with w >= 0 is positive and never grows with d |
| `Similarity.FactorStrict` | scripts/sct_segment_graymatter_NEW.py:312-315 | a factor exp(-w * d) with w > 0 strictly shrinks as d grows |
| `Similarity.RawSimilarityMaximum` | scripts/sct_segment_graymatter_NEW.py:310-315 | with non-negative weights and distance, a raw similarity is at most 1, and it equals 1 at distance 0 when the levels agree or no level file was given |
| `Similarity.LevelsIgnoredWithoutFile` | scripts/sct_segment_graymatter_NEW.py:313-315 | without a level file, target and atlas levels do not affect the similarity |
| `Similarity.LevelTermMultiplies` | scripts/sct_segment_graymatter_NEW.py:310-312 | with a level file, the similarity is the distance-only similarity times a factor in (0, 1]; for a positive level weight that factor is 1 exactly when the levels agree |
| `Similarity.CloserIsMoreSimilar` | scripts/sct_segment_graymatter_NEW.py:312-315 | with positive weights, a strictly larger distance or level gap (the other no smaller) gives a strictly smaller raw similarity |
| `Similarity.SimilaritiesIgnoreThreshold` | scripts/sct_segment_graymatter_NEW.py:308-318 | the normalised similarities depend only on the weights and on whether a level file was given |
| `Similarity.ComputeSimilaritiesMonotone` | scripts/sct_segment_graymatter_NEW.py:320-323 | raising thr_similarity can only shrink each target slice's selected set, as a set and in size |
| `Similarity.SelectionBounded` | scripts/sct_segment_graymatter_NEW.py:318-323 | for a positive threshold, at most floor(1 / thr) atlas slices are selected per target slice |
| `Similarity.DefaultSelectsAtMostOne` | scripts/sct_segment_graymatter_NEW.py:164 | with the default threshold 0.8, at most one atlas slice is selected per target slice |
| `Similarity.EmptyAtlasSelectsNothing` | scripts/sct_segment_graymatter_NEW.py:303-327 | with an empty atlas every target slice gets an empty index list |
| `Similarity.TwoSliceScenario` | scripts/sct_segment_graymatter_NEW.py:308-323 | two atlas slices, the target at distance 0 from the first and farther from the second, no level file, positive coordinate weight, threshold 0.5: exactly the first slice is selected |
| `LabelFusion.Binarise` | scripts/sct_segment_graymatter_NEW.py:337-338 | the first pass (`RaisePass`, line 337) followed by the second (`ClearPass`, line 338) keeps the mask length, leaves every voxel in {0, 1}, and a voxel ends at 1 iff it was >= 0.5 |
| `LabelFusion.TwoPassesAreOneThreshold` | scripts/sct_segment_graymatter_NEW.py:337-341 | the second in-place pass never undoes the first: the two passes equal a single threshold map at 0.5 |
| `LabelFusion.BinaryMaskIsFixed` | scripts/sct_segment_graymatter_NEW.py:337-338 | a mask already in {0, 1} passes through binarisation unchanged |
| `LabelFusion.BinariseIdempotent` | scripts/sct_segment_graymatter_NEW.py:337-341 | binarising twice is binarising once |
| `LabelFusion.FuseSlice` | scripts/sct_segment_graymatter_NEW.py:335-343 | with type_seg "bin" both stored masks are the 0.5-threshold maps of the averaged masks; otherwise the averaged masks are stored unchanged; lengths are preserved |
| `LabelFusion.FuseSliceIdempotent` | scripts/sct_segment_graymatter_NEW.py:335-343 | fusing an already fused slice changes nothing, for either output type |
| `LabelFusion.DefaultKeepsProbabilities` | scripts/sct_segment_graymatter_NEW.py:167 | with the default type_seg "prob", the averaged masks are stored as they are |
| `LabelFusion.GatheredAreSelected` | scripts/sct_segment_graymatter_NEW.py:320-332 | the atlas slices handed to averaging for a target slice (`Gather` of its index list) come in increasing atlas order, each has a normalised similarity >= the threshold, and every atlas slice reaching the threshold is among them |
| `LabelFusion.LabelFusion` | scripts/sct_segment_graymatter_NEW.py:329-343 | one segmentation per target slice, each fused from the average of the atlas slices selected under that slice's id |
| `LabelFusion.SelectAndFuse` | scripts/sct_segment_graymatter_NEW.py:329-334 | feeding the selection into the fusion never indexes outside the atlas; with "bin" every stored voxel is 0 or 1 for real-valued averages (an empty selection and a possibly NaN average are outside the model, see `average_gm_wm` under "Left out"), otherwise each slice stores the average of its selected atlas slices |

## Left out

- Command-line parsing and parameter wiring (`get_parser`, `__main__`): argument handling over a parser framework that is not part of this model.
- `copy_data_to_tmp`, the orchestration in `segment`, and saving and renaming the outputs: file-system I/O.
- `register_target`, `warp_back_seg` and `apply_transfo`: these call external registration and resampling libraries.
- `normalize_target`, `project_target` and the atlas `Model`: intensity normalisation and PCA projection live in modules that are not part of this model. Each target slice carries its projected coordinates, and each atlas slice carries its fitted coordinates beside its level and masks. This assumes `projected_target[i]` belongs to `target_im[i]` and `fitted_data[j]` to `slices[j]`, as the source's parallel indexing does.
- `average_gm_wm` is not part of this model. It is the parameter `average`. An empty selection is possible (two equal shares of 0.5 at the default threshold 0.8 select nothing); what the helper returns then, possibly NaN-filled masks, is not modelled, and a NaN voxel would pass both binarisation passes unchanged, so `LabelFusion.SelectAndFuse` promises 0/1 voxels only for real-valued averages.
- `LabelFusion.SelectAndFuse`: the 0/1 guarantee under "bin" holds for real-valued averages only; a NaN average, possible for an empty selection, is outside the model.
- `post_processing`: image-header offsets, floating-point physical coordinates, interpolation and orientation changes.
- Floating-point behaviour: `exp` underflowing to 0.0 (which would make the line-318 sum zero), rounding in the sum, and NaN. The model works over the reals.
- `Similarity.RawSimilarity`: `math.exp` is modelled only as positive, equal to 1 at 0 and strictly increasing, and the numpy 2-norm only as non-negative and zero exactly on the zero vector. No property that depends on their exact values is stated.
- `LabelFusion.LabelFusion`: the target slice ids are assumed to index the per-slice lists, as the source does on line 332. `SelectAndFuse` requires every id to be below the number of target slices.
- `rep.py`, `rep2.py` and `rep_numpy-issue.py`: resampling and BLAS reproducibility scripts, i.e. I/O plus hardware-dependent floating-point behaviour.
- `unit_testing/test_reports.py`: it tests a report module whose source is not part of this model.
