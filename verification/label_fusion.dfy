/**
 The label fusion of `SegmentGM.label_fusion` and the composed
 similarity-then-fusion step.

 The averaging of the selected atlas masks happens in a helper whose source
 is not part of this model; it is a parameter here (`average`), and its
 output is the input of the binarisation, which is modelled exactly: with
 output type "bin" each fused mask goes through two in-place passes,
 `mask[mask >= 0.5] = 1` and then `mask[mask < 0.5] = 0`.
 */
module LabelFusion {
  import opened Params
  import opened Similarity

  /** The gray- and white-matter masks of one target slice, voxel by voxel. */
  datatype Segmentation = Segmentation(gm: seq<real>, wm: seq<real>)

  /** First in-place pass: every voxel at or above one half becomes 1. */
  function RaisePass(m: seq<real>): seq<real>
  {
    seq(|m|, k requires 0 <= k < |m| => if m[k] >= 0.5 then 1.0 else m[k])
  }

  /** Second in-place pass: every voxel below one half becomes 0. */
  function ClearPass(m: seq<real>): seq<real>
  {
    seq(|m|, k requires 0 <= k < |m| => if m[k] < 0.5 then 0.0 else m[k])
  }

  predicate IsBinaryMask(m: seq<real>)
  {
    forall k :: 0 <= k < |m| ==> m[k] == 0.0 || m[k] == 1.0
  }

  /** The two passes in the source's order. */
  function Binarise(m: seq<real>): (r: seq<real>)
    ensures |r| == |m|
    ensures IsBinaryMask(r)
    ensures forall k :: 0 <= k < |m| ==> (r[k] == 1.0 <==> m[k] >= 0.5)
  {
    ClearPass(RaisePass(m))
  }

  /** A single threshold map at one half: the reference the two passes are
      compared with. */
  function ThresholdMap(m: seq<real>): seq<real>
  {
    seq(|m|, k requires 0 <= k < |m| => if m[k] >= 0.5 then 1.0 else 0.0)
  }

  /** The second pass never undoes the first (a voxel raised to 1 is not below
      one half), so the two passes are one threshold map. */
  lemma TwoPassesAreOneThreshold(m: seq<real>)
    ensures Binarise(m) == ThresholdMap(m)
  {
    var r, t := Binarise(m), ThresholdMap(m);
    forall k | 0 <= k < |m|
      ensures r[k] == t[k]
    {
      assert RaisePass(m)[k] == (if m[k] >= 0.5 then 1.0 else m[k]);
    }
  }

  /** A mask already in {0, 1} passes through unchanged. */
  lemma BinaryMaskIsFixed(m: seq<real>)
    requires IsBinaryMask(m)
    ensures Binarise(m) == m
  {
    var r := Binarise(m);
    forall k | 0 <= k < |m|
      ensures r[k] == m[k]
    {
    }
  }

  lemma BinariseIdempotent(m: seq<real>)
    ensures Binarise(Binarise(m)) == Binarise(m)
  {
    BinaryMaskIsFixed(Binarise(m));
  }

  /** What the fusion stores for a mask, given the averaged mask. */
  ghost predicate FusesMask(p: ParamSeg, mean: seq<real>, out: seq<real>)
  {
    if IsBinary(p) then
      && |out| == |mean|
      && forall k :: 0 <= k < |out| ==> out[k] == (if mean[k] >= 0.5 then 1.0 else 0.0)
    else
      out == mean
  }

  ghost predicate Fuses(p: ParamSeg, mean: Segmentation, out: Segmentation)
  {
    FusesMask(p, mean.gm, out.gm) && FusesMask(p, mean.wm, out.wm)
  }

  /** The binarisation branch of the label fusion for one target slice. */
  function FuseSlice(p: ParamSeg, mean: Segmentation): (r: Segmentation)
    ensures Fuses(p, mean, r)
    ensures |r.gm| == |mean.gm| && |r.wm| == |mean.wm|
    ensures IsBinary(p) ==> IsBinaryMask(r.gm) && IsBinaryMask(r.wm)
  {
    if IsBinary(p) then Segmentation(Binarise(mean.gm), Binarise(mean.wm)) else mean
  }

  /** Fusing an already fused slice changes nothing, for either output type. */
  lemma FuseSliceIdempotent(p: ParamSeg, mean: Segmentation)
    ensures FuseSlice(p, FuseSlice(p, mean)) == FuseSlice(p, mean)
  {
    if IsBinary(p) {
      BinariseIdempotent(mean.gm);
      BinariseIdempotent(mean.wm);
    }
  }

  /** With the default output type the averaged masks are stored as they are. */
  lemma DefaultKeepsProbabilities(mean: Segmentation)
    ensures FuseSlice(Default(), mean) == mean
  {
  }

  /** The atlas slices named by a list of indices, in the list's order. */
  function Gather(atlas: seq<AtlasSlice>, idx: seq<nat>): (r: seq<AtlasSlice>)
    requires forall k :: 0 <= k < |idx| ==> idx[k] < |atlas|
    ensures |r| == |idx|
    ensures forall k :: 0 <= k < |r| ==> r[k] == atlas[idx[k]]
  {
    seq(|idx|, k requires 0 <= k < |idx| => atlas[idx[k]])
  }

  /**
   The atlas slices handed to averaging for one target slice are the
   selected ones: in increasing atlas order, each with a normalised
   similarity of at least the threshold, and every atlas slice reaching the
   threshold among them.
   */
  lemma GatheredAreSelected(p: ParamSeg, exp: real -> real, norm: seq<real> -> real,
                            t: TargetSlice, atlas: seq<AtlasSlice>)
    requires IsExp(exp)
    requires forall j :: 0 <= j < |atlas| ==> |atlas[j].coord| == |t.coord|
    ensures var ns := NormalizedSimilarities(p, exp, norm, t, atlas);
            var sel := SelectForSlice(p, exp, norm, t, atlas);
            var g := Gather(atlas, sel);
            && |g| == |sel|
            && (forall k :: 0 <= k < |g| ==> g[k] == atlas[sel[k]] && ns[sel[k]] >= p.thrSimilarity)
            && (forall k1, k2 :: 0 <= k1 < k2 < |g| ==> sel[k1] < sel[k2])
            && (forall j :: 0 <= j < |atlas| && ns[j] >= p.thrSimilarity ==>
                  exists k :: 0 <= k < |g| && sel[k] == j && g[k] == atlas[j])
  {
    var ns := NormalizedSimilarities(p, exp, norm, t, atlas);
    var sel := SelectForSlice(p, exp, norm, t, atlas);
    var g := Gather(atlas, sel);
    forall k | 0 <= k < |g|
      ensures ns[sel[k]] >= p.thrSimilarity
    {
      assert sel[k] in sel;
    }
    forall j | 0 <= j < |atlas| && ns[j] >= p.thrSimilarity
      ensures exists k :: 0 <= k < |g| && sel[k] == j && g[k] == atlas[j]
    {
      assert j in sel;
      var k :| 0 <= k < |sel| && sel[k] == j;
      assert g[k] == atlas[j];
    }
  }

  predicate IndicesInRange(selections: seq<seq<nat>>, n: nat)
  {
    forall i, k :: 0 <= i < |selections| && 0 <= k < |selections[i]| ==> selections[i][k] < n
  }

  /**
   `label_fusion`: for every target slice, the atlas slices selected for it
   (looked up by the slice's id) are averaged and the result is binarised or
   kept according to the output type.
   */
  function LabelFusion(p: ParamSeg, targets: seq<TargetSlice>, atlas: seq<AtlasSlice>,
                       selections: seq<seq<nat>>, average: seq<AtlasSlice> -> Segmentation): (r: seq<Segmentation>)
    requires forall i :: 0 <= i < |targets| ==> targets[i].id < |selections|
    requires IndicesInRange(selections, |atlas|)
    ensures |r| == |targets|
    ensures forall i :: 0 <= i < |r| ==>
              Fuses(p, average(Gather(atlas, selections[targets[i].id])), r[i])
  {
    seq(|targets|, i requires 0 <= i < |targets| =>
      FuseSlice(p, average(Gather(atlas, selections[targets[i].id]))))
  }

  /**
   Similarity selection followed by label fusion. Every index the selection
   produces names an atlas slice, so the fusion never looks outside the
   atlas; with output type "bin" every stored voxel is 0 or 1.
   */
  function SelectAndFuse(p: ParamSeg, exp: real -> real, norm: seq<real> -> real,
                         targets: seq<TargetSlice>, atlas: seq<AtlasSlice>,
                         average: seq<AtlasSlice> -> Segmentation): (r: seq<Segmentation>)
    requires IsExp(exp)
    requires SameDimension(targets, atlas)
    requires forall i :: 0 <= i < |targets| ==> targets[i].id < |targets|
    ensures |r| == |targets|
    ensures IsBinary(p) ==> forall i :: 0 <= i < |r| ==> IsBinaryMask(r[i].gm) && IsBinaryMask(r[i].wm)
    ensures !IsBinary(p) ==> forall i :: 0 <= i < |r| ==>
              r[i] == average(Gather(atlas, SelectForSlice(p, exp, norm, targets[targets[i].id], atlas)))
  {
    var selections := ComputeSimilarities(p, exp, norm, targets, atlas);
    var r := LabelFusion(p, targets, atlas, selections, average);
    forall i | 0 <= i < |targets|
      ensures && (IsBinary(p) ==> IsBinaryMask(r[i].gm) && IsBinaryMask(r[i].wm))
              && (!IsBinary(p) ==> r[i] == average(Gather(atlas, SelectForSlice(p, exp, norm, targets[targets[i].id], atlas))))
    {
      var mean := average(Gather(atlas, selections[targets[i].id]));
      assert Fuses(p, mean, r[i]);
    }
    r
  }
}
