/**
 The similarity engine of `SegmentGM.compute_similarities`.

 For each projected target slice and each atlas slice the source computes
 the Euclidean distance of their reduced-space coordinates, turns it (and,
 when a level file was given, the vertebral-level gap) into a positive raw
 similarity with `exp`, normalises the similarities of the target slice to
 sum 1, and keeps the atlas indices whose normalised similarity reaches the
 threshold.

 Arithmetic is over the reals. `exp` and the vector norm are parameters of
 the model, constrained only by the facts the rule relies on (`IsExp`,
 `IsNorm`).
 */
module Similarity {
  import opened Params
  import opened Sums
  import opened Selection
  import opened Arith

  /** What the model assumes of `math.exp`: positive, 1 at 0, strictly increasing. */
  ghost predicate IsExp(exp: real -> real)
  {
    && exp(0.0) == 1.0
    && (forall x :: exp(x) > 0.0)
    && (forall x, y {:trigger Below(x, y)} :: Below(x, y) ==> exp(x) < exp(y))
  }

  /** `x < y`, as a term the monotonicity of `exp` is triggered on. */
  predicate Below(x: real, y: real)
  {
    x < y
  }

  predicate IsZeroVector(v: seq<real>)
  {
    forall k :: 0 <= k < |v| ==> v[k] == 0.0
  }

  /** What the model assumes of the 2-norm: non-negative, and zero exactly on
      the zero vector. */
  ghost predicate IsNorm(norm: seq<real> -> real)
  {
    forall v :: norm(v) >= 0.0 && (norm(v) == 0.0 <==> IsZeroVector(v))
  }

  /** A target slice after projection: its position in the target volume,
      its vertebral level and its reduced-space coordinates. */
  datatype TargetSlice = TargetSlice(id: nat, level: real, coord: seq<real>)

  /** An atlas (dictionary) slice: level, reduced-space coordinates and its
      reference gray- and white-matter masks. */
  datatype AtlasSlice = AtlasSlice(level: real, coord: seq<real>, gm: seq<real>, wm: seq<real>)

  function Abs(x: real): real
  {
    if x < 0.0 then -x else x
  }

  function Difference(a: seq<real>, b: seq<real>): (d: seq<real>)
    requires |a| == |b|
    ensures |d| == |a|
    ensures IsZeroVector(d) <==> a == b
  {
    var d := seq(|a|, k requires 0 <= k < |a| => a[k] - b[k]);
    assert IsZeroVector(d) ==> a == b by {
      if IsZeroVector(d) {
        forall k | 0 <= k < |a|
          ensures a[k] == b[k]
        {
          assert d[k] == 0.0;
        }
      }
    }
    d
  }

  /** Coordinates of every target slice and every atlas slice have the same
      dimension (the projection is the one learnt on the atlas). */
  predicate SameDimension(targets: seq<TargetSlice>, atlas: seq<AtlasSlice>)
  {
    forall i, j :: 0 <= i < |targets| && 0 <= j < |atlas| ==> |targets[i].coord| == |atlas[j].coord|
  }

  function Distance(norm: seq<real> -> real, t: TargetSlice, a: AtlasSlice): real
    requires |t.coord| == |a.coord|
  {
    norm(Difference(t.coord, a.coord))
  }

  /** The exponent `-(weight * amount)` of one factor of the raw similarity. */
  function Penalty(weight: real, amount: real): real
  {
    -(weight * amount)
  }

  /** The raw similarity of one target slice to one atlas slice, at
      reduced-space distance `dist`: the level factor is present only when a
      level file was supplied. */
  function RawSimilarity(p: ParamSeg, exp: real -> real, t: TargetSlice, a: AtlasSlice, dist: real): (s: real)
    requires IsExp(exp)
    ensures s > 0.0
  {
    if p.hasLevelFile then
      exp(Penalty(p.weightLevel, Abs(t.level - a.level))) * exp(Penalty(p.weightCoord, dist))
    else
      exp(Penalty(p.weightCoord, dist))
  }

  /** The raw similarities of one target slice to the whole atlas, in atlas order. */
  function RawSimilarities(p: ParamSeg, exp: real -> real, norm: seq<real> -> real,
                           t: TargetSlice, atlas: seq<AtlasSlice>): (s: seq<real>)
    requires IsExp(exp)
    requires forall j :: 0 <= j < |atlas| ==> |atlas[j].coord| == |t.coord|
    ensures |s| == |atlas|
    ensures Positive(s)
    ensures forall j :: 0 <= j < |s| ==> s[j] == RawSimilarity(p, exp, t, atlas[j], Distance(norm, t, atlas[j]))
  {
    seq(|atlas|, j requires 0 <= j < |atlas| => RawSimilarity(p, exp, t, atlas[j], Distance(norm, t, atlas[j])))
  }

  function NormalizedSimilarities(p: ParamSeg, exp: real -> real, norm: seq<real> -> real,
                                  t: TargetSlice, atlas: seq<AtlasSlice>): (n: seq<real>)
    requires IsExp(exp)
    requires forall j :: 0 <= j < |atlas| ==> |atlas[j].coord| == |t.coord|
    ensures |n| == |atlas|
    ensures forall j :: 0 <= j < |n| ==> 0.0 < n[j] <= 1.0
    ensures |atlas| > 0 ==> Sum(n) == 1.0
  {
    Normalize(RawSimilarities(p, exp, norm, t, atlas))
  }

  /** The atlas indices selected for one target slice. */
  function SelectForSlice(p: ParamSeg, exp: real -> real, norm: seq<real> -> real,
                          t: TargetSlice, atlas: seq<AtlasSlice>): (r: seq<nat>)
    requires IsExp(exp)
    requires forall j :: 0 <= j < |atlas| ==> |atlas[j].coord| == |t.coord|
    ensures IsSelection(NormalizedSimilarities(p, exp, norm, t, atlas), p.thrSimilarity, r)
    ensures forall k :: 0 <= k < |r| ==> r[k] < |atlas|
  {
    Select(NormalizedSimilarities(p, exp, norm, t, atlas), p.thrSimilarity)
  }

  /** `compute_similarities`: one index list per projected target slice, in
      target-slice order. */
  function ComputeSimilarities(p: ParamSeg, exp: real -> real, norm: seq<real> -> real,
                               targets: seq<TargetSlice>, atlas: seq<AtlasSlice>): (r: seq<seq<nat>>)
    requires IsExp(exp)
    requires SameDimension(targets, atlas)
    ensures |r| == |targets|
    ensures forall i :: 0 <= i < |r| ==>
              IsSelection(NormalizedSimilarities(p, exp, norm, targets[i], atlas), p.thrSimilarity, r[i])
    ensures forall i, k :: 0 <= i < |r| && 0 <= k < |r[i]| ==> r[i][k] < |atlas|
  {
    seq(|targets|, i requires 0 <= i < |targets| => SelectForSlice(p, exp, norm, targets[i], atlas))
  }

  // ----- properties of the similarity rule -----

  lemma ExpMonotone(exp: real -> real, x: real, y: real)
    requires IsExp(exp)
    requires x <= y
    ensures 0.0 < exp(x) <= exp(y)
    ensures x < y ==> exp(x) < exp(y)
  {
    if x < y {
      assert Below(x, y);
    } else {
      assert x == y;
    }
  }

  /** A factor `exp(-w * d)` with `w >= 0` never grows with `d`. */
  lemma FactorAntitone(exp: real -> real, w: real, d1: real, d2: real)
    requires IsExp(exp)
    requires w >= 0.0 && d1 <= d2
    ensures 0.0 < exp(Penalty(w, d2)) <= exp(Penalty(w, d1))
  {
    ScaleMonotone(w, d1, d2);
    ExpMonotone(exp, Penalty(w, d2), Penalty(w, d1));
  }

  /** A factor `exp(-w * d)` with `w > 0` strictly shrinks as `d` grows. */
  lemma FactorStrict(exp: real -> real, w: real, d1: real, d2: real)
    requires IsExp(exp)
    requires w > 0.0 && d1 < d2
    ensures 0.0 < exp(Penalty(w, d2)) < exp(Penalty(w, d1))
  {
    ScaleStrict(w, d1, d2);
    ExpMonotone(exp, Penalty(w, d2), Penalty(w, d1));
  }

  /** With non-negative weights no raw similarity exceeds 1, and an atlas
      slice at distance 0 (and at the same level, when levels count) reaches
      that maximum. */
  lemma RawSimilarityMaximum(p: ParamSeg, exp: real -> real, t: TargetSlice, a: AtlasSlice, dist: real)
    requires IsExp(exp)
    requires p.weightLevel >= 0.0 && p.weightCoord >= 0.0
    requires dist >= 0.0
    ensures RawSimilarity(p, exp, t, a, dist) <= 1.0
    ensures dist == 0.0 && (!p.hasLevelFile || t.level == a.level) ==> RawSimilarity(p, exp, t, a, dist) == 1.0
  {
    FactorAntitone(exp, p.weightCoord, 0.0, dist);
    assert Penalty(p.weightCoord, 0.0) == 0.0;
    if p.hasLevelFile {
      var gap := Abs(t.level - a.level);
      FactorAntitone(exp, p.weightLevel, 0.0, gap);
      assert Penalty(p.weightLevel, 0.0) == 0.0;
      ProductOfFractions(exp(Penalty(p.weightLevel, gap)), exp(Penalty(p.weightCoord, dist)));
    }
  }

  /** Without a level file, levels play no part: the similarity depends on
      the coordinate distance alone. */
  lemma LevelsIgnoredWithoutFile(p: ParamSeg, exp: real -> real, t1: TargetSlice, a1: AtlasSlice,
                                 t2: TargetSlice, a2: AtlasSlice, dist: real)
    requires IsExp(exp)
    requires !p.hasLevelFile
    ensures RawSimilarity(p, exp, t1, a1, dist) == RawSimilarity(p, exp, t2, a2, dist)
  {
  }

  /** With a level file, the similarity is the distance-only similarity
      multiplied by a level factor in (0, 1] (for a non-negative level
      weight) that equals 1 exactly when the levels agree (for a positive one). */
  lemma LevelTermMultiplies(p: ParamSeg, exp: real -> real, t: TargetSlice, a: AtlasSlice, dist: real)
    requires IsExp(exp)
    requires p.hasLevelFile
    requires p.weightLevel >= 0.0
    ensures var factor := RawSimilarity(p, exp, t, a, dist) / RawSimilarity(p.(hasLevelFile := false), exp, t, a, dist);
            && 0.0 < factor <= 1.0
            && (p.weightLevel > 0.0 ==> (factor == 1.0 <==> t.level == a.level))
  {
    var gap := Abs(t.level - a.level);
    FactorAntitone(exp, p.weightLevel, 0.0, gap);
    assert Penalty(p.weightLevel, 0.0) == 0.0;
    var l := exp(Penalty(p.weightLevel, gap));
    var c := exp(Penalty(p.weightCoord, dist));
    assert RawSimilarity(p, exp, t, a, dist) == l * c;
    assert RawSimilarity(p.(hasLevelFile := false), exp, t, a, dist) == c;
    assert l * c / c == l;
    if p.weightLevel > 0.0 && gap > 0.0 {
      FactorStrict(exp, p.weightLevel, 0.0, gap);
    }
  }

  /** With positive weights, a farther atlas slice (same level gap) is
      strictly less similar, and so is one with a larger level gap (same
      distance). */
  lemma CloserIsMoreSimilar(p: ParamSeg, exp: real -> real, t: TargetSlice, a1: AtlasSlice, a2: AtlasSlice,
                            d1: real, d2: real)
    requires IsExp(exp)
    requires p.weightLevel > 0.0 && p.weightCoord > 0.0
    requires d1 <= d2
    requires p.hasLevelFile ==> Abs(t.level - a1.level) <= Abs(t.level - a2.level)
    requires d1 < d2 || (p.hasLevelFile && Abs(t.level - a1.level) < Abs(t.level - a2.level))
    ensures RawSimilarity(p, exp, t, a2, d2) < RawSimilarity(p, exp, t, a1, d1)
  {
    if d1 < d2 {
      FactorStrict(exp, p.weightCoord, d1, d2);
    } else {
      FactorAntitone(exp, p.weightCoord, d1, d2);
    }
    if p.hasLevelFile {
      var g1, g2 := Abs(t.level - a1.level), Abs(t.level - a2.level);
      if g1 < g2 {
        FactorStrict(exp, p.weightLevel, g1, g2);
      } else {
        FactorAntitone(exp, p.weightLevel, g1, g2);
      }
      StrictProduct(exp(Penalty(p.weightLevel, g2)), exp(Penalty(p.weightCoord, d2)),
                    exp(Penalty(p.weightLevel, g1)), exp(Penalty(p.weightCoord, d1)));
    }
  }

  /** The normalised similarities depend on the weights and on the presence
      of a level file, not on the threshold or the output type. */
  lemma SimilaritiesIgnoreThreshold(p: ParamSeg, q: ParamSeg, exp: real -> real, norm: seq<real> -> real,
                                    t: TargetSlice, atlas: seq<AtlasSlice>)
    requires IsExp(exp)
    requires forall j :: 0 <= j < |atlas| ==> |atlas[j].coord| == |t.coord|
    requires p.hasLevelFile == q.hasLevelFile
    requires p.weightLevel == q.weightLevel && p.weightCoord == q.weightCoord
    ensures NormalizedSimilarities(p, exp, norm, t, atlas) == NormalizedSimilarities(q, exp, norm, t, atlas)
  {
    var sp, sq := RawSimilarities(p, exp, norm, t, atlas), RawSimilarities(q, exp, norm, t, atlas);
    forall j | 0 <= j < |atlas|
      ensures sp[j] == sq[j]
    {
      var d := Distance(norm, t, atlas[j]);
      assert RawSimilarity(p, exp, t, atlas[j], d) == RawSimilarity(q, exp, t, atlas[j], d);
    }
    assert sp == sq;
  }

  /** Raising the threshold can only shrink the selection of every target slice. */
  lemma ComputeSimilaritiesMonotone(p: ParamSeg, exp: real -> real, norm: seq<real> -> real,
                                    targets: seq<TargetSlice>, atlas: seq<AtlasSlice>, thr2: real)
    requires IsExp(exp)
    requires SameDimension(targets, atlas)
    requires p.thrSimilarity <= thr2
    ensures var r1 := ComputeSimilarities(p, exp, norm, targets, atlas);
            var r2 := ComputeSimilarities(p.(thrSimilarity := thr2), exp, norm, targets, atlas);
            forall i :: 0 <= i < |targets| ==>
              |r2[i]| <= |r1[i]| && forall j :: j in r2[i] ==> j in r1[i]
  {
    var r1 := ComputeSimilarities(p, exp, norm, targets, atlas);
    var r2 := ComputeSimilarities(p.(thrSimilarity := thr2), exp, norm, targets, atlas);
    forall i | 0 <= i < |targets|
      ensures |r2[i]| <= |r1[i]| && forall j :: j in r2[i] ==> j in r1[i]
    {
      var ns := NormalizedSimilarities(p, exp, norm, targets[i], atlas);
      SimilaritiesIgnoreThreshold(p, p.(thrSimilarity := thr2), exp, norm, targets[i], atlas);
      SelectionIsUnique(ns, p.thrSimilarity, r1[i]);
      SelectionIsUnique(ns, thr2, r2[i]);
      SelectMonotone(ns, p.thrSimilarity, thr2);
      SelectMonotoneSize(ns, p.thrSimilarity, thr2);
    }
  }

  /** For a positive threshold, at most `floor(1 / thr)` atlas slices are
      selected for any target slice. */
  lemma SelectionBounded(p: ParamSeg, exp: real -> real, norm: seq<real> -> real,
                         t: TargetSlice, atlas: seq<AtlasSlice>)
    requires IsExp(exp)
    requires forall j :: 0 <= j < |atlas| ==> |atlas[j].coord| == |t.coord|
    requires p.thrSimilarity > 0.0
    ensures |SelectForSlice(p, exp, norm, t, atlas)| <= (1.0 / p.thrSimilarity).Floor
  {
    var ns := NormalizedSimilarities(p, exp, norm, t, atlas);
    if |atlas| > 0 {
      SelectionCap(ns, p.thrSimilarity);
    } else {
      assert 1.0 / p.thrSimilarity > 0.0;
    }
  }

  /** With the default threshold of 0.8, at most one atlas slice is selected. */
  lemma DefaultSelectsAtMostOne(p: ParamSeg, exp: real -> real, norm: seq<real> -> real,
                                t: TargetSlice, atlas: seq<AtlasSlice>)
    requires IsExp(exp)
    requires forall j :: 0 <= j < |atlas| ==> |atlas[j].coord| == |t.coord|
    requires p.thrSimilarity == Default().thrSimilarity
    ensures |SelectForSlice(p, exp, norm, t, atlas)| <= 1
  {
    SelectionBounded(p, exp, norm, t, atlas);
    assert (1.0 / 0.8).Floor == 1;
  }

  /** An empty atlas selects nothing, for every target slice. */
  lemma EmptyAtlasSelectsNothing(p: ParamSeg, exp: real -> real, norm: seq<real> -> real,
                                 targets: seq<TargetSlice>)
    requires IsExp(exp)
    ensures forall i :: 0 <= i < |targets| ==> ComputeSimilarities(p, exp, norm, targets, [])[i] == []
  {
  }

  /**
   Two atlas slices, the target at distance 0 from the first and at a
   positive distance from the second, no level file, a positive coordinate
   weight and threshold 0.5: only the first atlas slice is selected.
   */
  lemma TwoSliceScenario(p: ParamSeg, exp: real -> real, norm: seq<real> -> real,
                         t: TargetSlice, a0: AtlasSlice, a1: AtlasSlice)
    requires IsExp(exp)
    requires IsNorm(norm)
    requires !p.hasLevelFile && p.weightCoord > 0.0 && p.thrSimilarity == 0.5
    requires |a0.coord| == |t.coord| && |a1.coord| == |t.coord|
    requires t.coord == a0.coord && t.coord != a1.coord
    ensures SelectForSlice(p, exp, norm, t, [a0, a1]) == [0]
  {
    var atlas := [a0, a1];
    var d0, d1 := Distance(norm, t, a0), Distance(norm, t, a1);
    assert d0 == 0.0;
    assert d1 > 0.0;
    var s := RawSimilarities(p, exp, norm, t, atlas);
    assert Penalty(p.weightCoord, 0.0) == 0.0;
    assert s[0] == 1.0;
    FactorStrict(exp, p.weightCoord, 0.0, d1);
    assert s[1] < 1.0;
    var ns := NormalizedSimilarities(p, exp, norm, t, atlas);
    assert Sum(s) == s[0] + s[1] by {
      assert s[..1][..0] == [];
      assert Sum(s[..1]) == s[0];
    }
    assert ns[0] > 0.5 by {
      assert ns[0] * Sum(s) == 1.0;
      HalfShare(ns[0], 1.0, s[1]);
    }
    assert ns[1] < 0.5 by {
      assert ns[1] * Sum(s) == s[1];
      assert ns[1] == 1.0 - ns[0] by {
        assert Sum(ns) == ns[0] + ns[1] by {
          assert ns[..1][..0] == [];
          assert Sum(ns[..1]) == ns[0];
        }
      }
    }
    assert IsSelection(ns, 0.5, [0]);
    SelectionIsUnique(ns, 0.5, [0]);
  }

}
