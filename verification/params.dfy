/**
 Run-scoped parameters of the gray-matter segmentation (class `ParamSeg`).

 Only the fields that the similarity rule and the label fusion read are
 modelled. The input file names are left out, except that the presence of a
 vertebral-level file decides which similarity equation is used.
 */
module Params {

  /** `hasLevelFile` stands for "a level file name was supplied";
      `typeSeg` keeps the source's free-form string ("prob" or "bin"). */
  datatype ParamSeg = ParamSeg(
    hasLevelFile: bool,
    weightLevel: real,    // gamma: penalty per unit of level mismatch
    weightCoord: real,    // tau: penalty per unit of reduced-space distance
    thrSimilarity: real,  // epsilon, applied to similarities normalised to sum 1
    typeSeg: string)

  /** The values a fresh `ParamSeg` starts with: no level file, both
      penalty weights positive, a threshold in (0, 1] that admits at most
      one share (floor(1 / thr) == 1), and probabilistic output. */
  function Default(): (r: ParamSeg)
    ensures !r.hasLevelFile
    ensures r.weightLevel > 0.0 && r.weightCoord > 0.0
    ensures 0.0 < r.thrSimilarity <= 1.0 && (1.0 / r.thrSimilarity).Floor == 1
    ensures !IsBinary(r)
  {
    ParamSeg(false, 2.5, 0.0065, 0.8, "prob")
  }

  /** Only the exact string "bin" switches binarisation on; any other value
      keeps the probabilistic masks. */
  predicate IsBinary(p: ParamSeg)
  {
    p.typeSeg == "bin"
  }
}
