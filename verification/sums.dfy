/**
 Sums and normalisation of similarity scores, over the reals.

 `Sum` folds from the left, starting at 0, exactly as Python's built-in
 `sum` does; over the reals the order does not change the value, but the
 definition keeps the source's shape.
 */
module Sums {
  import opened Arith

  function Sum(s: seq<real>): real
  {
    if |s| == 0 then 0.0 else Sum(s[..|s| - 1]) + s[|s| - 1]
  }

  predicate Positive(s: seq<real>)
  {
    forall j :: 0 <= j < |s| ==> s[j] > 0.0
  }

  predicate NonNegative(s: seq<real>)
  {
    forall j :: 0 <= j < |s| ==> s[j] >= 0.0
  }

  /** A sum of non-negative terms is non-negative. */
  lemma {:induction false} SumNonNegative(s: seq<real>)
    requires NonNegative(s)
    ensures Sum(s) >= 0.0
  {
    if |s| > 0 {
      SumNonNegative(s[..|s| - 1]);
    }
  }

  /** A non-empty sum of positive terms is positive, so dividing by it is safe. */
  lemma {:induction false} SumPositive(s: seq<real>)
    requires Positive(s)
    requires |s| > 0
    ensures Sum(s) > 0.0
  {
    var init := s[..|s| - 1];
    if |init| > 0 {
      SumPositive(init);
    }
  }

  /** No non-negative term exceeds the sum it is part of. */
  lemma {:induction false} TermAtMostSum(s: seq<real>, k: int)
    requires NonNegative(s)
    requires 0 <= k < |s|
    ensures s[k] <= Sum(s)
  {
    var init := s[..|s| - 1];
    SumNonNegative(init);
    if k < |s| - 1 {
      TermAtMostSum(init, k);
    }
  }

  /** Every term divided by the same non-zero constant. */
  function Scale(s: seq<real>, c: real): (r: seq<real>)
    requires c != 0.0
    ensures |r| == |s|
    ensures forall j :: 0 <= j < |r| ==> r[j] * c == s[j]
  {
    seq(|s|, j requires 0 <= j < |s| => s[j] / c)
  }

  /** Dividing every term by `c` divides the sum by `c`. */
  lemma {:induction false} SumScale(s: seq<real>, c: real)
    requires c != 0.0
    ensures Sum(Scale(s, c)) == Sum(s) / c
  {
    if |s| > 0 {
      var init := s[..|s| - 1];
      var r := Scale(s, c);
      assert r[..|r| - 1] == Scale(init, c);
      SumScale(init, c);
      assert r[|r| - 1] == s[|s| - 1] / c;
      QuotientOfSum(Sum(init), s[|s| - 1], c);
    }
  }

  /** Dividing terms by their non-zero total gives shares that add up to 1. */
  lemma SharesSumToOne(s: seq<real>)
    requires Sum(s) != 0.0
    ensures Sum(Scale(s, Sum(s))) == 1.0
  {
    SumScale(s, Sum(s));
    SelfQuotient(Sum(s));
  }

  /** Dividing positive terms by their total gives shares in (0, 1]. */
  lemma SharesInUnitInterval(s: seq<real>)
    requires Positive(s)
    requires Sum(s) > 0.0
    ensures forall j :: 0 <= j < |s| ==> 0.0 < Scale(s, Sum(s))[j] <= 1.0
  {
    var total := Sum(s);
    var n := Scale(s, total);
    assert NonNegative(s);
    forall j | 0 <= j < |n|
      ensures 0.0 < n[j] <= 1.0
    {
      TermAtMostSum(s, j);
      ShareBounds(s[j], total, n[j]);
    }
  }

  /**
   The normalisation of one target slice's similarities (line 318): each
   similarity divided by the sum of all of them. An empty list stays empty and
   no division happens.
   */
  function Normalize(s: seq<real>): (n: seq<real>)
    requires Positive(s)
    ensures |n| == |s|
    ensures forall j :: 0 <= j < |n| ==> 0.0 < n[j] <= 1.0
    ensures |s| > 0 ==> Sum(n) == 1.0
    ensures |s| > 0 ==> forall j :: 0 <= j < |n| ==> n[j] * Sum(s) == s[j]
  {
    if |s| == 0 then []
    else
      SumPositive(s);
      SharesSumToOne(s);
      SharesInUnitInterval(s);
      Scale(s, Sum(s))
  }
}
