/**
 The threshold selection of atlas indices (one target slice).

 The source walks the normalised similarities in atlas order and appends every
 index whose similarity reaches the threshold. `IsSelection` is the
 declarative reading of that rule; `Select` is the walk itself.
 */
module Selection {
  import opened Sums
  import opened Arith

  ghost predicate StrictlyIncreasing(r: seq<nat>)
  {
    forall a, b :: 0 <= a < b < |r| ==> r[a] < r[b]
  }

  /** `r` lists, in increasing atlas order, exactly the indices whose
      normalised similarity is at least `thr`. */
  ghost predicate IsSelection(ns: seq<real>, thr: real, r: seq<nat>)
  {
    && StrictlyIncreasing(r)
    && (forall k :: 0 <= k < |r| ==> r[k] < |ns|)
    && (forall j: nat :: j < |ns| ==> (j in r <==> ns[j] >= thr))
  }

  function Select(ns: seq<real>, thr: real): (r: seq<nat>)
    ensures IsSelection(ns, thr, r)
  {
    if |ns| == 0 then []
    else
      var last := |ns| - 1;
      var earlier := Select(ns[..last], thr);
      assert forall j: nat :: j < last ==> ns[..last][j] == ns[j];
      if ns[last] >= thr then earlier + [last] else earlier
  }

  /** Two increasing lists with the same elements are the same list. */
  lemma {:induction false} IncreasingDeterminedByElements(a: seq<nat>, b: seq<nat>)
    requires StrictlyIncreasing(a) && StrictlyIncreasing(b)
    requires forall x :: x in a <==> x in b
    ensures a == b
  {
    assert |a| > 0 ==> a[0] in b;
    assert |b| > 0 ==> b[0] in a;
    if |a| > 0 && |b| > 0 {
      assert a[0] == b[0];
      forall x
        ensures x in a[1..] <==> x in b[1..]
      {
        if x in a[1..] {
          assert x in a && x != a[0];
        }
        if x in b[1..] {
          assert x in b && x != b[0];
        }
      }
      IncreasingDeterminedByElements(a[1..], b[1..]);
      assert a == [a[0]] + a[1..];
      assert b == [b[0]] + b[1..];
    }
  }

  /** Membership by threshold is the only thing that decides the selection:
      any list meeting the rule is the one `Select` builds. */
  lemma SelectionIsUnique(ns: seq<real>, thr: real, r: seq<nat>)
    requires IsSelection(ns, thr, r)
    ensures r == Select(ns, thr)
  {
    var s := Select(ns, thr);
    forall x
      ensures x in r <==> x in s
    {
    }
    IncreasingDeterminedByElements(r, s);
  }

  /** Raising the threshold can only drop indices. */
  lemma SelectMonotone(ns: seq<real>, thr1: real, thr2: real)
    requires thr1 <= thr2
    ensures forall j :: j in Select(ns, thr2) ==> j in Select(ns, thr1)
  {
  }

  /** ... and so it can only shorten the list. */
  lemma {:induction false} SelectMonotoneSize(ns: seq<real>, thr1: real, thr2: real)
    requires thr1 <= thr2
    ensures |Select(ns, thr2)| <= |Select(ns, thr1)|
  {
    if |ns| > 0 {
      SelectMonotoneSize(ns[..|ns| - 1], thr1, thr2);
    }
  }

  /** Every selected index carries at least `thr`, so the selected indices
      together account for at least `|r| * thr` of the total. */
  lemma {:induction false} SelectedMass(ns: seq<real>, thr: real)
    requires NonNegative(ns)
    requires thr >= 0.0
    ensures (|Select(ns, thr)| as real) * thr <= Sum(ns)
  {
    if |ns| > 0 {
      var last := |ns| - 1;
      var init := ns[..last];
      assert NonNegative(init);
      SelectedMass(init, thr);
      SelectStep(ns, thr);
      assert Sum(ns) == Sum(init) + ns[last];
      MassStep(|Select(init, thr)| as real, |Select(ns, thr)| as real, thr, Sum(init), ns[last]);
    }
  }

  /** One step of the walk: the last index is appended iff it reaches the threshold. */
  lemma SelectStep(ns: seq<real>, thr: real)
    requires |ns| > 0
    ensures var last := |ns| - 1;
            Select(ns, thr) == if ns[last] >= thr then Select(ns[..last], thr) + [last] else Select(ns[..last], thr)
  {
  }

  /** With similarities that sum to 1 and a positive threshold, at most
      `floor(1 / thr)` indices can be selected. */
  lemma SelectionCap(ns: seq<real>, thr: real)
    requires NonNegative(ns)
    requires Sum(ns) == 1.0
    requires thr > 0.0
    ensures |Select(ns, thr)| <= (1.0 / thr).Floor
  {
    SelectedMass(ns, thr);
    BelowReciprocal(|Select(ns, thr)| as real, thr);
  }
}
