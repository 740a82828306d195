/** `array_maths` and the consensus expression of `cosmic_removal`: a sample is
    clipped as a cosmic ray when two gradients of one direction agree on it. */
module Consensus {
  import opened PySeq

  /** `(array*array2) + np.roll(array, 1)*array2 + np.roll(array2, -1)*array`
      for a left flag array `a` and a right flag array `b`. */
  function ArrayMaths(a: seq<int>, b: seq<int>): (m: seq<int>)
    requires |a| == |b|
    ensures |m| == |a|
  {
    Add(Add(Mul(a, b), Mul(Roll(a, 1), b)), Mul(Roll(b, -1), a))
  }

  /** At sample `i`: the left and right flags of `i` agree, or the left flag
      of the previous sample meets the right flag of `i`, or the left flag of
      `i` meets the right flag of the next sample, neighbours taken circularly. */
  lemma ArrayMathsAt(a: seq<int>, b: seq<int>, i: int)
    requires |a| == |b| && 0 <= i < |a|
    ensures ArrayMaths(a, b)[i] ==
            a[i] * b[i] + a[(i - 1) % |a|] * b[i] + b[(i + 1) % |a|] * a[i]
  {
  }

  /** A flag array in the form the detector leaves it: every slot 0 or 1. */
  predicate ZeroOne(a: seq<int>) {
    forall i :: 0 <= i < |a| ==> a[i] == 0 || a[i] == 1
  }

  /** On 0/1 flag arrays `array_maths` is never negative, and it is positive
      at `i` exactly when `i` is right-flagged and it or its predecessor is
      left-flagged, or `i` is left-flagged and its successor right-flagged. */
  lemma ArrayMathsPositive(a: seq<int>, b: seq<int>, i: int)
    requires |a| == |b| && 0 <= i < |a| && ZeroOne(a) && ZeroOne(b)
    ensures ArrayMaths(a, b)[i] >= 0
    ensures ArrayMaths(a, b)[i] > 0 <==>
            (b[i] == 1 && (a[i] == 1 || a[(i - 1) % |a|] == 1)) ||
            (a[i] == 1 && b[(i + 1) % |a|] == 1)
  {
    ArrayMathsAt(a, b, i);
    var n := |a|;
    var p, q := (i - 1) % n, (i + 1) % n;
    assert a[p] == 0 || a[p] == 1;
    assert b[q] == 0 || b[q] == 1;
    assert a[i] == 0 || a[i] == 1;
    assert b[i] == 0 || b[i] == 1;
  }

  /** Four left and four right flag arrays, all of one length. */
  predicate FlagBanks(left: seq<seq<int>>, right: seq<seq<int>>) {
    |left| == 4 && |right| == 4 &&
    forall d :: 0 <= d < 4 ==> |left[d]| == |left[0]| && |right[d]| == |left[0]|
  }

  /** A product of two non-negative integers is positive exactly when both are. */
  lemma ProductPositive(x: int, y: int)
    requires x >= 0 && y >= 0
    ensures x * y >= 0
    ensures x * y > 0 <==> x > 0 && y > 0
  {
    if x > 0 && y > 0 {
      assert x * y >= y;
    }
  }

  /** `array_maths` of gradient `d`: its left and its right flag array. */
  function Agreement(left: seq<seq<int>>, right: seq<seq<int>>, d: int): (m: seq<int>)
    requires FlagBanks(left, right) && 0 <= d < 4
    ensures |m| == |left[0]|
  {
    ArrayMaths(left[d], right[d])
  }

  /** `cosmic_flags`: the two forward gradients must agree, or the two
      backward ones must, and the sum is clipped at 1. */
  function CosmicFlags(left: seq<seq<int>>, right: seq<seq<int>>): (c: seq<int>)
    requires FlagBanks(left, right)
    ensures |c| == |left[0]|
  {
    ClipMax(Add(Mul(Agreement(left, right, 0), Agreement(left, right, 1)),
                Mul(Agreement(left, right, 2), Agreement(left, right, 3))), 1)
  }

  /** On 0/1 flag arrays every cosmic flag is 0 or 1, and it is 1 exactly
      when both forward gradients see a spike there or both backward ones do. */
  lemma CosmicFlagsIff(left: seq<seq<int>>, right: seq<seq<int>>, i: int)
    requires FlagBanks(left, right)
    requires forall d :: 0 <= d < 4 ==> ZeroOne(left[d]) && ZeroOne(right[d])
    requires 0 <= i < |left[0]|
    ensures CosmicFlags(left, right)[i] == 0 || CosmicFlags(left, right)[i] == 1
    ensures CosmicFlags(left, right)[i] == 1 <==>
            (Agreement(left, right, 0)[i] > 0 && Agreement(left, right, 1)[i] > 0) ||
            (Agreement(left, right, 2)[i] > 0 && Agreement(left, right, 3)[i] > 0)
  {
    var m0, m1 := Agreement(left, right, 0)[i], Agreement(left, right, 1)[i];
    var m2, m3 := Agreement(left, right, 2)[i], Agreement(left, right, 3)[i];
    ArrayMathsPositive(left[0], right[0], i);
    ArrayMathsPositive(left[1], right[1], i);
    ArrayMathsPositive(left[2], right[2], i);
    ArrayMathsPositive(left[3], right[3], i);
    ProductPositive(m0, m1);
    ProductPositive(m2, m3);
    var sum := Add(Mul(Agreement(left, right, 0), Agreement(left, right, 1)),
                   Mul(Agreement(left, right, 2), Agreement(left, right, 3)));
    assert sum[i] == m0 * m1 + m2 * m3;
  }

  /** When both gradients of one direction (`e == 0` forward, `e == 2`
      backward) have their left and their right flag set at `i`, `i` is a
      cosmic flag. */
  lemma PairAgreementFlag(left: seq<seq<int>>, right: seq<seq<int>>, i: int, e: int)
    requires FlagBanks(left, right)
    requires forall d :: 0 <= d < 4 ==> ZeroOne(left[d]) && ZeroOne(right[d])
    requires 0 <= i < |left[0]| && (e == 0 || e == 2)
    requires left[e][i] == 1 && right[e][i] == 1 && left[e + 1][i] == 1 && right[e + 1][i] == 1
    ensures CosmicFlags(left, right)[i] == 1
  {
    ArrayMathsPositive(left[e], right[e], i);
    ArrayMathsPositive(left[e + 1], right[e + 1], i);
    CosmicFlagsIff(left, right, i);
  }

  /** A cosmic flag at `i` needs the right flag array of some gradient to be
      set at `i` or at its successor, and the left flag array of that
      gradient at `i` or at its predecessor. */
  lemma CosmicFlagSource(left: seq<seq<int>>, right: seq<seq<int>>, i: int)
    requires FlagBanks(left, right)
    requires forall d :: 0 <= d < 4 ==> ZeroOne(left[d]) && ZeroOne(right[d])
    requires 0 <= i < |left[0]|
    ensures CosmicFlags(left, right)[i] == 1 ==>
            exists d :: 0 <= d < 4 &&
              ((right[d][i] == 1 && (left[d][i] == 1 || left[d][(i - 1) % |left[0]|] == 1)) ||
               (left[d][i] == 1 && right[d][(i + 1) % |left[0]|] == 1))
  {
    CosmicFlagsIff(left, right, i);
    if Agreement(left, right, 0)[i] > 0 && Agreement(left, right, 1)[i] > 0 {
      ArrayMathsPositive(left[0], right[0], i);
      assert 0 <= 0 < 4;
    } else if Agreement(left, right, 2)[i] > 0 && Agreement(left, right, 3)[i] > 0 {
      ArrayMathsPositive(left[2], right[2], i);
      assert 0 <= 2 < 4;
    }
  }

  /** With every right flag array clear, no sample is a cosmic ray. */
  lemma NoRightFlagsNoCosmicFlags(left: seq<seq<int>>, right: seq<seq<int>>)
    requires FlagBanks(left, right)
    requires forall d :: 0 <= d < 4 ==> ZeroOne(left[d]) && ZeroOne(right[d])
    requires forall d, j :: 0 <= d < 4 && 0 <= j < |left[0]| ==> right[d][j] == 0
    ensures forall i :: 0 <= i < |left[0]| ==> CosmicFlags(left, right)[i] == 0
  {
    forall i | 0 <= i < |left[0]| ensures CosmicFlags(left, right)[i] == 0 {
      CosmicFlagsIff(left, right, i);
      CosmicFlagSource(left, right, i);
    }
  }

  /** A flag array with no slot set. */
  predicate Clear(a: seq<int>) {
    forall j :: 0 <= j < |a| ==> a[j] == 0
  }

  /** Every term of `array_maths` has a left and a right factor, so a gradient
      whose left or whose right flag array is clear agrees nowhere. */
  lemma ClearSideNoAgreement(a: seq<int>, b: seq<int>, i: int)
    requires |a| == |b| && 0 <= i < |a|
    requires Clear(a) || Clear(b)
    ensures ArrayMaths(a, b)[i] == 0
  {
    var n := |a|;
    ArrayMathsAt(a, b, i);
    var p, q := (i - 1) % n, (i + 1) % n;
    if Clear(a) {
      assert a[i] == 0 && a[p] == 0;
    } else {
      assert b[i] == 0 && b[q] == 0;
    }
  }

  /** When one forward gradient `f` and one backward gradient `k` each have a
      clear flag array on some side, neither direction can agree and no sample
      is a cosmic ray. */
  lemma ClearGradientsNoCosmicFlags(left: seq<seq<int>>, right: seq<seq<int>>, f: int, k: int)
    requires FlagBanks(left, right)
    requires forall d :: 0 <= d < 4 ==> ZeroOne(left[d]) && ZeroOne(right[d])
    requires 0 <= f < 2 && 2 <= k < 4
    requires Clear(left[f]) || Clear(right[f])
    requires Clear(left[k]) || Clear(right[k])
    ensures forall i :: 0 <= i < |left[0]| ==> CosmicFlags(left, right)[i] == 0
  {
    forall i | 0 <= i < |left[0]| ensures CosmicFlags(left, right)[i] == 0 {
      ClearSideNoAgreement(left[f], right[f], i);
      ClearSideNoAgreement(left[k], right[k], i);
      CosmicFlagsIff(left, right, i);
    }
  }

  /** When left flags sit only in [13, N - 4] and right flags only in
      [13, N - 14], so do the cosmic flags: a cosmic flag needs a right flag at
      it or at its successor, and a left flag at it or at its predecessor. */
  lemma CosmicFlagsWithin(left: seq<seq<int>>, right: seq<seq<int>>, i: int)
    requires FlagBanks(left, right)
    requires forall d :: 0 <= d < 4 ==> ZeroOne(left[d]) && ZeroOne(right[d])
    requires forall d, j :: 0 <= d < 4 && 0 <= j < |left[0]| && left[d][j] == 1 ==>
               13 <= j <= |left[0]| - 4
    requires forall d, j :: 0 <= d < 4 && 0 <= j < |left[0]| && right[d][j] == 1 ==>
               13 <= j <= |left[0]| - 14
    requires 0 <= i < |left[0]|
    ensures CosmicFlags(left, right)[i] == 1 ==> 13 <= i <= |left[0]| - 14
  {
    var n := |left[0]|;
    CosmicFlagSource(left, right, i);
    if CosmicFlags(left, right)[i] == 1 {
      var d :| 0 <= d < 4 &&
        ((right[d][i] == 1 && (left[d][i] == 1 || left[d][(i - 1) % n] == 1)) ||
         (left[d][i] == 1 && right[d][(i + 1) % n] == 1));
      if right[d][i] != 1 {
        var q := (i + 1) % n;
        assert left[d][i] == 1 && right[d][q] == 1;
        assert 13 <= q <= n - 14;
        ModNear(i + 1, n);
      }
    }
  }
}
