/** The gradient bank: `gradient_calc` and the four gradients that
    `cosmic_removal` builds from the flux. */
module Gradients {
  import opened PySeq

  /** `gradient_calc(array, steps)`: the rolled array minus the array. */
  function GradientCalc(a: seq<real>, steps: int): (g: seq<real>)
    ensures |g| == |a|
    ensures forall i :: 0 <= i < |a| ==> g[i] == a[(i - steps) % |a|] - a[i]
  {
    Sub(Roll(a, steps), a)
  }

  /** `gradlist`: forward differences of step one and two, then the same on the
      reversed flux, reversed back. */
  function GradientBank(flux: seq<real>): (grads: seq<seq<real>>)
    ensures |grads| == 4
    ensures forall d :: 0 <= d < 4 ==> |grads[d]| == |flux|
  {
    var rev := Flip(flux);
    [GradientCalc(flux, -1), GradientCalc(flux, -2),
     Flip(GradientCalc(rev, -1)), Flip(GradientCalc(rev, -2))]
  }

  /** Mirroring an index turns a step forward into a step backward. */
  lemma MirrorStep(n: nat, i: int, s: int)
    requires 0 <= i < n && 1 <= s <= 2
    ensures 0 <= n - 1 - (n - 1 - i + s) % n < n
    ensures n - 1 - (n - 1 - i + s) % n == (i - s) % n
  {
    if n == 1 {
      assert (n - 1 - i + s) % 1 == 0 && (i - s) % 1 == 0;
    } else {
      ModNear(n - 1 - i + s, n);
      ModNear(i - s, n);
    }
  }

  /** The gradient of the reversed flux, reversed back, looks backwards. */
  lemma BackwardGradientAt(flux: seq<real>, s: int, i: int)
    requires 0 <= i < |flux| && 1 <= s <= 2
    ensures Flip(GradientCalc(Flip(flux), -s))[i] == flux[(i - s) % |flux|] - flux[i]
  {
    var n := |flux|;
    var rev := Flip(flux);
    var j := n - 1 - i;
    MirrorStep(n, i, s);
    assert GradientCalc(rev, -s)[j] == rev[(j + s) % n] - rev[j];
    assert rev[(j + s) % n] == flux[n - 1 - (j + s) % n];
  }

  /** The four gradients at a sample: the next sample minus this one, the one
      after next minus this one, the previous one minus this one and the one
      before the previous minus this one, every neighbour taken circularly. */
  lemma GradientBankAt(flux: seq<real>, i: int)
    requires 0 <= i < |flux|
    ensures GradientBank(flux)[0][i] == flux[(i + 1) % |flux|] - flux[i]
    ensures GradientBank(flux)[1][i] == flux[(i + 2) % |flux|] - flux[i]
    ensures GradientBank(flux)[2][i] == flux[(i - 1) % |flux|] - flux[i]
    ensures GradientBank(flux)[3][i] == flux[(i - 2) % |flux|] - flux[i]
  {
    BackwardGradientAt(flux, 1, i);
    BackwardGradientAt(flux, 2, i);
  }

  /** A constant flux has every gradient zero everywhere. */
  lemma ConstantFluxFlatGradients(flux: seq<real>, c: real)
    requires forall i :: 0 <= i < |flux| ==> flux[i] == c
    ensures forall d, i :: 0 <= d < 4 && 0 <= i < |flux| ==> GradientBank(flux)[d][i] == 0.0
  {
    forall d, i | 0 <= d < 4 && 0 <= i < |flux| ensures GradientBank(flux)[d][i] == 0.0 {
      GradientBankAt(flux, i);
    }
  }
}
