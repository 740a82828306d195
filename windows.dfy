/** The three sample windows of the detector (`sample_local`, `sample_right`
    and `sample_left`), taken with Python slice semantics. */
module Windows {
  import opened PySeq

  /** `array[ii-7:ii+9]`: the flux around the centre `ii`. */
  function SampleLocal(a: seq<real>, ii: int): (w: seq<real>)
    ensures |w| <= 16 && |w| <= |a|
  {
    Slice(a, ii - 7, ii + 9)
  }

  /** `array[ii:ii+16]`: the gradient from the centre `ii` rightwards. */
  function SampleRight(a: seq<real>, ii: int): (w: seq<real>)
    ensures |w| <= 16 && |w| <= |a|
  {
    Slice(a, ii, ii + 16)
  }

  /** `array[ii-15:ii+1]`: the gradient up to and including the centre `ii`. */
  function SampleLeft(a: seq<real>, ii: int): (w: seq<real>)
    ensures |w| <= 16 && |w| <= |a|
  {
    Slice(a, ii - 15, ii + 1)
  }

  /** The right window is full exactly when sixteen samples remain from `ii`;
      otherwise the stop is clipped to the end and the window is shorter. */
  lemma RightWindow(a: seq<real>, ii: int)
    requires 0 <= ii < |a|
    ensures |SampleRight(a, ii)| <= 16
    ensures |SampleRight(a, ii)| == 16 <==> ii + 16 <= |a|
    ensures ii + 16 <= |a| ==> SampleRight(a, ii) == a[ii..ii + 16]
  {
  }

  /** The left window is full exactly from centre 15 on. Before that its start
      is negative and counts from the end, which leaves a window that is
      shorter than sixteen, usually empty. */
  lemma LeftWindow(a: seq<real>, ii: int)
    requires 0 <= ii < |a|
    ensures |SampleLeft(a, ii)| <= 16
    ensures |SampleLeft(a, ii)| == 16 <==> ii >= 15
    ensures ii >= 15 ==> SampleLeft(a, ii) == a[ii - 15..ii + 1]
  {
    if ii >= 15 {
      assert SliceBound(|a|, ii - 15) == ii - 15;
      assert SliceBound(|a|, ii + 1) == ii + 1;
    }
  }

  /** From centre 7 on the local window is a plain run of the flux, clipped at
      the end, and it holds a thirteenth element exactly when at least six
      samples follow the centre. */
  lemma LocalWindow(a: seq<real>, ii: int)
    requires 0 <= ii < |a|
    ensures |SampleLocal(a, ii)| <= 16
    ensures 7 <= ii ==> SampleLocal(a, ii) == a[ii - 7..if ii + 9 <= |a| then ii + 9 else |a|]
    ensures 7 <= ii ==> (|SampleLocal(a, ii)| >= 13 <==> ii + 6 <= |a|)
  {
  }
}
