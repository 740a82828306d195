/** The detection loop of `cosmic_removal`: for every centre and every
    gradient, the `try` block that sorts the windows, runs the Q test and
    calls `Q_test_flagging` on the left and then the right flag array. */
module Detection {
  import opened PySeq
  import opened Sorting
  import opened Windows
  import opened QStatistic
  import opened Gradients

  /** The Q threshold `cosmic_removal` passes to every check. */
  const Threshold: real := 0.4

  /** `adjustor[idx]`: which flux sample the gradient `idx` points at, relative
      to the centre. */
  function Adjustor(d: int): int
    requires 0 <= d < 4
  {
    if d == 0 then 1 else if d == 1 then 2 else if d == 2 then -1 else -2
  }

  /** `adjustor = [1, 2, -1, -2]`: the two forward gradients point ahead and
      the two backward ones behind. */
  lemma AdjustorValues(d: int)
    requires 0 <= d < 4
    ensures Adjustor(d) == 1 || Adjustor(d) == 2 || Adjustor(d) == -1 || Adjustor(d) == -2
    ensures Adjustor(d) > 0 <==> d < 2
  {
  }

  /** `adjustor[idx]` is the step of gradient `idx`: the gradient at a sample
      is the flux that many samples on, circularly, minus the sample. */
  lemma AdjustorIsGradientStep(flux: seq<real>, d: int, i: int)
    requires 0 <= d < 4 && 0 <= i < |flux|
    ensures GradientBank(flux)[d][i] == flux[(i + Adjustor(d)) % |flux|] - flux[i]
  {
    GradientBankAt(flux, i);
  }

  datatype Option<+T> = None | Some(value: T)

  datatype Side = Left | Right

  /** The slots at which one pass of the `try` block increments the left and
      the right flag array; `None` where it increments nothing. */
  datatype Hits = Hits(left: Option<nat>, right: Option<nat>)

  /** One pass of the `try` block for centre `i` and one gradient, given its
      three sorted windows. An IndexError, whether from the left window's Q
      test or from the left call of `Q_test_flagging`, also skips the right
      check. */
  function Decide(flux: seq<real>, grad: seq<real>, adjust: int, i: int,
                  localSamp: seq<real>, samplesLeft: seq<real>, samplesRight: seq<real>): (h: Hits)
    ensures h.left.Some? ==> h.left.value < |flux|
    ensures h.right.Some? ==> h.right.value < |flux|
  {
    match QTest(samplesLeft)
    case IndexError => Hits(None, None)
    case Ok(ql) =>
      var lo := FlagDecision(flux, grad, i, samplesLeft, localSamp, ql, Threshold, adjust, |flux|);
      if lo.Raised? then Hits(None, None)
      else
        var left := if lo.Flag? then Some(lo.slot) else None;
        match QTest(samplesRight)
        case IndexError => Hits(left, None)
        case Ok(qr) =>
          var ro := FlagDecision(flux, grad, i, samplesRight, localSamp, qr, Threshold, adjust, |flux|);
          Hits(left, if ro.Flag? then Some(ro.slot) else None)
  }

  /** The same pass, sorting the windows as `cosmic_removal` does. */
  function CheckAt(flux: seq<real>, grad: seq<real>, adjust: int, i: int): (h: Hits)
    ensures h.left.Some? ==> h.left.value < |flux|
    ensures h.right.Some? ==> h.right.value < |flux|
  {
    Decide(flux, grad, adjust, i, Sort(SampleLocal(flux, i)),
           Sort(SampleLeft(grad, i)), Sort(SampleRight(grad, i)))
  }

  /** Where the check at centre `i` on gradient `d` increments the flag array
      of `side`. */
  function Hit(flux: seq<real>, d: int, side: Side, i: int): (h: Option<nat>)
    requires 0 <= d < 4
    ensures h.Some? ==> h.value < |flux|
  {
    var h := CheckAt(flux, GradientBank(flux)[d], Adjustor(d), i);
    if side == Left then h.left else h.right
  }

  /** A flag array with the slot `h` incremented. */
  function Bump(a: seq<int>, h: Option<nat>): seq<int>
    requires h.Some? ==> h.value < |a|
  {
    if h.Some? then a[h.value := a[h.value] + 1] else a
  }

  /** The hit of every centre, for gradient `d` and `side`. */
  function HitsOf(flux: seq<real>, d: int, side: Side): (hits: seq<Option<nat>>)
    requires 0 <= d < 4
    ensures |hits| == |flux|
  {
    seq(|flux|, i requires 0 <= i < |flux| => Hit(flux, d, side, i))
  }

  /** A flag array once the hits of the centres below `upto` are counted,
      when the centre `i` can only hit slot `i + adjust`: each slot holds 1 if
      the one centre that can target it hit it, and 0 otherwise. */
  function Fill(hits: seq<Option<nat>>, adjust: int, upto: int): (p: seq<int>)
    ensures |p| == |hits|
  {
    seq(|hits|, j requires 0 <= j < |hits| =>
      if 0 <= j - adjust < upto && j - adjust < |hits| && hits[j - adjust] == Some(j) then 1 else 0)
  }

  /** Counting one more centre adds exactly its hit. */
  lemma FillStep(hits: seq<Option<nat>>, adjust: int, i: int)
    requires 0 <= i < |hits|
    requires hits[i].Some? ==> hits[i].value == i + adjust && hits[i].value < |hits|
    ensures Fill(hits, adjust, i + 1) == Bump(Fill(hits, adjust, i), hits[i])
  {
    var before, after := Fill(hits, adjust, i), Fill(hits, adjust, i + 1);
    forall j | 0 <= j < |hits| ensures after[j] == Bump(before, hits[i])[j] {
      if j - adjust == i {
        assert before[j] == 0;
      }
    }
  }

  /** The flag array of gradient `d` and `side` once the centres below `upto`
      have been checked. */
  function Partial(flux: seq<real>, d: int, side: Side, upto: int): (p: seq<int>)
    requires 0 <= d < 4
    ensures |p| == |flux|
  {
    Fill(HitsOf(flux, d, side), Adjustor(d), upto)
  }

  /** `flaglistL` or `flaglistR` after the whole scan. */
  function FinalFlags(flux: seq<real>, side: Side): (flags: seq<seq<int>>)
    ensures |flags| == 4
    ensures forall d :: 0 <= d < 4 ==> flags[d] == Partial(flux, d, side, |flux|)
  {
    seq(4, d requires 0 <= d < 4 => Partial(flux, d, side, |flux|))
  }

  /** The four conditions of `Q_test_flagging` on a full sorted window `s` and a
      sorted local window, with every index they use in range. */
  predicate Passes(flux: seq<real>, grad: seq<real>, i: int, adjust: int,
                   s: seq<real>, localSamp: seq<real>)
  {
    |s| == 16 && |localSamp| >= 13 && 0 <= i < |grad| && 0 <= i + adjust < |flux| &&
    s[15] - s[14] > Threshold * (s[14] - s[0]) && grad[i] == s[15] &&
    flux[i + adjust] > localSamp[12] && s[0] != 0.0
  }

  /** A hit always lands on `i + adjust`, and only comes from a centre with a
      full left window (so never from one of the first fifteen centres); a left
      hit needs six samples after the centre and a right hit sixteen. */
  lemma HitSlot(flux: seq<real>, d: int, side: Side, i: int)
    requires 0 <= d < 4 && 0 <= i < |flux|
    requires Hit(flux, d, side, i).Some?
    ensures Hit(flux, d, side, i).value == i + Adjustor(d)
    ensures 15 <= i
    ensures side == Left ==> i + 6 <= |flux| && i + Adjustor(d) < |flux|
    ensures side == Right ==> i + 16 <= |flux|
  {
    var g := GradientBank(flux)[d];
    LeftWindow(g, i);
    RightWindow(g, i);
    LocalWindow(flux, i);
  }

  /** On sorted windows, with the hit sample not before the start of the flux,
      the left check hits exactly when the left window is full, the hit sample
      exists and the four conditions hold, and it hits `i + adjust`. */
  lemma DecideLeft(flux: seq<real>, grad: seq<real>, adjust: int, i: int,
                   localSamp: seq<real>, samplesLeft: seq<real>, samplesRight: seq<real>)
    requires Ascending(samplesLeft) && |samplesLeft| <= 16
    requires 0 <= i < |grad| && 0 <= i + adjust
    ensures var h := Decide(flux, grad, adjust, i, localSamp, samplesLeft, samplesRight);
            (h.left.Some? <==> i + adjust < |flux| && Passes(flux, grad, i, adjust, samplesLeft, localSamp)) &&
            (h.left.Some? ==> h.left.value == i + adjust)
  {
    if |samplesLeft| == 16 && i + adjust < |flux| && |localSamp| >= 13 {
      FlaggingConditions(flux, grad, i, samplesLeft, localSamp, Threshold, adjust);
    }
  }

  /** On sorted windows, once the left window is full and every index the left
      check uses is in range, the left check cannot raise, and the right check
      hits exactly when the right window is full and the four conditions hold. */
  lemma DecideRight(flux: seq<real>, grad: seq<real>, adjust: int, i: int,
                    localSamp: seq<real>, samplesLeft: seq<real>, samplesRight: seq<real>)
    requires Ascending(samplesLeft) && |samplesLeft| == 16
    requires Ascending(samplesRight) && |samplesRight| <= 16
    requires 0 <= i < |grad| && 0 <= i + adjust < |flux| && |localSamp| >= 13
    ensures var h := Decide(flux, grad, adjust, i, localSamp, samplesLeft, samplesRight);
            (h.right.Some? <==> Passes(flux, grad, i, adjust, samplesRight, localSamp)) &&
            (h.right.Some? ==> h.right.value == i + adjust)
  {
    FlaggingConditions(flux, grad, i, samplesLeft, localSamp, Threshold, adjust);
    if |samplesRight| == 16 {
      FlaggingConditions(flux, grad, i, samplesRight, localSamp, Threshold, adjust);
    }
  }

  /** The left flag array of gradient `d` is hit from centre `i` exactly when
      the left window is full, the hit sample exists, and the four conditions
      hold on the sorted left window and the sorted local window. */
  lemma LeftHitIff(flux: seq<real>, d: int, i: int)
    requires 0 <= d < 4 && 0 <= i < |flux|
    ensures Hit(flux, d, Left, i).Some? <==>
            15 <= i && i + Adjustor(d) < |flux| &&
            Passes(flux, GradientBank(flux)[d], i, Adjustor(d),
                   Sort(GradientBank(flux)[d][i - 15..i + 1]),
                   Sort(flux[i - 7..if i + 9 <= |flux| then i + 9 else |flux|]))
  {
    var g := GradientBank(flux)[d];
    var localSamp, samplesLeft, samplesRight :=
      Sort(SampleLocal(flux, i)), Sort(SampleLeft(g, i)), Sort(SampleRight(g, i));
    assert Hit(flux, d, Left, i) == Decide(flux, g, Adjustor(d), i, localSamp, samplesLeft, samplesRight).left;
    LeftWindow(g, i);
    LocalWindow(flux, i);
    if 15 <= i {
      DecideLeft(flux, g, Adjustor(d), i, localSamp, samplesLeft, samplesRight);
    }
  }

  /** The right flag array of gradient `d` is hit from centre `i` exactly when
      both windows are full and the four conditions hold on the sorted right
      window; for such a centre the left call can never raise and skip it. */
  lemma RightHitIff(flux: seq<real>, d: int, i: int)
    requires 0 <= d < 4 && 0 <= i < |flux|
    ensures Hit(flux, d, Right, i).Some? <==>
            15 <= i && i + 16 <= |flux| &&
            Passes(flux, GradientBank(flux)[d], i, Adjustor(d),
                   Sort(GradientBank(flux)[d][i..i + 16]),
                   Sort(flux[i - 7..i + 9]))
  {
    var g := GradientBank(flux)[d];
    var localSamp, samplesLeft, samplesRight :=
      Sort(SampleLocal(flux, i)), Sort(SampleLeft(g, i)), Sort(SampleRight(g, i));
    assert Hit(flux, d, Right, i) == Decide(flux, g, Adjustor(d), i, localSamp, samplesLeft, samplesRight).right;
    LeftWindow(g, i);
    RightWindow(g, i);
    LocalWindow(flux, i);
    if 15 <= i && i + 16 <= |flux| {
      DecideRight(flux, g, Adjustor(d), i, localSamp, samplesLeft, samplesRight);
    } else if 15 <= i {
      DecideRightShort(flux, g, Adjustor(d), i, localSamp, samplesLeft, samplesRight);
    } else {
      DecideLeftShort(flux, g, Adjustor(d), i, localSamp, samplesLeft, samplesRight);
    }
  }

  /** A left window that is not full raises in its Q test, and that skips
      both calls of `Q_test_flagging`. */
  lemma DecideLeftShort(flux: seq<real>, grad: seq<real>, adjust: int, i: int,
                        localSamp: seq<real>, samplesLeft: seq<real>, samplesRight: seq<real>)
    requires |samplesLeft| < 16
    ensures Decide(flux, grad, adjust, i, localSamp, samplesLeft, samplesRight) == Hits(None, None)
  {
  }

  /** A right window that is not full raises in its Q test, so the right
      flag array is not hit. */
  lemma DecideRightShort(flux: seq<real>, grad: seq<real>, adjust: int, i: int,
                         localSamp: seq<real>, samplesLeft: seq<real>, samplesRight: seq<real>)
    requires |samplesRight| < 16
    ensures Decide(flux, grad, adjust, i, localSamp, samplesLeft, samplesRight).right == None
  {
  }

  /** Checking centre `i` adds exactly that centre's hit to the flag array. */
  lemma PartialStep(flux: seq<real>, d: int, side: Side, i: int)
    requires 0 <= d < 4 && 0 <= i < |flux|
    ensures Partial(flux, d, side, i + 1) == Bump(Partial(flux, d, side, i), Hit(flux, d, side, i))
  {
    var hits := HitsOf(flux, d, side);
    if hits[i].Some? {
      HitSlot(flux, d, side, i);
    }
    FillStep(hits, Adjustor(d), i);
  }

  /** In an iteration with `i < 15` no flag array changes, and a right flag
      array changes only in an iteration with `i + 16 <= N`. */
  lemma EdgeIterationsChangeNothing(flux: seq<real>, d: int, i: int)
    requires 0 <= d < 4 && 0 <= i < |flux|
    ensures i < 15 ==> Partial(flux, d, Left, i + 1) == Partial(flux, d, Left, i)
    ensures i < 15 || i + 16 > |flux| ==> Partial(flux, d, Right, i + 1) == Partial(flux, d, Right, i)
  {
    PartialStep(flux, d, Left, i);
    PartialStep(flux, d, Right, i);
    if Hit(flux, d, Left, i).Some? {
      HitSlot(flux, d, Left, i);
    }
    if Hit(flux, d, Right, i).Some? {
      HitSlot(flux, d, Right, i);
    }
  }

  /** A counted slot holds 0 or 1, and it holds 1 only when the one centre
      that can target it was counted and hit it. */
  lemma FillEntry(hits: seq<Option<nat>>, adjust: int, upto: int, j: int)
    requires 0 <= j < |hits|
    ensures Fill(hits, adjust, upto)[j] in {0, 1}
    ensures Fill(hits, adjust, upto)[j] == 1 ==>
            0 <= j - adjust < upto && j - adjust < |hits| && hits[j - adjust] == Some(j)
  {
  }

  /** A slot of a finished flag array of one side holds 0 or 1; it holds 1
      only in [13, N - 4] on the left and only in [13, N - 14] on the right. */
  lemma PartialRange(flux: seq<real>, d: int, side: Side, j: int)
    requires 0 <= d < 4 && 0 <= j < |flux|
    ensures Partial(flux, d, side, |flux|)[j] in {0, 1}
    ensures Partial(flux, d, side, |flux|)[j] == 1 ==>
            13 <= j <= |flux| - (if side == Left then 4 else 14)
    ensures Partial(flux, d, side, |flux|)[j] == 1 && side == Right ==> 31 <= |flux|
  {
    var adjust := Adjustor(d);
    assert -2 <= adjust <= 2;
    var i := j - adjust;
    var hits := HitsOf(flux, d, side);
    FillEntry(hits, adjust, |flux|, j);
    if Partial(flux, d, side, |flux|)[j] == 1 {
      assert 0 <= i < |flux| && hits[i] == Hit(flux, d, side, i) == Some(j);
      HitSlot(flux, d, side, i);
      assert 15 <= i && i + 16 <= |flux| + (if side == Left then 10 else 0);
    }
  }

  /** After the scan every flag is 0 or 1 (the increments never meet on one
      slot). A left flag sits only in [13, N - 4] and a right flag only in
      [13, N - 14]: both come from a centre with a full left window, and the
      right one from a centre with a full right window too. */
  lemma FinalFlagsRange(flux: seq<real>, d: int, j: int)
    requires 0 <= d < 4 && 0 <= j < |flux|
    ensures FinalFlags(flux, Left)[d][j] in {0, 1}
    ensures FinalFlags(flux, Right)[d][j] in {0, 1}
    ensures FinalFlags(flux, Left)[d][j] == 1 ==> 13 <= j <= |flux| - 4
    ensures FinalFlags(flux, Right)[d][j] == 1 ==> 13 <= j <= |flux| - 14 && 31 <= |flux|
  {
    PartialRange(flux, d, Left, j);
    PartialRange(flux, d, Right, j);
  }

  /** A set flag after the scan was set by the check at the one centre that
      targets it. */
  lemma FinalFlagHit(flux: seq<real>, d: int, side: Side, j: int)
    requires 0 <= d < 4 && 0 <= j < |flux|
    ensures FinalFlags(flux, side)[d][j] != 0 ==>
            0 <= j - Adjustor(d) < |flux| && Hit(flux, d, side, j - Adjustor(d)) == Some(j)
  {
    if FinalFlags(flux, side)[d][j] != 0 {
      var hits := HitsOf(flux, d, side);
      var i := j - Adjustor(d);
      assert 0 <= i < |flux| && hits[i] == Some(j) by {
        FillEntry(hits, Adjustor(d), |flux|, j);
        assert FinalFlags(flux, side)[d] == Fill(hits, Adjustor(d), |flux|);
      }
    }
  }

  /** A counted centre that hit its slot leaves a 1 there. */
  lemma FillHit(hits: seq<Option<nat>>, adjust: int, upto: int, i: int)
    requires 0 <= i < upto && i < |hits| && 0 <= i + adjust < |hits|
    requires hits[i] == Some(i + adjust)
    ensures Fill(hits, adjust, upto)[i + adjust] == 1
  {
  }

  /** A hit sets its flag: after the scan the slot the check at centre `i`
      targets holds 1. */
  lemma HitFlagged(flux: seq<real>, d: int, side: Side, i: int)
    requires 0 <= d < 4 && 0 <= i < |flux|
    requires Hit(flux, d, side, i).Some?
    ensures 0 <= i + Adjustor(d) < |flux| && FinalFlags(flux, side)[d][i + Adjustor(d)] == 1
  {
    var hits := HitsOf(flux, d, side);
    var j := i + Adjustor(d);
    assert hits[i] == Some(j) by {
      HitSlot(flux, d, side, i);
    }
    FillHit(hits, Adjustor(d), |flux|, i);
    assert FinalFlags(flux, side)[d] == Fill(hits, Adjustor(d), |flux|);
  }

  /** The check at centre `i` on gradient `d` hits both its left and its right
      flag array. */
  predicate BothHit(flux: seq<real>, d: int, i: int)
    requires 0 <= d < 4 && 0 <= i < |flux|
  {
    Hit(flux, d, Left, i).Some? && Hit(flux, d, Right, i).Some?
  }

  /** At a centre with both windows full, the four conditions of
      `Q_test_flagging` on its sorted left and on its sorted right window. */
  predicate WindowsPass(flux: seq<real>, d: int, i: int)
    requires 0 <= d < 4 && 15 <= i && i + 16 <= |flux|
  {
    var g := GradientBank(flux)[d];
    var localSamp := Sort(flux[i - 7..i + 9]);
    Passes(flux, g, i, Adjustor(d), Sort(g[i - 15..i + 1]), localSamp) &&
    Passes(flux, g, i, Adjustor(d), Sort(g[i..i + 16]), localSamp)
  }

  /** At a centre with both windows full, the left and the right flag array of
      gradient `d` are both hit exactly when both windows pass. */
  lemma WindowsPassIff(flux: seq<real>, d: int, i: int)
    requires 0 <= d < 4 && 15 <= i && i + 16 <= |flux|
    ensures WindowsPass(flux, d, i) <==> BothHit(flux, d, i)
  {
    LeftHitIff(flux, d, i);
    RightHitIff(flux, d, i);
  }

  /** When both windows of centre `i` pass on gradient `d`, the scan leaves
      a 1 at `i + adjustor[d]` in that gradient's left and right flag arrays. */
  lemma WindowsPassFlagged(flux: seq<real>, d: int, i: int)
    requires 0 <= d < 4 && 15 <= i && i + 16 <= |flux| && WindowsPass(flux, d, i)
    ensures 0 <= i + Adjustor(d) < |flux|
    ensures FinalFlags(flux, Left)[d][i + Adjustor(d)] == 1
    ensures FinalFlags(flux, Right)[d][i + Adjustor(d)] == 1
  {
    WindowsPassIff(flux, d, i);
    HitFlagged(flux, d, Left, i);
    HitFlagged(flux, d, Right, i);
  }

  /** On a constant flux no check hits: every gradient is zero, so the smallest
      element of a full sorted window is zero, which `Q_test_flagging` rejects. */
  lemma ConstantFluxNoHit(flux: seq<real>, c: real, d: int, side: Side, i: int)
    requires forall k :: 0 <= k < |flux| ==> flux[k] == c
    requires 0 <= d < 4 && 0 <= i < |flux|
    ensures Hit(flux, d, side, i) == None
  {
    ConstantFluxFlatGradients(flux, c);
    if side == Left {
      ConstantFluxNoLeftHit(flux, GradientBank(flux)[d], d, i);
    } else {
      ConstantFluxNoRightHit(flux, GradientBank(flux)[d], d, i);
    }
  }

  lemma ConstantFluxNoLeftHit(flux: seq<real>, g: seq<real>, d: int, i: int)
    requires 0 <= d < 4 && 0 <= i < |flux| && g == GradientBank(flux)[d]
    requires forall k :: 0 <= k < |g| ==> g[k] == 0.0
    ensures Hit(flux, d, Left, i) == None
  {
    if 15 <= i {
      assert Sort(g[i - 15..i + 1])[0] == 0.0 by {
        SortConstant(g[i - 15..i + 1], 0.0);
      }
    }
    LeftHitIff(flux, d, i);
  }

  lemma ConstantFluxNoRightHit(flux: seq<real>, g: seq<real>, d: int, i: int)
    requires 0 <= d < 4 && 0 <= i < |flux| && g == GradientBank(flux)[d]
    requires forall k :: 0 <= k < |g| ==> g[k] == 0.0
    ensures Hit(flux, d, Right, i) == None
  {
    if 15 <= i && i + 16 <= |flux| {
      assert !Passes(flux, g, i, Adjustor(d), Sort(g[i..i + 16]), Sort(flux[i - 7..i + 9])) by {
        SortConstant(g[i..i + 16], 0.0);
      }
    }
    RightHitIff(flux, d, i);
  }

  /** With no hit at all a flag array stays all zero. */
  lemma FillNoHits(hits: seq<Option<nat>>, adjust: int, upto: int)
    requires forall i :: 0 <= i < |hits| ==> hits[i] == None
    ensures forall j :: 0 <= j < |hits| ==> Fill(hits, adjust, upto)[j] == 0
  {
  }

  /** On a constant flux the flag array of gradient `d` and `side` stays all zero. */
  lemma ConstantFluxNoFlagsOn(flux: seq<real>, c: real, d: int, side: Side)
    requires forall k :: 0 <= k < |flux| ==> flux[k] == c
    requires 0 <= d < 4
    ensures forall j :: 0 <= j < |flux| ==> FinalFlags(flux, side)[d][j] == 0
  {
    var hits := HitsOf(flux, d, side);
    forall i | 0 <= i < |hits| ensures hits[i] == None {
      ConstantFluxNoHit(flux, c, d, side, i);
    }
    FillNoHits(hits, Adjustor(d), |flux|);
    assert FinalFlags(flux, side)[d] == Fill(hits, Adjustor(d), |flux|);
  }

  /** On a constant flux every flag array stays all zero. */
  lemma ConstantFluxNoFlags(flux: seq<real>, c: real)
    requires forall k :: 0 <= k < |flux| ==> flux[k] == c
    ensures forall d, j :: 0 <= d < 4 && 0 <= j < |flux| ==>
              FinalFlags(flux, Left)[d][j] == 0 && FinalFlags(flux, Right)[d][j] == 0
  {
    forall d | 0 <= d < 4
      ensures forall j :: 0 <= j < |flux| ==>
                FinalFlags(flux, Left)[d][j] == 0 && FinalFlags(flux, Right)[d][j] == 0
    {
      ConstantFluxNoFlagsOn(flux, c, d, Left);
      ConstantFluxNoFlagsOn(flux, c, d, Right);
    }
  }

  /** A flux equal to `c` everywhere except at `p`, which stands `D > 0` above
      the rest. */
  predicate FlatSpike(flux: seq<real>, c: real, p: int, D: real) {
    0 <= p < |flux| && D > 0.0 && flux[p] == c + D &&
    forall k :: 0 <= k < |flux| && k != p ==> flux[k] == c
  }

  /** A step-one gradient around a spike at `p`: `D` at `up`, the sample that
      steps onto the spike, `-D` at the spike, zero elsewhere. */
  function SpikeProfile(k: int, up: int, p: int, D: real): real {
    if k == up then D else if k == p then -D else 0.0
  }

  /** Away from the wrap, the forward step-one gradient of a flat spike is `D`
      just before the spike and `-D` at it. */
  lemma FlatSpikeForwardGradient(flux: seq<real>, c: real, p: int, D: real, k: int)
    requires FlatSpike(flux, c, p, D) && 0 <= k && k + 1 < |flux|
    ensures GradientBank(flux)[0][k] == SpikeProfile(k, p - 1, p, D)
  {
    var n := |flux|;
    assert GradientBank(flux)[0] == GradientCalc(flux, -1);
    ModNear(k + 1, n);
    assert GradientCalc(flux, -1)[k] == flux[k + 1] - flux[k];
  }

  /** Away from the wrap, the backward step-one gradient of a flat spike is
      `-D` at the spike and `D` just after it. */
  lemma FlatSpikeBackwardGradient(flux: seq<real>, c: real, p: int, D: real, k: int)
    requires FlatSpike(flux, c, p, D) && 1 <= k < |flux|
    ensures GradientBank(flux)[2][k] == SpikeProfile(k, p + 1, p, D)
  {
    var n := |flux|;
    assert GradientBank(flux)[2] == Flip(GradientCalc(Flip(flux), -1));
    BackwardGradientAt(flux, 1, k);
    ModNear(k - 1, n);
  }

  /** A full left window of a forward spike profile never passes: with the `D`
      before the centre (and so the `-D` as well) the centre is not its
      maximum, with only the `-D` the Q statistic is zero, and otherwise, with
      no spike value or with the `D` at the centre, its minimum is zero. */
  lemma SpikeLeftWindowFails(g: seq<real>, i: int, p: int, D: real)
    requires D > 0.0 && 15 <= i < |g|
    requires forall k :: i - 15 <= k <= i ==> g[k] == SpikeProfile(k, p - 1, p, D)
    ensures var s := Sort(g[i - 15..i + 1]);
            !(s[15] - s[14] > Threshold * (s[14] - s[0]) && g[i] == s[15] && s[0] != 0.0)
  {
    var w := g[i - 15..i + 1];
    assert forall m :: 0 <= m < 16 ==> w[m] == g[i - 15 + m];
    var s := Sort(w);
    if i - 15 < p <= i {
      SortedBounds(w, w[p - 1 - (i - 15)]);
      assert g[i] < s[15];
    } else if p == i - 15 {
      assert Ascending(w);
      AscendingPermutationUnique(s, w);
      assert s[14] == s[15] == 0.0;
    } else {
      SortedBounds(w, w[0]);
      assert s[0] == 0.0;
    }
  }

  /** A full right window of a backward spike profile never passes: with the
      `D` after the centre (and so the `-D` as well) the centre is not its
      maximum, with only the `-D` the Q statistic is zero, and otherwise, with
      no spike value or with the `D` at the centre, its minimum is zero. */
  lemma SpikeRightWindowFails(g: seq<real>, i: int, p: int, D: real)
    requires D > 0.0 && 0 <= i && i + 16 <= |g|
    requires forall k :: i <= k <= i + 15 ==> g[k] == SpikeProfile(k, p + 1, p, D)
    ensures var s := Sort(g[i..i + 16]);
            !(s[15] - s[14] > Threshold * (s[14] - s[0]) && g[i] == s[15] && s[0] != 0.0)
  {
    var w := g[i..i + 16];
    assert forall m :: 0 <= m < 16 ==> w[m] == g[i + m];
    var s := Sort(w);
    if i <= p < i + 15 {
      SortedBounds(w, w[p + 1 - i]);
      assert g[i] < s[15];
    } else if p == i + 15 {
      TrailingDipSorted(w, D);
    } else {
      SortedBounds(w, w[15]);
      assert s[0] == 0.0;
    }
  }

  /** Fifteen zeros followed by `-D` sort to `-D` followed by fifteen zeros. */
  lemma TrailingDipSorted(w: seq<real>, D: real)
    requires |w| == 16 && D > 0.0 && w[15] == -D
    requires forall m :: 0 <= m < 15 ==> w[m] == 0.0
    ensures Sort(w)[14] == 0.0 && Sort(w)[15] == 0.0
  {
    var zeros := seq(15, _ => 0.0);
    var t := [-D] + zeros;
    assert w == zeros + [-D];
    assert multiset(w) == multiset(t);
    assert Ascending(t);
    AscendingPermutationUnique(Sort(w), t);
  }

  /** On a flat spike the first forward gradient never hits its left flag array. */
  lemma FlatSpikeNoForwardLeftHit(flux: seq<real>, c: real, p: int, D: real, i: int)
    requires FlatSpike(flux, c, p, D) && 0 <= i < |flux|
    ensures Hit(flux, 0, Left, i) == None
  {
    var g := GradientBank(flux)[0];
    if 15 <= i && i + 1 < |flux| {
      assert !Passes(flux, g, i, Adjustor(0), Sort(g[i - 15..i + 1]),
                     Sort(flux[i - 7..if i + 9 <= |flux| then i + 9 else |flux|])) by {
        forall k | i - 15 <= k <= i ensures g[k] == SpikeProfile(k, p - 1, p, D) {
          FlatSpikeForwardGradient(flux, c, p, D, k);
        }
        SpikeLeftWindowFails(g, i, p, D);
      }
    }
    LeftHitIff(flux, 0, i);
  }

  /** On a flat spike the first backward gradient never hits its right flag array. */
  lemma FlatSpikeNoBackwardRightHit(flux: seq<real>, c: real, p: int, D: real, i: int)
    requires FlatSpike(flux, c, p, D) && 0 <= i < |flux|
    ensures Hit(flux, 2, Right, i) == None
  {
    var g := GradientBank(flux)[2];
    if 15 <= i && i + 16 <= |flux| {
      assert !Passes(flux, g, i, Adjustor(2), Sort(g[i..i + 16]), Sort(flux[i - 7..i + 9])) by {
        forall k | i <= k <= i + 15 ensures g[k] == SpikeProfile(k, p + 1, p, D) {
          FlatSpikeBackwardGradient(flux, c, p, D, k);
        }
        SpikeRightWindowFails(g, i, p, D);
      }
    }
    RightHitIff(flux, 2, i);
  }

  /** On a flat spike, at any length, the left flag array of the first forward
      gradient and the right flag array of the first backward gradient stay
      all zero. */
  lemma FlatSpikeClearFlags(flux: seq<real>, c: real, p: int, D: real)
    requires FlatSpike(flux, c, p, D)
    ensures forall j :: 0 <= j < |flux| ==> FinalFlags(flux, Left)[0][j] == 0
    ensures forall j :: 0 <= j < |flux| ==> FinalFlags(flux, Right)[2][j] == 0
  {
    forall j | 0 <= j < |flux| ensures FinalFlags(flux, Left)[0][j] == 0 {
      FinalFlagHit(flux, 0, Left, j);
      if FinalFlags(flux, Left)[0][j] != 0 {
        FlatSpikeNoForwardLeftHit(flux, c, p, D, j - Adjustor(0));
      }
    }
    forall j | 0 <= j < |flux| ensures FinalFlags(flux, Right)[2][j] == 0 {
      FinalFlagHit(flux, 2, Right, j);
      if FinalFlags(flux, Right)[2][j] != 0 {
        FlatSpikeNoBackwardRightHit(flux, c, p, D, j - Adjustor(2));
      }
    }
  }

  /** The `try` block for one centre and one gradient, in place on that
      gradient's left and right flag arrays. */
  method CheckGradientAt(flux: seq<real>, grad: seq<real>, i: int, localSamp: seq<real>,
                         adjust: int, fl: array<int>, fr: array<int>)
    requires localSamp == Sort(SampleLocal(flux, i))
    requires fl != fr && fl.Length == |flux| && fr.Length == |flux|
    modifies fl, fr
    ensures fl[..] == Bump(old(fl[..]), CheckAt(flux, grad, adjust, i).left)
    ensures fr[..] == Bump(old(fr[..]), CheckAt(flux, grad, adjust, i).right)
  {
    var samplesLeft := Sort(SampleLeft(grad, i));
    var samplesRight := Sort(SampleRight(grad, i));
    FlagWindows(flux, grad, i, localSamp, samplesLeft, samplesRight, adjust, fl, fr);
  }

  /** The rest of the `try` block once the windows are sorted: the Q test and
      `Q_test_flagging` on the left window, then, unless that raised, on the
      right window. */
  method FlagWindows(flux: seq<real>, grad: seq<real>, i: int, localSamp: seq<real>,
                     samplesLeft: seq<real>, samplesRight: seq<real>, adjust: int,
                     fl: array<int>, fr: array<int>)
    requires fl != fr && fl.Length == |flux| && fr.Length == |flux|
    modifies fl, fr
    ensures fl[..] == Bump(old(fl[..]), Decide(flux, grad, adjust, i, localSamp, samplesLeft, samplesRight).left)
    ensures fr[..] == Bump(old(fr[..]), Decide(flux, grad, adjust, i, localSamp, samplesLeft, samplesRight).right)
  {
    ghost var h := Decide(flux, grad, adjust, i, localSamp, samplesLeft, samplesRight);
    var ql := QTest(samplesLeft);
    if ql.IndexError? {
      assert h == Hits(None, None);
      return;
    }
    var lo := QTestFlagging(flux, grad, i, samplesLeft, localSamp, ql.value, Threshold, adjust, fl);
    if lo.Raised? {
      assert h == Hits(None, None);
      return;
    }
    assert h.left == if lo.Flag? then Some(lo.slot) else None;
    var qr := QTest(samplesRight);
    if qr.IndexError? {
      assert h.right == None;
      return;
    }
    var ro := QTestFlagging(flux, grad, i, samplesRight, localSamp, qr.value, Threshold, adjust, fr);
    assert h.right == if ro.Flag? then Some(ro.slot) else None;
  }

  /** The eight flag arrays: distinct, with one slot per flux sample. */
  predicate FlagArrays(flux: seq<real>, flaglistL: seq<array<int>>, flaglistR: seq<array<int>>)
  {
    |flaglistL| == 4 && |flaglistR| == 4 &&
    (forall d :: 0 <= d < 4 ==> flaglistL[d].Length == |flux| && flaglistR[d].Length == |flux|) &&
    (forall d, e :: 0 <= d < 4 && 0 <= e < 4 ==> flaglistL[d] != flaglistR[e]) &&
    (forall d, e :: 0 <= d < e < 4 ==> flaglistL[d] != flaglistL[e] && flaglistR[d] != flaglistR[e])
  }

  /** One pass of the inner loop: gradient `idx`'s two flag arrays take in
      the hits of centre `i`. */
  method ScanGradient(flux: seq<real>, grad: seq<real>, i: int, localSamp: seq<real>,
                      idx: int, fl: array<int>, fr: array<int>)
    requires 0 <= idx < 4 && grad == GradientBank(flux)[idx] && 0 <= i < |flux|
    requires localSamp == Sort(SampleLocal(flux, i))
    requires fl != fr && fl[..] == Partial(flux, idx, Left, i) && fr[..] == Partial(flux, idx, Right, i)
    modifies fl, fr
    ensures fl[..] == Partial(flux, idx, Left, i + 1) && fr[..] == Partial(flux, idx, Right, i + 1)
  {
    CheckGradientAt(flux, grad, i, localSamp, Adjustor(idx), fl, fr);
    PartialStep(flux, idx, Left, i);
    PartialStep(flux, idx, Right, i);
  }

  /** The inner `for idx` loop at centre `i`: every gradient's two flag arrays
      take in the hits of centre `i`. */
  method ScanCentre(flux: seq<real>, gradlist: seq<seq<real>>, i: int,
                    flaglistL: seq<array<int>>, flaglistR: seq<array<int>>)
    requires gradlist == GradientBank(flux) && 0 <= i < |flux|
    requires FlagArrays(flux, flaglistL, flaglistR)
    requires forall d :: 0 <= d < 4 ==>
      flaglistL[d][..] == Partial(flux, d, Left, i) && flaglistR[d][..] == Partial(flux, d, Right, i)
    modifies flaglistL, flaglistR
    ensures forall d :: 0 <= d < 4 ==>
      flaglistL[d][..] == Partial(flux, d, Left, i + 1) && flaglistR[d][..] == Partial(flux, d, Right, i + 1)
  {
    var localSamp := Sort(SampleLocal(flux, i));
    for idx := 0 to 4
      invariant forall d :: 0 <= d < idx ==>
        flaglistL[d][..] == Partial(flux, d, Left, i + 1) && flaglistR[d][..] == Partial(flux, d, Right, i + 1)
      invariant forall d :: idx <= d < 4 ==>
        flaglistL[d][..] == Partial(flux, d, Left, i) && flaglistR[d][..] == Partial(flux, d, Right, i)
    {
      label before:
      ScanGradient(flux, gradlist[idx], i, localSamp, idx, flaglistL[idx], flaglistR[idx]);
      assert forall d :: 0 <= d < 4 && d != idx ==>
        flaglistL[d][..] == old@before(flaglistL[d][..]) && flaglistR[d][..] == old@before(flaglistR[d][..]);
    }
  }

  /** Before any centre is checked every flag array is all zero. */
  lemma PartialStart(flux: seq<real>, d: int, side: Side)
    requires 0 <= d < 4
    ensures Partial(flux, d, side, 0) == seq(|flux|, _ => 0)
  {
  }

  /** `[np.zeros(len(flux)) for x in range(0, 4)]` */
  method ZeroFlagList(n: nat) returns (flaglist: seq<array<int>>)
    ensures |flaglist| == 4
    ensures forall d :: 0 <= d < 4 ==>
              fresh(flaglist[d]) && flaglist[d].Length == n && flaglist[d][..] == seq(n, _ => 0)
    ensures forall d, e :: 0 <= d < e < 4 ==> flaglist[d] != flaglist[e]
  {
    var a0 := new int[n](_ => 0);
    var a1 := new int[n](_ => 0);
    var a2 := new int[n](_ => 0);
    var a3 := new int[n](_ => 0);
    flaglist := [a0, a1, a2, a3];
  }

  /** The nested `for i` / `for idx` loops: fill the eight flag arrays. */
  method Detect(flux: seq<real>) returns (left: seq<seq<int>>, right: seq<seq<int>>)
    ensures left == FinalFlags(flux, Left)
    ensures right == FinalFlags(flux, Right)
  {
    var n := |flux|;
    var gradlist := GradientBank(flux);
    var flaglistL := ZeroFlagList(n);
    var flaglistR := ZeroFlagList(n);
    forall d | 0 <= d < 4
      ensures flaglistL[d][..] == Partial(flux, d, Left, 0) && flaglistR[d][..] == Partial(flux, d, Right, 0)
    {
      PartialStart(flux, d, Left);
      PartialStart(flux, d, Right);
    }
    for i := 0 to n
      invariant FlagArrays(flux, flaglistL, flaglistR)
      invariant forall d :: 0 <= d < 4 ==>
        flaglistL[d][..] == Partial(flux, d, Left, i) && flaglistR[d][..] == Partial(flux, d, Right, i)
    {
      ScanCentre(flux, gradlist, i, flaglistL, flaglistR);
    }
    left := [flaglistL[0][..], flaglistL[1][..], flaglistL[2][..], flaglistL[3][..]];
    right := [flaglistR[0][..], flaglistR[1][..], flaglistR[2][..], flaglistR[3][..]];
  }
}
