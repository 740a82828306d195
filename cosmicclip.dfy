/** `cosmic_removal`: detect the spikes of a flux, keep those that two
    gradients of one direction agree on, and repair them in place. */
module CosmicClip {
  import opened PySeq
  import opened Detection
  import opened Consensus
  import opened Corrector

  /** The flag arrays after the scan are a bank of four 0/1 arrays per side. */
  lemma FinalFlagBanks(flux: seq<real>)
    ensures FlagBanks(FinalFlags(flux, Left), FinalFlags(flux, Right))
    ensures forall d :: 0 <= d < 4 ==>
              ZeroOne(FinalFlags(flux, Left)[d]) && ZeroOne(FinalFlags(flux, Right)[d])
  {
    forall d, j | 0 <= d < 4 && 0 <= j < |flux|
      ensures FinalFlags(flux, Left)[d][j] in {0, 1} && FinalFlags(flux, Right)[d][j] in {0, 1}
    {
      FinalFlagsRange(flux, d, j);
    }
  }

  /** `cosmic_flags` for a flux. */
  function ConsensusFlags(flux: seq<real>): (c: seq<int>)
    ensures |c| == |flux|
  {
    FinalFlagBanks(flux);
    CosmicFlags(FinalFlags(flux, Left), FinalFlags(flux, Right))
  }

  /** What `cosmic_removal(masterflux)` returns, the repaired flux and the
      cosmic flags, or the IndexError it raises. */
  function Removal(masterflux: seq<real>): (r: Outcome<(seq<real>, seq<int>)>)
    ensures r.Ok? ==> |r.value.0| == |masterflux| && r.value.1 == ConsensusFlags(masterflux)
  {
    var flags := ConsensusFlags(masterflux);
    var corrected :- CorrectFrom(masterflux, flags, 0);
    Ok((corrected, flags))
  }

  /** After the scan left flags sit only in [13, N - 4] and right flags only
      in [13, N - 14]. */
  lemma FinalFlagBounds(flux: seq<real>)
    ensures forall d, j :: 0 <= d < 4 && 0 <= j < |flux| && FinalFlags(flux, Left)[d][j] == 1 ==>
              13 <= j <= |flux| - 4
    ensures forall d, j :: 0 <= d < 4 && 0 <= j < |flux| && FinalFlags(flux, Right)[d][j] == 1 ==>
              13 <= j <= |flux| - 14
  {
    forall d, j | 0 <= d < 4 && 0 <= j < |flux|
      ensures FinalFlags(flux, Left)[d][j] == 1 ==> 13 <= j <= |flux| - 4
      ensures FinalFlags(flux, Right)[d][j] == 1 ==> 13 <= j <= |flux| - 14
    {
      FinalFlagsRange(flux, d, j);
    }
  }

  /** Every cosmic flag is 0 or 1, and a 1 sits only in [13, N - 14]: it needs
      a right flag of some gradient at it or at its successor, and a left flag
      of that gradient at it or at its predecessor. */
  lemma ConsensusInterior(flux: seq<real>, ii: int)
    requires 0 <= ii < |flux|
    ensures ConsensusFlags(flux)[ii] == 0 || ConsensusFlags(flux)[ii] == 1
    ensures ConsensusFlags(flux)[ii] == 1 ==> 13 <= ii <= |flux| - 14
  {
    var left, right := FinalFlags(flux, Left), FinalFlags(flux, Right);
    FinalFlagBanks(flux);
    FinalFlagBounds(flux);
    CosmicFlagsIff(left, right, ii);
    CosmicFlagsWithin(left, right, ii);
  }

  /** Every cosmic flag has two samples on each side. */
  lemma ConsensusFlagsInterior(flux: seq<real>)
    ensures InteriorFlags(ConsensusFlags(flux), 0)
  {
    forall j | 0 <= j < |flux| && ConsensusFlags(flux)[j] == 1
      ensures 2 <= j && j + 2 < |flux|
    {
      ConsensusInterior(flux, j);
    }
  }

  /** `cosmic_removal` never raises: the repair loop never reaches a flagged
      sample near either end. It keeps every sample that is neither flagged nor
      next to a flagged one. */
  lemma RemovalNeverRaises(flux: seq<real>)
    ensures Removal(flux).Ok?
    ensures forall k :: 0 <= k < |flux| && Untouched(ConsensusFlags(flux), 0, k) ==>
              Removal(flux).value.0[k] == flux[k]
  {
    ConsensusFlagsInterior(flux);
    InteriorFlagsRepair(flux, ConsensusFlags(flux), 0);
  }

  /** A cosmic flag with no other cosmic flag among the three samples before it
      or the two after it ends up, with both neighbours, on the straight line between the flux two samples
      before it and two samples after it. */
  lemma IsolatedCosmicRayInterpolated(flux: seq<real>, ii: int)
    requires 0 <= ii < |flux| && ConsensusFlags(flux)[ii] == 1
    requires forall j :: 0 <= j < |flux| && j != ii && ConsensusFlags(flux)[j] == 1 ==>
               j < ii - 3 || ii + 2 < j
    ensures 2 <= ii && ii + 2 < |flux| && Removal(flux).Ok?
    ensures Removal(flux).value.0[ii - 1] == Line(flux[ii - 2], flux[ii + 2], 1)
    ensures Removal(flux).value.0[ii] == Line(flux[ii - 2], flux[ii + 2], 2)
    ensures Removal(flux).value.0[ii + 1] == Line(flux[ii - 2], flux[ii + 2], 3)
  {
    var flags := ConsensusFlags(flux);
    ConsensusFlagsInterior(flux);
    IsolatedSpikeInterpolated(flux, flags, ii);
    assert Removal(flux) == Ok((CorrectFrom(flux, flags, 0).value, flags));
  }

  /** Two adjacent cosmic flags with no other cosmic flag among the three
      samples before them or the two after them: only the first sample before
      the run keeps the flat fill from `flux[ii-2]`; the pass at the second flag
      blends `ii`, `ii+1` and `ii+2` onto the line from the original `flux[ii-2]`
      to the original `flux[ii+3]`. */
  lemma RunOfTwoCosmicRaysRepaired(flux: seq<real>, ii: int)
    requires 0 <= ii && ii + 1 < |flux|
    requires ConsensusFlags(flux)[ii] == 1 && ConsensusFlags(flux)[ii + 1] == 1
    requires forall j :: 0 <= j < |flux| && j != ii && j != ii + 1 && ConsensusFlags(flux)[j] == 1 ==>
               j < ii - 3 || ii + 3 < j
    ensures 2 <= ii && ii + 3 < |flux| && Removal(flux).Ok?
    ensures Removal(flux).value.0[ii - 1] == flux[ii - 2]
    ensures Removal(flux).value.0[ii] == Line(flux[ii - 2], flux[ii + 3], 1)
    ensures Removal(flux).value.0[ii + 1] == Line(flux[ii - 2], flux[ii + 3], 2)
    ensures Removal(flux).value.0[ii + 2] == Line(flux[ii - 2], flux[ii + 3], 3)
  {
    var flags := ConsensusFlags(flux);
    ConsensusFlagsInterior(flux);
    RunOfTwoRepaired(flux, flags, ii);
    assert Removal(flux) == Ok((CorrectFrom(flux, flags, 0).value, flags));
  }

  /** When both gradients of one direction (`e == 0` forward, `e == 2`
      backward) leave their left and their right flag at `p` set after the
      scan, `p` is a cosmic flag. */
  lemma FlaggedPairConsensus(flux: seq<real>, p: int, e: int)
    requires 0 <= p < |flux| && (e == 0 || e == 2)
    requires FinalFlags(flux, Left)[e][p] == 1 && FinalFlags(flux, Right)[e][p] == 1
    requires FinalFlags(flux, Left)[e + 1][p] == 1 && FinalFlags(flux, Right)[e + 1][p] == 1
    ensures ConsensusFlags(flux)[p] == 1
  {
    FinalFlagBanks(flux);
    PairAgreementFlag(FinalFlags(flux, Left), FinalFlags(flux, Right), p, e);
  }

  /** The detector can raise a cosmic flag: when, for both forward gradients or
      for both backward ones, the centre `p - adjustor[d]` has both windows
      full and both pass the four conditions, `p` is a cosmic flag. */
  lemma PassingWindowsFlag(flux: seq<real>, p: int, e: int)
    requires 0 <= p < |flux| && (e == 0 || e == 2)
    requires 15 <= p - Adjustor(e) && p - Adjustor(e) + 16 <= |flux|
    requires 15 <= p - Adjustor(e + 1) && p - Adjustor(e + 1) + 16 <= |flux|
    requires WindowsPass(flux, e, p - Adjustor(e)) && WindowsPass(flux, e + 1, p - Adjustor(e + 1))
    ensures ConsensusFlags(flux)[p] == 1
  {
    var left, right := FinalFlags(flux, Left), FinalFlags(flux, Right);
    assert left[e][p] == 1 && right[e][p] == 1 by {
      WindowsPassFlagged(flux, e, p - Adjustor(e));
    }
    assert left[e + 1][p] == 1 && right[e + 1][p] == 1 by {
      WindowsPassFlagged(flux, e + 1, p - Adjustor(e + 1));
    }
    FlaggedPairConsensus(flux, p, e);
  }

  /** With every right flag array clear nothing is flagged or changed. */
  lemma NoRightFlagsUnchanged(flux: seq<real>)
    requires forall d, j :: 0 <= d < 4 && 0 <= j < |flux| ==> FinalFlags(flux, Right)[d][j] == 0
    ensures forall j :: 0 <= j < |flux| ==> ConsensusFlags(flux)[j] == 0
    ensures Removal(flux) == Ok((flux, ConsensusFlags(flux)))
  {
    FinalFlagBanks(flux);
    NoRightFlagsNoCosmicFlags(FinalFlags(flux, Left), FinalFlags(flux, Right));
    UnflaggedUnchanged(flux, ConsensusFlags(flux), 0);
  }

  /** A flux of fewer than 31 samples has no centre with both windows full, so
      nothing is flagged and it comes back unchanged. */
  lemma ShortFluxUnchanged(flux: seq<real>)
    requires |flux| < 31
    ensures forall j :: 0 <= j < |flux| ==> ConsensusFlags(flux)[j] == 0
    ensures Removal(flux) == Ok((flux, ConsensusFlags(flux)))
  {
    forall d, j | 0 <= d < 4 && 0 <= j < |flux| ensures FinalFlags(flux, Right)[d][j] == 0 {
      FinalFlagsRange(flux, d, j);
    }
    NoRightFlagsUnchanged(flux);
  }

  /** Twenty-one samples of 5.0 with a spike of 50.0 at index 10. */
  const SpikeExample: seq<real> := seq(21, k => if k == 10 then 50.0 else 5.0)

  /** The spike of `SpikeExample` is not flagged, and the flux comes back as it
      went in: no centre of a 21-sample flux has a full right window. */
  lemma SpikeExampleNotFlagged()
    ensures ConsensusFlags(SpikeExample)[10] == 0
    ensures Removal(SpikeExample) == Ok((SpikeExample, ConsensusFlags(SpikeExample)))
  {
    ShortFluxUnchanged(SpikeExample);
  }

  /** A constant flux is never flagged and comes back unchanged. */
  lemma ConstantFluxUnchanged(flux: seq<real>, c: real)
    requires forall k :: 0 <= k < |flux| ==> flux[k] == c
    ensures forall j :: 0 <= j < |flux| ==> ConsensusFlags(flux)[j] == 0
    ensures Removal(flux) == Ok((flux, ConsensusFlags(flux)))
  {
    ConstantFluxNoFlags(flux, c);
    NoRightFlagsUnchanged(flux);
  }

  /** A single spike on an exactly flat background is never flagged, whatever
      the length of the flux, and the flux comes back unchanged. Every left
      window of the first forward gradient and every right window of the first
      backward gradient fails the four conditions, so neither direction can
      agree. */
  lemma FlatSpikeNeverFlagged(flux: seq<real>, c: real, p: int, D: real)
    requires FlatSpike(flux, c, p, D)
    ensures forall j :: 0 <= j < |flux| ==> ConsensusFlags(flux)[j] == 0
    ensures Removal(flux) == Ok((flux, ConsensusFlags(flux)))
  {
    var left, right := FinalFlags(flux, Left), FinalFlags(flux, Right);
    FinalFlagBanks(flux);
    FlatSpikeClearFlags(flux, c, p, D);
    assert Clear(left[0]) && Clear(right[2]);
    ClearGradientsNoCosmicFlags(left, right, 0, 2);
    UnflaggedUnchanged(flux, ConsensusFlags(flux), 0);
  }

  /** The whole routine: `masterflux` is copied into a new array, scanned,
      reduced to the cosmic flags and repaired in place. */
  method CosmicRemoval(masterflux: seq<real>) returns (r: Outcome<(seq<real>, seq<int>)>)
    ensures r == Removal(masterflux)
  {
    var left, right := Detect(masterflux);
    FinalFlagBanks(masterflux);
    var cosmicFlags := CosmicFlags(left, right);
    assert cosmicFlags == ConsensusFlags(masterflux);
    var flux := new real[|masterflux|](k requires 0 <= k < |masterflux| => masterflux[k]);
    assert flux[..] == masterflux;
    var raised := Correct(flux, cosmicFlags);
    if raised {
      return IndexError;
    }
    return Ok((flux[..], cosmicFlags));
  }
}
