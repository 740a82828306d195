/** The repair loop at the end of `cosmic_removal`: walking the flags from
    left to right, it overwrites each flagged sample and its neighbours in
    place, reading the flux as the earlier passes left it. */
module Corrector {
  import opened PySeq

  /** The loop body at `ii`. A flagged sample followed by another flagged one
      copies `flux[ii-2]` over `ii-1` and `ii`; any other flagged sample is
      replaced, together with both neighbours, by values read from `ii-2` and
      `ii+2`. Subscripts are taken as Python does: `cosmic_flags[ii+1]` and
      `flux[ii+2]` raise IndexError past the end, and `ii-1` and `ii-2`, which
      are never below `-N` once `ii+1` is in range, count from the end when
      negative. */
  function RepairAt(f: seq<real>, flags: seq<int>, ii: nat): (r: Outcome<seq<real>>)
    requires |flags| == |f| && ii < |f|
    ensures r.Ok? ==> |r.value| == |f|
    ensures r.IndexError? <==>
            flags[ii] == 1 && (ii + 1 == |f| || (flags[ii + 1] != 1 && ii + 2 == |f|))
    ensures r.Ok? ==> forall k :: 0 <= k < |f| && k != (ii - 1) % |f| && k != ii && k != ii + 1 ==>
                        r.value[k] == f[k]
  {
    if flags[ii] != 1 then Ok(f)
    else if ii + 1 >= |f| then IndexError
    else
      var prev, prev2 := (ii - 1) % |f|, (ii - 2) % |f|;
      if flags[ii + 1] == 1 then
        var f1 := f[prev := f[prev2]];
        Ok(f1[ii := f1[prev]])
      else if ii + 2 >= |f| then IndexError
      else
        var f1 := f[prev := 0.75 * f[prev2] + 0.25 * f[ii + 2]];
        var f2 := f1[ii + 1 := 0.75 * f1[ii + 2] + 0.25 * f1[prev2]];
        Ok(f2[ii := (f2[ii + 2] + f2[prev2]) / 2.0])
  }

  /** The passes of the loop from `ii` on; an IndexError ends the loop and
      leaves `cosmic_removal`. */
  function CorrectFrom(f: seq<real>, flags: seq<int>, ii: nat): (r: Outcome<seq<real>>)
    requires |flags| == |f| && ii <= |f|
    ensures r.Ok? ==> |r.value| == |f|
    decreases |f| - ii
  {
    if ii == |f| then Ok(f)
    else
      var g :- RepairAt(f, flags, ii);
      CorrectFrom(g, flags, ii + 1)
  }

  /** The straight line through `lo` at step 0 and `hi` at step 4, at step `k`. */
  function Line(lo: real, hi: real, k: int): real {
    lo + (hi - lo) * (k as real) / 4.0
  }

  /** Away from both ends a pass changes only `ii-1`, `ii` and `ii+1`. Before a
      second flagged sample it levels `ii-1` and `ii` to `flux[ii-2]`; before an
      unflagged one it raises exactly when `ii+2` is past the end, and otherwise
      puts `ii-1`, `ii` and `ii+1` on the straight line from `flux[ii-2]` to
      `flux[ii+2]`. */
  lemma RepairAtInterior(f: seq<real>, flags: seq<int>, ii: nat)
    requires |flags| == |f| && 2 <= ii && ii + 1 < |f| && flags[ii] == 1
    ensures flags[ii + 1] == 1 ==> RepairAt(f, flags, ii).Ok?
    ensures flags[ii + 1] != 1 ==> (RepairAt(f, flags, ii).Ok? <==> ii + 2 < |f|)
    ensures RepairAt(f, flags, ii).Ok? ==>
            forall k :: 0 <= k < |f| && (k < ii - 1 || ii + 1 < k) ==>
              RepairAt(f, flags, ii).value[k] == f[k]
    ensures flags[ii + 1] == 1 ==>
            RepairAt(f, flags, ii).value[ii - 1] == f[ii - 2] &&
            RepairAt(f, flags, ii).value[ii] == f[ii - 2] &&
            RepairAt(f, flags, ii).value[ii + 1] == f[ii + 1]
    ensures flags[ii + 1] != 1 && ii + 2 < |f| ==>
            RepairAt(f, flags, ii).value[ii - 1] == Line(f[ii - 2], f[ii + 2], 1) &&
            RepairAt(f, flags, ii).value[ii] == Line(f[ii - 2], f[ii + 2], 2) &&
            RepairAt(f, flags, ii).value[ii + 1] == Line(f[ii - 2], f[ii + 2], 3)
  {
    if flags[ii + 1] == 1 {
      RepairAtRun(f, flags, ii);
    } else {
      RepairAtBlend(f, flags, ii);
    }
  }

  /** The pass at a flagged `ii` before a second flagged sample, away from the
      start of the flux. */
  lemma RepairAtRun(f: seq<real>, flags: seq<int>, ii: nat)
    requires |flags| == |f| && 2 <= ii && ii + 1 < |f| && flags[ii] == 1 && flags[ii + 1] == 1
    ensures RepairAt(f, flags, ii) == Ok(f[ii - 1 := f[ii - 2]][ii := f[ii - 2]])
  {
    var n := |f|;
    assert (ii - 2) % n == ii - 2;
    assert (ii - 1) % n == ii - 1;
  }

  /** The pass at a flagged `ii` before an unflagged sample, away from the
      start of the flux. */
  lemma RepairAtBlend(f: seq<real>, flags: seq<int>, ii: nat)
    requires |flags| == |f| && 2 <= ii && ii + 1 < |f| && flags[ii] == 1 && flags[ii + 1] != 1
    ensures ii + 2 >= |f| ==> RepairAt(f, flags, ii) == IndexError
    ensures ii + 2 < |f| ==>
            RepairAt(f, flags, ii) ==
            Ok(f[ii - 1 := Line(f[ii - 2], f[ii + 2], 1)]
                [ii + 1 := Line(f[ii - 2], f[ii + 2], 3)]
                [ii := Line(f[ii - 2], f[ii + 2], 2)])
  {
    var n := |f|;
    assert (ii - 2) % n == ii - 2;
    assert (ii - 1) % n == ii - 1;
    if ii + 2 < n {
      var lo, hi := f[ii - 2], f[ii + 2];
      assert 0.75 * lo + 0.25 * hi == Line(lo, hi, 1);
      assert 0.75 * hi + 0.25 * lo == Line(lo, hi, 3);
      assert (hi + lo) / 2.0 == Line(lo, hi, 2);
    }
  }

  /** A flagged last sample raises: `cosmic_flags[ii+1]` is past the end. */
  lemma RepairAtLastRaises(f: seq<real>, flags: seq<int>)
    requires |flags| == |f| && 0 < |f| && flags[|f| - 1] == 1
    ensures RepairAt(f, flags, |f| - 1).IndexError?
  {
  }

  /** A flagged last sample makes the whole loop raise, whatever comes before. */
  lemma {:induction false} CorrectRaisesOnLastFlag(f: seq<real>, flags: seq<int>, ii: nat)
    requires |flags| == |f| && ii < |f| && flags[|f| - 1] == 1
    ensures CorrectFrom(f, flags, ii).IndexError?
    decreases |f| - ii
  {
    if ii == |f| - 1 {
      RepairAtLastRaises(f, flags);
    } else {
      var g := RepairAt(f, flags, ii);
      if g.Ok? {
        CorrectRaisesOnLastFlag(g.value, flags, ii + 1);
      }
    }
  }

  /** Without a flagged sample from `ii` on, the loop leaves the flux as it is. */
  lemma {:induction false} UnflaggedUnchanged(f: seq<real>, flags: seq<int>, ii: nat)
    requires |flags| == |f| && ii <= |f|
    requires forall j :: ii <= j < |f| ==> flags[j] != 1
    ensures CorrectFrom(f, flags, ii) == Ok(f)
    decreases |f| - ii
  {
    if ii < |f| {
      UnflaggedUnchanged(f, flags, ii + 1);
    }
  }

  /** Every flagged sample from `ii` on has two samples on each side. */
  predicate InteriorFlags(flags: seq<int>, ii: nat) {
    forall j :: ii <= j < |flags| && flags[j] == 1 ==> 2 <= j && j + 2 < |flags|
  }

  /** No flagged sample from `ii` on sits at `k` or next to it. */
  predicate Untouched(flags: seq<int>, ii: nat, k: int) {
    forall j :: ii <= j < |flags| && flags[j] == 1 ==> k < j - 1 || j + 1 < k
  }

  /** When every flagged sample has two samples on each side the loop never
      raises, and it keeps every sample that is neither flagged nor next to a
      flagged one. */
  lemma {:induction false} InteriorFlagsRepair(f: seq<real>, flags: seq<int>, ii: nat)
    requires |flags| == |f| && ii <= |f| && InteriorFlags(flags, ii)
    ensures CorrectFrom(f, flags, ii).Ok?
    ensures forall k :: 0 <= k < |f| && Untouched(flags, ii, k) ==>
              CorrectFrom(f, flags, ii).value[k] == f[k]
    decreases |f| - ii
  {
    if ii < |f| {
      if flags[ii] == 1 {
        RepairAtInterior(f, flags, ii);
      }
      var g := RepairAt(f, flags, ii).value;
      InteriorFlagsRepair(g, flags, ii + 1);
      forall k | 0 <= k < |f| && Untouched(flags, ii, k)
        ensures CorrectFrom(f, flags, ii).value[k] == f[k]
      {
        assert Untouched(flags, ii + 1, k);
      }
    }
  }

  /** A flagged sample with no other flagged sample among the three before it
      or the two after it, in a flux whose every flagged sample has two samples
      on each side, ends up with
      itself and both neighbours on the straight line between the original
      `flux[ii-2]` and `flux[ii+2]`. */
  lemma IsolatedSpikeInterpolated(f: seq<real>, flags: seq<int>, ii: nat)
    requires |flags| == |f| && InteriorFlags(flags, 0) && 0 <= ii < |f| && flags[ii] == 1
    requires forall j :: 0 <= j < |f| && j != ii && flags[j] == 1 ==> j < ii - 3 || ii + 2 < j
    ensures 2 <= ii && ii + 2 < |f| && CorrectFrom(f, flags, 0).Ok?
    ensures CorrectFrom(f, flags, 0).value[ii - 1] == Line(f[ii - 2], f[ii + 2], 1)
    ensures CorrectFrom(f, flags, 0).value[ii] == Line(f[ii - 2], f[ii + 2], 2)
    ensures CorrectFrom(f, flags, 0).value[ii + 1] == Line(f[ii - 2], f[ii + 2], 3)
  {
    InteriorFlagsRepair(f, flags, 0);
    SpikeFrom(f, flags, ii, 0, f[ii - 2], f[ii + 2]);
  }

  /** The induction behind `IsolatedSpikeInterpolated`: the passes before `ii`
      leave `ii-2` and `ii+2` alone, the pass at `ii` interpolates, and the
      passes after it leave `ii-1`, `ii` and `ii+1` alone. */
  lemma {:induction false} SpikeFrom(g: seq<real>, flags: seq<int>, ii: nat, from: nat, lo: real, hi: real)
    requires |flags| == |g| && InteriorFlags(flags, 0) && from <= ii < |g| && flags[ii] == 1
    requires forall j :: 0 <= j < |g| && j != ii && flags[j] == 1 ==> j < ii - 3 || ii + 2 < j
    requires 2 <= ii && ii + 2 < |g| && g[ii - 2] == lo && g[ii + 2] == hi
    ensures CorrectFrom(g, flags, from).Ok?
    ensures CorrectFrom(g, flags, from).value[ii - 1] == Line(lo, hi, 1)
    ensures CorrectFrom(g, flags, from).value[ii] == Line(lo, hi, 2)
    ensures CorrectFrom(g, flags, from).value[ii + 1] == Line(lo, hi, 3)
    decreases ii - from
  {
    if flags[from] == 1 {
      RepairAtInterior(g, flags, from);
    }
    var h := RepairAt(g, flags, from).value;
    if from < ii {
      SpikeFrom(h, flags, ii, from + 1, lo, hi);
    } else {
      InteriorFlagsRepair(h, flags, ii + 1);
      assert Untouched(flags, ii + 1, ii - 1);
      assert Untouched(flags, ii + 1, ii);
      assert Untouched(flags, ii + 1, ii + 1);
    }
  }

  /** A run of exactly two flagged samples `ii` and `ii+1`, with no other
      flagged sample among the three before the run or the two after it, in a
      flux whose every flagged sample has two samples on each side: the pass at
      `ii` levels `ii-1` and `ii` to `flux[ii-2]`, but the pass at `ii+1` sees
      an unflagged successor and blends `ii`, `ii+1` and `ii+2` from the
      levelled `flux[ii-1]` and `flux[ii+3]`. So only `ii-1` keeps the flat
      fill, and the three samples after it end on the straight line from the
      original `flux[ii-2]` to the original `flux[ii+3]`. */
  lemma RunOfTwoRepaired(f: seq<real>, flags: seq<int>, ii: nat)
    requires |flags| == |f| && InteriorFlags(flags, 0) && ii + 1 < |f|
    requires flags[ii] == 1 && flags[ii + 1] == 1
    requires forall j :: 0 <= j < |f| && j != ii && j != ii + 1 && flags[j] == 1 ==>
               j < ii - 3 || ii + 3 < j
    ensures 2 <= ii && ii + 3 < |f| && CorrectFrom(f, flags, 0).Ok?
    ensures CorrectFrom(f, flags, 0).value[ii - 1] == f[ii - 2]
    ensures CorrectFrom(f, flags, 0).value[ii] == Line(f[ii - 2], f[ii + 3], 1)
    ensures CorrectFrom(f, flags, 0).value[ii + 1] == Line(f[ii - 2], f[ii + 3], 2)
    ensures CorrectFrom(f, flags, 0).value[ii + 2] == Line(f[ii - 2], f[ii + 3], 3)
  {
    InteriorFlagsRepair(f, flags, 0);
    RunFrom(f, flags, ii, 0, f[ii - 2], f[ii + 3]);
  }

  /** The induction behind `RunOfTwoRepaired`: the passes before `ii` leave
      `ii-2` and `ii+3` alone, the passes at `ii` and `ii+1` level and then
      blend, and the passes after them leave `ii-1` to `ii+2` alone. */
  lemma {:induction false} RunFrom(g: seq<real>, flags: seq<int>, ii: nat, from: nat, lo: real, hi: real)
    requires |flags| == |g| && InteriorFlags(flags, 0) && from <= ii && ii + 1 < |g|
    requires flags[ii] == 1 && flags[ii + 1] == 1
    requires forall j :: 0 <= j < |g| && j != ii && j != ii + 1 && flags[j] == 1 ==>
               j < ii - 3 || ii + 3 < j
    requires 2 <= ii && ii + 3 < |g| && g[ii - 2] == lo && g[ii + 3] == hi
    ensures CorrectFrom(g, flags, from).Ok?
    ensures CorrectFrom(g, flags, from).value[ii - 1] == lo
    ensures CorrectFrom(g, flags, from).value[ii] == Line(lo, hi, 1)
    ensures CorrectFrom(g, flags, from).value[ii + 1] == Line(lo, hi, 2)
    ensures CorrectFrom(g, flags, from).value[ii + 2] == Line(lo, hi, 3)
    decreases ii - from
  {
    if from < ii {
      if flags[from] == 1 {
        RepairAtInterior(g, flags, from);
      }
      var h := RepairAt(g, flags, from).value;
      RunFrom(h, flags, ii, from + 1, lo, hi);
    } else {
      RepairAtRun(g, flags, ii);
      var h := RepairAt(g, flags, ii).value;
      assert h[ii - 1] == lo && h[ii + 3] == hi;
      RepairAtBlend(h, flags, ii + 1);
      var k := RepairAt(h, flags, ii + 1).value;
      InteriorFlagsRepair(k, flags, ii + 2);
      assert Untouched(flags, ii + 2, ii - 1);
      assert Untouched(flags, ii + 2, ii);
      assert Untouched(flags, ii + 2, ii + 1);
      assert Untouched(flags, ii + 2, ii + 2);
    }
  }

  /** One pass of the loop, in place on the flux array. */
  method RepairInPlace(flux: array<real>, flags: seq<int>, ii: nat) returns (raised: bool)
    requires |flags| == flux.Length && ii < flux.Length
    modifies flux
    ensures raised <==> RepairAt(old(flux[..]), flags, ii).IndexError?
    ensures !raised ==> flux[..] == RepairAt(old(flux[..]), flags, ii).value
  {
    var n := flux.Length;
    if flags[ii] != 1 {
      return false;
    }
    if ii + 1 >= n {
      return true;
    }
    // With ii + 1 < n there are at least two samples, so ii - 1 and ii - 2 both
    // name a sample, counted from the end when negative.
    var prev, prev2 := (ii - 1) % n, (ii - 2) % n;
    if flags[ii + 1] == 1 {
      flux[prev] := flux[prev2];
      flux[ii] := flux[prev];
      return false;
    }
    if ii + 2 >= n {
      return true;
    }
    flux[prev] := 0.75 * flux[prev2] + 0.25 * flux[ii + 2];
    flux[ii + 1] := 0.75 * flux[ii + 2] + 0.25 * flux[prev2];
    flux[ii] := (flux[ii + 2] + flux[prev2]) / 2.0;
    raised := false;
  }

  /** The `for ii` loop: repair the flux in place, pass by pass, and report
      whether it raised. */
  method Correct(flux: array<real>, flags: seq<int>) returns (raised: bool)
    requires |flags| == flux.Length
    modifies flux
    ensures raised <==> CorrectFrom(old(flux[..]), flags, 0).IndexError?
    ensures !raised ==> flux[..] == CorrectFrom(old(flux[..]), flags, 0).value
  {
    raised := false;
    for ii := 0 to flux.Length
      invariant CorrectFrom(flux[..], flags, ii) == CorrectFrom(old(flux[..]), flags, 0)
    {
      raised := RepairInPlace(flux, flags, ii);
      if raised {
        return;
      }
    }
  }
}
