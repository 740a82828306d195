# Cosmic-ray clipping of a 1D spectrum, modelled in Dafny

`cosmic_clip.py` removes cosmic-ray hits and glitches from a one-dimensional
flux array. `cosmic_removal(masterflux)` does three things:

1. **Detection.** It computes four circular gradients of the flux: the next sample, the
   one after next, the previous one and the one before the previous, each minus
   the sample itself. Then, for every centre `i` and every gradient, it sorts a
   16-sample window to the left and one to the right of the centre. It applies a
   modified Dixon Q test to each window, and calls `Q_test_flagging`. That call
   increments one slot of a left or right flag array when four conditions hold:
   - the Q statistic exceeds 0.4;
   - the centre carries the largest gradient of the window;
   - the flux it points at exceeds the thirteenth smallest local flux;
   - the smallest gradient of the window is not zero.

   One `try/except IndexError` block covers both calls, so an IndexError on
   the left also skips the right check.
2. **Consensus.** `array_maths` combines each gradient's left and right flag
   arrays, with wrap-around neighbours. A sample is a cosmic ray when both
   forward gradients agree on it, or both backward ones do, with the result
   clipped to 1.
3. **Repair.** A loop walks the flags from left to right and rewrites the flux
   in place:
   - a flagged sample followed by another flagged one copies `flux[ii-2]` over
     `ii-1` and `ii`;
   - any other flagged sample is replaced, together with its two neighbours, by
     values blended from `flux[ii-2]` and `flux[ii+2]`.

   Later passes read what earlier passes wrote. So in a run of exactly two
   flagged samples `ii` and `ii+1`, only `ii-1` keeps the flat fill. The pass
   at `ii+1` sees an unflagged successor and takes the blend branch. It puts
   `ii`, `ii+1` and `ii+2` on the line from the original `flux[ii-2]` to the
   original `flux[ii+3]` (`Corrector.RunOfTwoRepaired`). The flat-filled
   `flux[ii]` does not survive.

The model has these modules:

| module | contents |
|---|---|
| `PySeq` | Python and NumPy semantics: subscripts that count from the end and raise IndexError (`Outcome`), clipped slices, `np.roll`, `np.flipud` and elementwise arithmetic |
| `Sorting` | `sorted` (insertion sort, unique as an ascending permutation), `np.max` and `np.min` |
| `Windows`, `QStatistic`, `Gradients` | the pure helpers |
| `Detection` | the `for i` / `for idx` loops over Dafny arrays, updated in place, proved against a closed form of the final flag arrays |
| `Consensus` | `array_maths` and the flag combiner |
| `Corrector` | the in-place repair loop, proved against a fold of single passes |
| `CosmicClip` | the whole routine |

A single spike on an exactly flat background is never flagged, at any length
(`CosmicClip.FlatSpikeNeverFlagged`). On such a flux the first forward
gradient is `D` just before the spike, `-D` at it and zero elsewhere, and the
first backward gradient is its mirror. A full left window of the forward
gradient then fails `Q_test_flagging`:
- if it holds the `D` before the centre, and so the `-D` as well, the centre
  is not its maximum;
- if it holds only the `-D`, the Q statistic is zero;
- otherwise, with no spike value in it or with the `D` at the centre, its
  minimum is zero.

A full right window of the backward gradient fails in the mirrored ways: the
`D` after the centre, only the `-D`, or neither spike value or the `D` at the
centre. Every
term of `array_maths` needs a left and a right flag, so neither the forward
pair nor the backward pair can agree anywhere.

A second, separate reason covers any flux shorter than 31 samples, spike or
not:
- a right window is full only when `i+16 <= N`;
- a left window is full only when `i >= 15`;
- every consensus flag needs a right flag, and a right flag needs both windows
  of its centre full.

So a 21-sample flux with a spike at index 10 comes back unchanged, for both
reasons (`CosmicClip.ShortFluxUnchanged`, `CosmicClip.SpikeExampleNotFlagged`).
`CosmicClip.PassingWindowsFlag` gives the other direction: when both windows
of the two forward gradients (or of the two backward ones) pass the four
conditions at the centres that point at a sample, that sample is flagged. This
needs a background that is not flat.

## Model

| member | source | states |
|---|---|---|
| PySeq.Index | cosmic_clip.py:52-55 | a Python subscript `k` into `n` elements is valid iff `-n <= k < n`, and then names element `k mod n` |
| PySeq.Get | cosmic_clip.py:52-53 | a subscript such as `grad[iter]`, `flux[iter + adjust]` or `sorted_sample1[12]` raises IndexError iff it lies outside `[-n, n)`, and otherwise reads element `k mod n` |
| PySeq.Slice | cosmic_clip.py:12-24 | a slice's length and elements follow Python's clipping of both bounds, a negative bound counting from the end |
| PySeq.Roll | cosmic_clip.py:36 | `np.roll(a, k)` keeps the length; its values are stated by `PySeq.RollAt`, `PySeq.RollForward`, `PySeq.RollBackward` and `Gradients.GradientCalc` |
| PySeq.RollAt | cosmic_clip.py:36 | element `i` of `np.roll(a, k)` is `a[(i-k) mod N]` |
| PySeq.RollForward | cosmic_clip.py:62 | `np.roll(a, 1)` moves the last element to the front |
| PySeq.RollBackward | cosmic_clip.py:63 | `np.roll(a, -1)` moves the first element to the back |
| PySeq.Flip | cosmic_clip.py:78-82 | `np.flipud(a)` keeps the length; its values are stated by `PySeq.FlipAt` and `Gradients.BackwardGradientAt` |
| PySeq.FlipAt | cosmic_clip.py:78-82 | element `i` of `np.flipud(a)` is `a[N-1-i]` |
| PySeq.Sub | cosmic_clip.py:36 | NumPy's elementwise `-` on two arrays of one length keeps the length; its value at every index is stated by `Gradients.GradientCalc` |
| PySeq.Add | cosmic_clip.py:107-110 | NumPy's elementwise `+` on two flag arrays keeps the length; the value it gives in `cosmic_flags` is stated by `Consensus.CosmicFlagsIff` |
| PySeq.Mul | cosmic_clip.py:62-63 | NumPy's elementwise `*` on two flag arrays keeps the length; the values it gives are stated by `Consensus.ArrayMathsAt` and `Consensus.CosmicFlagsIff` |
| PySeq.ClipMax | cosmic_clip.py:111 | `.clip(max=m)` keeps every element at or below `m` and replaces the others by `m` |
| Sorting.Sort | cosmic_clip.py:89-95 | `sorted` returns an ascending permutation of its input |
| Sorting.AscendingPermutationUnique | cosmic_clip.py:89-95 | two ascending permutations of one multiset are equal, so any correct `sorted` gives the model's result |
| Sorting.SortedBounds | cosmic_clip.py:52-54 | the first element of a sorted window is one of the window's values, and the first and the last element bound every value of the window |
| Sorting.ExtremesOfAscending | cosmic_clip.py:52-54 | `np.max` and `np.min` of a sorted window are its last and its first element |
| Sorting.MaxOf | cosmic_clip.py:52 | `np.max` of a non-empty window is one of its elements and no element exceeds it |
| Sorting.MinOf | cosmic_clip.py:54 | `np.min` of a non-empty window is one of its elements and no element is below it |
| Windows.SampleLocal | cosmic_clip.py:12-14 | `array[ii-7:ii+9]` never has more than 16 elements nor more than the array; its exact shape is stated by `Windows.LocalWindow` |
| Windows.SampleRight | cosmic_clip.py:17-19 | `array[ii:ii+16]` never has more than 16 elements nor more than the array; its exact shape is stated by `Windows.RightWindow` |
| Windows.SampleLeft | cosmic_clip.py:22-24 | `array[ii-15:ii+1]` never has more than 16 elements nor more than the array; its exact shape is stated by `Windows.LeftWindow` |
| Windows.LocalWindow | cosmic_clip.py:12-14 | from centre 7 on, `sample_local` is the flux from `ii-7` to `ii+9` clipped at the end, with at least 13 elements iff `ii+6 <= N` |
| Windows.RightWindow | cosmic_clip.py:17-19 | `sample_right` has at most 16 elements, exactly 16 iff `ii+16 <= N`, and is then `a[ii..ii+16]` |
| Windows.LeftWindow | cosmic_clip.py:22-24 | `sample_left` has at most 16 elements, exactly 16 iff `ii >= 15`, and is then `a[ii-15..ii+1]` |
| QStatistic.QTest | cosmic_clip.py:27-31 | `Q_test` raises IndexError iff the window has fewer than 16 elements |
| QStatistic.Divide | cosmic_clip.py:31 | the quotient is finite iff the divisor is non-zero, and a zero divisor gives +inf, -inf or NaN as the numerator is positive, negative or zero; what the quotient of a window means is stated by `QStatistic.QTestOnAscending` |
| QStatistic.Greater | cosmic_clip.py:51 | `q_value > threshold` compares a finite quotient as a real, holds for +inf and fails for -inf and NaN; `QStatistic.QTestOnAscending` states what it means for the Q statistic |
| QStatistic.QTestOnAscending | cosmic_clip.py:27-31 | on an ascending window the Q numerator and denominator are both non-negative, and `q > t` holds iff `num > t*den`, a zero denominator included |
| QStatistic.FlagDecision | cosmic_clip.py:39-55 | a flag is raised only at an in-range slot, which is `iter+adjust` when that is non-negative, and only when the Q value exceeds the threshold and the local window has 13 elements |
| QStatistic.FlaggingConditions | cosmic_clip.py:51-55 | on a full ascending window with every index in range, `iter+adjust` is flagged iff the four conditions hold; otherwise nothing is flagged and nothing raises |
| QStatistic.QTestFlagging | cosmic_clip.py:39-55 | increments exactly the decided slot by one and leaves every other slot unchanged; with no flag the array is unchanged |
| Gradients.GradientCalc | cosmic_clip.py:34-36 | `gradient_calc(a, k)[i] == a[(i-k) mod N] - a[i]` at every `i` |
| Gradients.GradientBank | cosmic_clip.py:80-82 | `gradlist` holds four gradients, each as long as the flux; their values are stated by `Gradients.GradientBankAt` |
| Gradients.BackwardGradientAt | cosmic_clip.py:78-82 | the flipped gradient of the flipped flux at `i` is the sample `s` places before `i`, circularly, minus sample `i` |
| Gradients.GradientBankAt | cosmic_clip.py:77-82 | the four gradients at `i` are `flux[i+1]`, `flux[i+2]`, `flux[i-1]` and `flux[i-2]` minus `flux[i]`, circularly |
| Gradients.ConstantFluxFlatGradients | cosmic_clip.py:34-36 | a constant flux has every gradient zero |
| Detection.AdjustorValues | cosmic_clip.py:85 | `adjustor[idx]` is 1, 2, -1 or -2, positive exactly for the two forward gradients |
| Detection.AdjustorIsGradientStep | cosmic_clip.py:80-85 | gradient `idx` at `i` is the flux `adjustor[idx]` samples on, circularly, minus `flux[i]`, so the flagged sample `i + adjustor[idx]` is the one the gradient points at |
| Detection.Decide | cosmic_clip.py:92-105 | every slot the `try` block increments lies inside the flag array; which slot, and when, is stated by `Detection.DecideLeft`, `Detection.DecideRight`, `Detection.DecideLeftShort` and `Detection.DecideRightShort` |
| Detection.CheckAt | cosmic_clip.py:89-105 | the same on the windows sorted as the routine sorts them; which slot, and when, is stated by `Detection.LeftHitIff` and `Detection.RightHitIff` |
| Detection.DecideLeft | cosmic_clip.py:94-99 | on sorted windows the left check hits iff the left window is full, the hit sample exists and the four conditions hold, and then it hits `i+adjust` |
| Detection.DecideRight | cosmic_clip.py:94-105 | once the left check cannot raise, the right check hits iff the right window is full and the four conditions hold |
| Detection.DecideLeftShort | cosmic_clip.py:94-105 | a short left window skips both flag arrays |
| Detection.DecideRightShort | cosmic_clip.py:100-105 | a short right window leaves the right flag array alone |
| Detection.HitSlot | cosmic_clip.py:87-105 | every hit lands on `i+adjust` and comes from a centre `i >= 15`; a left hit needs `i+6 <= N`, a right hit `i+16 <= N` |
| Detection.LeftHitIff | cosmic_clip.py:87-105 | a left flag array is hit from centre `i` iff `i >= 15`, `i+adjust < N` and the four conditions hold on the sorted windows |
| Detection.RightHitIff | cosmic_clip.py:87-105 | a right flag array is hit from centre `i` iff `i >= 15`, `i+16 <= N` and the four conditions hold on the sorted right window |
| Detection.PartialStep | cosmic_clip.py:97-102 | checking one more centre adds exactly that centre's hit to the flag array |
| Detection.EdgeIterationsChangeNothing | cosmic_clip.py:87-105 | no flag array changes in an iteration `i < 15`, and a right flag array changes only in one with `i+16 <= N` |
| Detection.FinalFlagsRange | cosmic_clip.py:83-105 | after the scan every flag is 0 or 1; left flags lie in [13, N-4], right flags in [13, N-14] and need `N >= 31` |
| Detection.FinalFlagHit | cosmic_clip.py:83-105 | a set flag was set by the check at the only centre that targets it |
| Detection.HitFlagged | cosmic_clip.py:83-105 | a hit from centre `i` leaves a 1 at `i+adjust` in that flag array after the scan |
| Detection.WindowsPassIff | cosmic_clip.py:92-105 | at a centre with both windows full, both flag arrays of a gradient are hit iff both sorted windows pass the four conditions |
| Detection.WindowsPassFlagged | cosmic_clip.py:83-105 | when both windows of a centre pass, the scan leaves a 1 at `i+adjust` in that gradient's left and right flag arrays |
| Detection.ConstantFluxNoHit | cosmic_clip.py:87-105 | on a constant flux no check hits |
| Detection.ConstantFluxNoFlags | cosmic_clip.py:83-105 | on a constant flux every flag array stays zero |
| Detection.FlatSpikeForwardGradient | cosmic_clip.py:80 | on a flat flux with one spike of height `D` at `p`, the first forward gradient away from the wrap is `D` at `p-1`, `-D` at `p` and zero elsewhere |
| Detection.FlatSpikeBackwardGradient | cosmic_clip.py:81 | on the same flux the first backward gradient away from the wrap is `-D` at `p`, `D` at `p+1` and zero elsewhere |
| Detection.SpikeLeftWindowFails | cosmic_clip.py:51-55 | a full left window of that forward profile never meets the Q, maximum and non-zero-minimum conditions together |
| Detection.SpikeRightWindowFails | cosmic_clip.py:51-55 | a full right window of that backward profile never meets the Q, maximum and non-zero-minimum conditions together |
| Detection.FlatSpikeNoForwardLeftHit | cosmic_clip.py:92-105 | on a flat spike the first forward gradient's left flag array is hit from no centre |
| Detection.FlatSpikeNoBackwardRightHit | cosmic_clip.py:92-105 | on a flat spike the first backward gradient's right flag array is hit from no centre |
| Detection.FlatSpikeClearFlags | cosmic_clip.py:83-105 | on a flat spike of any length, `flaglistL[0]` and `flaglistR[2]` stay all zero after the scan |
| Detection.CheckGradientAt | cosmic_clip.py:92-105 | one `try` block increments the left and right flag arrays by exactly that centre's hits |
| Detection.FlagWindows | cosmic_clip.py:97-105 | the two `Q_test_flagging` calls behind one `try`: a raise on the left skips the right |
| Detection.ZeroFlagList | cosmic_clip.py:83-84 | four fresh, distinct, all-zero flag arrays of length N |
| Detection.ScanGradient | cosmic_clip.py:91-105 | one `idx` pass moves that gradient's two arrays from the state before centre `i` to the state after it |
| Detection.ScanCentre | cosmic_clip.py:89-105 | the `for idx` loop moves all eight arrays past centre `i` |
| Detection.Detect | cosmic_clip.py:83-105 | the nested loops leave exactly the closed-form final flag arrays |
| Consensus.ArrayMathsAt | cosmic_clip.py:58-63 | `array_maths(L, R)[i] == L[i]*R[i] + L[i-1]*R[i] + R[i+1]*L[i]`, circularly |
| Consensus.ArrayMathsPositive | cosmic_clip.py:58-63 | on 0/1 arrays `array_maths` is non-negative, and positive iff `R[i]` and one of `L[i]`, `L[i-1]`, or `L[i]` and `R[i+1]` |
| Consensus.CosmicFlagsIff | cosmic_clip.py:107-111 | every cosmic flag is 0 or 1, and it is 1 iff both forward gradients or both backward gradients agree |
| Consensus.CosmicFlagSource | cosmic_clip.py:107-111 | a cosmic flag needs a right flag at the sample or its successor and a left flag of the same gradient at the sample or its predecessor |
| Consensus.CosmicFlagsWithin | cosmic_clip.py:107-111 | left flags in [13, N-4] and right flags in [13, N-14] confine cosmic flags to [13, N-14] |
| Consensus.Agreement | cosmic_clip.py:107-110 | `array_maths(flaglistL[d], flaglistR[d])` is as long as the flag arrays; its value is stated by `Consensus.ArrayMathsAt`, `Consensus.ArrayMathsPositive` and `Consensus.ClearSideNoAgreement` |
| Consensus.ClearSideNoAgreement | cosmic_clip.py:62-63 | `array_maths` is zero everywhere when either its left or its right flag array is all zero |
| Consensus.ClearGradientsNoCosmicFlags | cosmic_clip.py:107-111 | when one forward and one backward gradient each have an all-zero flag array on some side, every cosmic flag is 0 |
| Consensus.NoRightFlagsNoCosmicFlags | cosmic_clip.py:107-111 | with no right flag set there is no cosmic flag |
| Consensus.ArrayMaths | cosmic_clip.py:58-63 | `array_maths` is as long as its inputs; its value is stated by `Consensus.ArrayMathsAt` and `Consensus.ArrayMathsPositive` |
| Consensus.CosmicFlags | cosmic_clip.py:107-111 | `cosmic_flags` is as long as the flag arrays; its values are stated by `Consensus.CosmicFlagsIff` |
| Consensus.PairAgreementFlag | cosmic_clip.py:107-111 | on 0/1 flag arrays, the left and right flags of both gradients of one direction set at `i` make `i` a cosmic flag |
| Corrector.RepairAtInterior | cosmic_clip.py:116-124 | away from the ends a flagged pass changes only `ii-1..ii+1`; the run case sets `ii-1` and `ii` to `flux[ii-2]`; otherwise it raises iff `ii+2` is past the end, and else puts the three samples on the line from `flux[ii-2]` to `flux[ii+2]` |
| Corrector.RepairAt | cosmic_clip.py:117-124 | one pass raises IndexError iff `ii` is flagged and is the last sample, or is flagged, second to last and followed by an unflagged sample; otherwise it keeps the length and changes nothing but `ii-1` (mod N), `ii` and `ii+1`; the values written for `2 <= ii` are stated by `Corrector.RepairAtInterior`; the wrapping passes at `ii` 0 and 1 are never reached by the routine (`CosmicClip.ConsensusInterior`) |
| Corrector.CorrectFrom | cosmic_clip.py:116-124 | the passes from `ii` on keep the length when they do not raise; the rest is stated by `Corrector.UnflaggedUnchanged`, `Corrector.CorrectRaisesOnLastFlag`, `Corrector.InteriorFlagsRepair` and `Corrector.IsolatedSpikeInterpolated` |
| Corrector.RepairAtLastRaises | cosmic_clip.py:117-118 | a flagged last sample raises at `cosmic_flags[ii+1]` |
| Corrector.CorrectRaisesOnLastFlag | cosmic_clip.py:116-118 | a flagged last sample makes the whole loop raise |
| Corrector.UnflaggedUnchanged | cosmic_clip.py:116-117 | with no flag set the loop leaves the flux unchanged |
| Corrector.InteriorFlagsRepair | cosmic_clip.py:116-124 | when every flag has two samples on each side the loop never raises and keeps every sample not at or next to a flag |
| Corrector.RunOfTwoRepaired | cosmic_clip.py:116-124 | with interior flags, a run of exactly two flags at `ii`, `ii+1` and no other flag among the three samples before the run or the two after it: the loop does not raise, `ii-1` ends equal to the original `flux[ii-2]`, and `ii`, `ii+1`, `ii+2` end on the line from the original `flux[ii-2]` to the original `flux[ii+3]`, because the second pass blends over the first one's fill |
| Corrector.IsolatedSpikeInterpolated | cosmic_clip.py:116-124 | a flag with no other flag among the three samples before it or the two after it ends, with its neighbours, on the line between the original `flux[ii-2]` and `flux[ii+2]` |
| Corrector.RepairInPlace | cosmic_clip.py:117-124 | one pass in place on the array raises or writes exactly what the pass function gives |
| Corrector.Correct | cosmic_clip.py:116-124 | the `for ii` loop raises or leaves exactly the fold of the passes |
| CosmicClip.ConsensusFlags | cosmic_clip.py:107-111 | the cosmic flags of a flux are as long as the flux; their values and positions are stated by `CosmicClip.ConsensusInterior` |
| CosmicClip.Removal | cosmic_clip.py:66-126 | on success the repaired flux is as long as the input and the flags returned are `CosmicClip.ConsensusFlags`; the rest is stated by `CosmicClip.RemovalNeverRaises`, `CosmicClip.IsolatedCosmicRayInterpolated` and the `Unchanged` lemmas below |
| CosmicClip.ConsensusInterior | cosmic_clip.py:107-111 | every cosmic flag is 0 or 1, and a 1 sits only in [13, N-14] |
| CosmicClip.RemovalNeverRaises | cosmic_clip.py:66-126 | `cosmic_removal` never raises, and keeps every sample that is not at or next to a cosmic flag |
| CosmicClip.RunOfTwoCosmicRaysRepaired | cosmic_clip.py:113-124 | two adjacent cosmic flags with no other among the three samples before them or the two after them: `cosmic_removal` does not raise, `ii-1` ends equal to the original `flux[ii-2]`, and `ii`, `ii+1`, `ii+2` end on the line from the original `flux[ii-2]` to the original `flux[ii+3]` |
| CosmicClip.IsolatedCosmicRayInterpolated | cosmic_clip.py:113-124 | a cosmic flag with no other among the three samples before it or the two after it ends, with its neighbours, on the line between the flux two samples before and two after |
| CosmicClip.NoRightFlagsUnchanged | cosmic_clip.py:107-126 | with no right flag nothing is flagged and the flux is returned unchanged |
| CosmicClip.ShortFluxUnchanged | cosmic_clip.py:66-126 | a flux of fewer than 31 samples is never flagged and is returned unchanged |
| CosmicClip.SpikeExampleNotFlagged | cosmic_clip.py:66-126 | the 21-sample flux of 5.0 with a spike of 50.0 at index 10 is returned unflagged and unchanged |
| CosmicClip.ConstantFluxUnchanged | cosmic_clip.py:66-126 | a constant flux is never flagged and is returned unchanged |
| CosmicClip.FlatSpikeNeverFlagged | cosmic_clip.py:66-126 | a flux equal to `c` everywhere but one sample `c + D` with `D > 0` is never flagged, at any length, and is returned unchanged |
| CosmicClip.FlaggedPairConsensus | cosmic_clip.py:107-111 | when both gradients of one direction have their left and right flags set at `p` after the scan, `p` is a cosmic flag |
| CosmicClip.PassingWindowsFlag | cosmic_clip.py:83-111 | when, for both forward gradients or both backward ones, the centre `p - adjustor[d]` has both windows full and both pass the four conditions, `p` is a cosmic flag |
| CosmicClip.CosmicRemoval | cosmic_clip.py:66-126 | the routine, over arrays, returns exactly `CosmicClip.Removal(masterflux)`, the functional model of the routine |

## Left out

- Floating point: flux values are exact reals, so the 0.75/0.25 blends and the halving are exact, and IEEE-754 rounding is not modelled.
- Division by zero in `Q_test` gives a quotient that is +inf, -inf or NaN, as NumPy's float64 does, and `q > 0.4` is false for NaN. The `RuntimeWarning` NumPy prints there is output, and is left out.
- NumPy dtypes: the flag arrays (`np.zeros`) are float arrays in the source and integers here. Their values are small whole numbers, so nothing is lost. An integer `masterflux` would make `np.array` integer-typed and truncate the repaired values; the model takes the flux to be a float array.
- `sorted`: modelled by an insertion sort. `Sorting.AscendingPermutationUnique` shows that any routine returning an ascending permutation gives the same window.
- QStatistic.FlagDecision: requires a non-empty window. `np.max` of an empty window raises ValueError, not IndexError, but it is reached only after `Q_test` has succeeded on 16 elements.
- Corrector.Correct: when the loop raises, the contents the array was left with are not stated. The array is a local copy (`np.array(masterflux)`) and is dropped with the exception.
- CosmicClip.Removal: states only length facts in its contract; its content is given by the lemmas about it.
- A concrete flux that meets the requires of `CosmicClip.PassingWindowsFlag` is not exhibited: that would mean evaluating the sorts of six 16-sample windows inside one proof.
- The header comments and the URL of the tech notes.
