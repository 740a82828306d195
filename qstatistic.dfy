/** The modified Dixon Q statistic (`Q_test`) and the four-condition check that
    raises one flag count (`Q_test_flagging`). */
module QStatistic {
  import opened PySeq
  import opened Sorting

  /** A quotient of two exact reals, with the IEEE-754 outcomes of a zero
      divisor: a positive numerator gives +inf, a negative one -inf, zero NaN. */
  datatype Quotient = Finite(v: real) | PosInf | NegInf | NaN

  function Divide(num: real, den: real): (q: Quotient)
    ensures q.Finite? <==> den != 0.0
    ensures den == 0.0 ==> (q == PosInf <==> num > 0.0) && (q == NegInf <==> num < 0.0) &&
                           (q == NaN <==> num == 0.0)
  {
    if den != 0.0 then Finite(num / den)
    else if num > 0.0 then PosInf
    else if num < 0.0 then NegInf
    else NaN
  }

  /** `q > t`, where every comparison with NaN is false. */
  predicate Greater(q: Quotient, t: real)
    ensures q.Finite? ==> (Greater(q, t) <==> q.v > t)
    ensures q == PosInf ==> Greater(q, t)
    ensures q == NegInf || q == NaN ==> !Greater(q, t)
  {
    match q
    case Finite(v) => v > t
    case PosInf => true
    case NegInf => false
    case NaN => false
  }

  /** `Q_test(sample)`: the gap between the two largest samples over the spread
      of the rest; a window of fewer than sixteen samples raises IndexError. */
  function QTest(sample: seq<real>): (r: Outcome<Quotient>)
    ensures r.Ok? <==> |sample| >= 16
  {
    if |sample| < 16 then IndexError
    else Ok(Divide(sample[15] - sample[14], sample[14] - sample[0]))
  }

  /** On an ascending window numerator and denominator are both non-negative,
      so `q > t` is `num > t * den` with no division at all: +inf and NaN
      from a zero spread land on the same side as that product test. */
  lemma QTestOnAscending(s: seq<real>, t: real)
    requires Ascending(s) && |s| >= 16
    ensures QTest(s).Ok?
    ensures s[15] - s[14] >= 0.0 && s[14] - s[0] >= 0.0
    ensures Greater(QTest(s).value, t) <==> s[15] - s[14] > t * (s[14] - s[0])
  {
    var num, den := s[15] - s[14], s[14] - s[0];
    assert s[14] <= s[15] && s[0] <= s[14];
    if den > 0.0 {
      assert num / den * den == num;
      if num / den > t {
        assert num / den * den > t * den;
      } else {
        assert num / den * den <= t * den;
      }
    }
  }

  /** What one call of `Q_test_flagging` does: raise no flag, increment the
      flag at `slot`, or raise IndexError. */
  datatype FlagOutcome = NoFlag | Flag(slot: nat) | Raised

  /** The nested checks of `Q_test_flagging`, in the order Python evaluates
      them; `flagLen` is the length of the flag array it increments. */
  function FlagDecision(flux: seq<real>, grad: seq<real>, iter: int,
                        sortedSample: seq<real>, sortedLocal: seq<real>,
                        q: Quotient, threshold: real, adjust: int,
                        flagLen: nat): (r: FlagOutcome)
    requires |sortedSample| > 0
    ensures r.Flag? ==> r.slot < flagLen && -|flux| <= iter + adjust < |flux|
    ensures r.Flag? ==> |sortedLocal| >= 13 && Greater(q, threshold)
    ensures r.Flag? && 0 <= iter + adjust ==> r.slot == iter + adjust
  {
    if !Greater(q, threshold) then NoFlag
    else match Get(grad, iter)
      case IndexError => Raised
      case Ok(g) =>
        if g != MaxOf(sortedSample) then NoFlag
        else match Get(flux, iter + adjust)
          case IndexError => Raised
          case Ok(f) =>
            match Get(sortedLocal, 12)
            case IndexError => Raised
            case Ok(m) =>
              if !(f > m) then NoFlag
              else if MinOf(sortedSample) == 0.0 then NoFlag
              else match Index(flagLen, iter + adjust)
                case IndexError => Raised
                case Ok(k) => Flag(k)
  }

  /** For a full ascending window whose indices are all in range, the check
      increments the flag of `iter + adjust` exactly when the four conditions
      hold: the Q statistic exceeds the threshold, the centre carries the
      largest gradient of the window, the shifted flux exceeds the thirteenth
      smallest local flux, and the smallest gradient of the window is not zero.
      It never raises there and touches no other slot. */
  lemma FlaggingConditions(flux: seq<real>, grad: seq<real>, iter: int,
                           s: seq<real>, local: seq<real>, threshold: real,
                           adjust: int)
    requires Ascending(s) && |s| == 16
    requires 0 <= iter < |grad| && 0 <= iter + adjust < |flux| && |local| >= 13
    ensures QTest(s).Ok?
    ensures var r := FlagDecision(flux, grad, iter, s, local, QTest(s).value,
                                  threshold, adjust, |flux|);
            (r == Flag(iter + adjust) <==>
               s[15] - s[14] > threshold * (s[14] - s[0]) && grad[iter] == s[15] &&
               flux[iter + adjust] > local[12] && s[0] != 0.0) &&
            (r != Flag(iter + adjust) ==> r == NoFlag)
  {
    QTestOnAscending(s, threshold);
    ExtremesOfAscending(s);
    assert Get(grad, iter) == Ok(grad[iter]);
    assert Get(flux, iter + adjust) == Ok(flux[iter + adjust]);
    assert Get(local, 12) == Ok(local[12]);
  }

  /** `Q_test_flagging(...)`: increments `flagArray` in place when the checks
      pass. The outcome it returns says which way it went, an IndexError
      included, so that the caller can model the surrounding `try`. */
  method QTestFlagging(flux: seq<real>, grad: seq<real>, iter: int,
                       sortedSample: seq<real>, sortedLocal: seq<real>,
                       q: Quotient, threshold: real, adjust: int,
                       flagArray: array<int>) returns (outcome: FlagOutcome)
    requires |sortedSample| > 0
    modifies flagArray
    ensures outcome == FlagDecision(flux, grad, iter, sortedSample, sortedLocal, q,
                                    threshold, adjust, flagArray.Length)
    ensures outcome.Flag? ==>
              flagArray[..] == old(flagArray[..])[outcome.slot := old(flagArray[..])[outcome.slot] + 1]
    ensures !outcome.Flag? ==> flagArray[..] == old(flagArray[..])
  {
    if !Greater(q, threshold) {
      return NoFlag;
    }
    var g := Get(grad, iter);
    if g.IndexError? {
      return Raised;
    }
    if g.value != MaxOf(sortedSample) {
      return NoFlag;
    }
    var f := Get(flux, iter + adjust);
    if f.IndexError? {
      return Raised;
    }
    var m := Get(sortedLocal, 12);
    if m.IndexError? {
      return Raised;
    }
    if !(f.value > m.value) || MinOf(sortedSample) == 0.0 {
      return NoFlag;
    }
    var k := Index(flagArray.Length, iter + adjust);
    if k.IndexError? {
      return Raised;
    }
    flagArray[k.value] := flagArray[k.value] + 1;
    outcome := Flag(k.value);
  }
}
