/** Python and NumPy semantics that the cosmic-ray clipper relies on, written out
    over Dafny sequences: subscripts that count from the end and raise IndexError,
    slices whose bounds are clipped, np.roll, np.flipud and elementwise arithmetic. */
module PySeq {

  /** The value of an expression that may raise IndexError. */
  datatype Outcome<+T> = Ok(value: T) | IndexError {
    predicate IsFailure() { IndexError? }

    function PropagateFailure<U>(): Outcome<U>
      requires IndexError?
    {
      IndexError
    }

    function Extract(): T
      requires Ok?
    {
      value
    }
  }

  /** The position that the subscript `k` denotes in a sequence of length `n`:
      a negative `k` counts from the end, anything outside [-n, n) raises. */
  function Index(n: nat, k: int): (r: Outcome<nat>)
    ensures r.Ok? <==> -(n as int) <= k < n
    ensures r.Ok? ==> r.value < n && r.value == k % n
  {
    if 0 <= k < n then Ok(k) else if -(n as int) <= k < 0 then Ok(k + n) else IndexError
  }

  /** `x mod n` for an `x` that lies within one period above or below [0, n). */
  lemma ModNear(x: int, n: int)
    requires 0 < n && -n <= x < 2 * n
    ensures x % n == if x < 0 then x + n else if x < n then x else x - n
  {
  }

  /** `a[k]` */
  function Get<T>(a: seq<T>, k: int): (r: Outcome<T>)
    ensures r.Ok? <==> -|a| <= k < |a|
    ensures r.Ok? ==> r.value == a[k % |a|]
  {
    var p :- Index(|a|, k);
    Ok(a[p])
  }

  /** Where a slice bound `k` lands in a sequence of length `n`: a negative
      bound counts from the end, and the result is clipped to [0, n]. */
  function SliceBound(n: nat, k: int): (b: nat)
    ensures b <= n
  {
    if k < 0 then (if k + n < 0 then 0 else k + n) else if k > n then n else k
  }

  /** `a[lo:hi]`: never raises, and is empty when the clipped bounds cross. */
  function Slice<T>(a: seq<T>, lo: int, hi: int): (r: seq<T>)
    ensures |r| <= |a|
    ensures |r| == if SliceBound(|a|, lo) < SliceBound(|a|, hi)
                   then SliceBound(|a|, hi) - SliceBound(|a|, lo) else 0
    ensures forall m :: 0 <= m < |r| ==> r[m] == a[SliceBound(|a|, lo) + m]
  {
    var l, h := SliceBound(|a|, lo), SliceBound(|a|, hi);
    if l < h then a[l..h] else []
  }

  /** `np.roll(a, k)`: element i of the result is element (i - k) mod n of `a`. */
  function Roll<T>(a: seq<T>, k: int): (r: seq<T>)
    ensures |r| == |a|
  {
    seq(|a|, i requires 0 <= i < |a| => a[(i - k) % |a|])
  }

  /** Element `i` of `np.roll(a, k)` is element `(i - k) mod n` of `a`. */
  lemma RollAt<T>(a: seq<T>, k: int, i: int)
    requires 0 <= i < |a|
    ensures Roll(a, k)[i] == a[(i - k) % |a|]
  {
  }

  /** Rolling by one moves the last element to the front. */
  lemma RollForward<T>(a: seq<T>)
    requires |a| > 0
    ensures Roll(a, 1) == [a[|a| - 1]] + a[..|a| - 1]
  {
    var r, s := Roll(a, 1), [a[|a| - 1]] + a[..|a| - 1];
    forall i | 0 <= i < |a| ensures r[i] == s[i] {
      if i == 0 {
        assert (i - 1) % |a| == |a| - 1;
      } else {
        assert (i - 1) % |a| == i - 1;
      }
    }
  }

  /** Rolling by minus one moves the first element to the back. */
  lemma RollBackward<T>(a: seq<T>)
    requires |a| > 0
    ensures Roll(a, -1) == a[1..] + [a[0]]
  {
    var r, s := Roll(a, -1), a[1..] + [a[0]];
    forall i | 0 <= i < |a| ensures r[i] == s[i] {
      if i == |a| - 1 {
        assert (i + 1) % |a| == 0;
      } else {
        assert (i + 1) % |a| == i + 1;
      }
    }
  }

  /** `np.flipud(a)` on a one-dimensional array. */
  function Flip<T>(a: seq<T>): (r: seq<T>)
    ensures |r| == |a|
  {
    seq(|a|, i requires 0 <= i < |a| => a[|a| - 1 - i])
  }

  /** Element `i` of `np.flipud(a)` is element `n - 1 - i` of `a`. */
  lemma FlipAt<T>(a: seq<T>, i: int)
    requires 0 <= i < |a|
    ensures Flip(a)[i] == a[|a| - 1 - i]
  {
  }

  /** Elementwise `a - b` of two arrays of one length. */
  function Sub(a: seq<real>, b: seq<real>): (r: seq<real>)
    requires |a| == |b|
    ensures |r| == |a|
  {
    seq(|a|, i requires 0 <= i < |a| => a[i] - b[i])
  }

  /** Elementwise `a + b` of two flag arrays of one length. */
  function Add(a: seq<int>, b: seq<int>): (r: seq<int>)
    requires |a| == |b|
    ensures |r| == |a|
  {
    seq(|a|, i requires 0 <= i < |a| => a[i] + b[i])
  }

  /** Elementwise `a * b` of two flag arrays of one length. */
  function Mul(a: seq<int>, b: seq<int>): (r: seq<int>)
    requires |a| == |b|
    ensures |r| == |a|
  {
    seq(|a|, i requires 0 <= i < |a| => a[i] * b[i])
  }

  /** `a.clip(max=m)`: every element above `m` is replaced by `m`. */
  function ClipMax(a: seq<int>, m: int): (r: seq<int>)
    ensures |r| == |a|
    ensures forall i :: 0 <= i < |a| ==> r[i] <= m && (r[i] == a[i] || r[i] == m)
    ensures forall i :: 0 <= i < |a| && a[i] <= m ==> r[i] == a[i]
  {
    seq(|a|, i requires 0 <= i < |a| => if a[i] > m then m else a[i])
  }
}
