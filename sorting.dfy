/** Python's `sorted` on a window of flux or gradient values, and NumPy's
    `np.max` and `np.min` of a window. */
module Sorting {

  predicate Ascending(s: seq<real>) {
    forall i, j :: 0 <= i < j < |s| ==> s[i] <= s[j]
  }

  /** Prepending a lower bound keeps a sequence ascending. */
  lemma PrependAscending(y: real, t: seq<real>)
    requires Ascending(t)
    requires forall k :: 0 <= k < |t| ==> y <= t[k]
    ensures Ascending([y] + t)
  {
    var u := [y] + t;
    forall i, j | 0 <= i < j < |u| ensures u[i] <= u[j] {
      assert u[j] == t[j - 1];
      if i > 0 {
        assert u[i] == t[i - 1];
      }
    }
  }

  /** A bound on every element carries over to a permutation. */
  lemma BoundByMultiset(t: seq<real>, s: seq<real>, b: real)
    requires multiset(t) == multiset(s)
    requires forall k :: 0 <= k < |s| ==> b <= s[k]
    ensures forall k :: 0 <= k < |t| ==> b <= t[k]
  {
    forall k | 0 <= k < |t| ensures b <= t[k] {
      assert t[k] in multiset(t);
      assert t[k] in multiset(s);
      var m :| 0 <= m < |s| && s[m] == t[k];
    }
  }

  /** Inserts `x` into an ascending sequence. */
  function Insert(x: real, s: seq<real>): (r: seq<real>)
    requires Ascending(s)
    ensures |r| == |s| + 1
    ensures Ascending(r)
    ensures multiset(r) == multiset(s) + multiset{x}
  {
    if s == [] || x <= s[0] then
      PrependAscending(x, s);
      [x] + s
    else
      var rest := s[1..];
      assert s == [s[0]] + rest;
      var t := Insert(x, rest);
      BoundByMultiset(t, rest + [x], s[0]);
      PrependAscending(s[0], t);
      [s[0]] + t
  }

  /** `sorted(s)`: an ascending permutation of `s`. */
  function Sort(s: seq<real>): (r: seq<real>)
    ensures |r| == |s|
    ensures Ascending(r)
    ensures multiset(r) == multiset(s)
  {
    if s == [] then []
    else
      assert s == [s[0]] + s[1..];
      Insert(s[0], Sort(s[1..]))
  }

  /** The head of an ascending sequence is below each of its elements. */
  lemma HeadIsLeast(a: seq<real>, x: real)
    requires Ascending(a) && x in a
    ensures a[0] <= x
  {
    var k :| 0 <= k < |a| && a[k] == x;
    if k > 0 {
      assert a[0] <= a[k];
    }
  }

  /** Dropping the head keeps a sequence ascending. */
  lemma TailAscending(a: seq<real>)
    requires Ascending(a) && a != []
    ensures Ascending(a[1..])
  {
    var t := a[1..];
    forall i, j | 0 <= i < j < |t| ensures t[i] <= t[j] {
      assert t[i] == a[i + 1] && t[j] == a[j + 1];
    }
  }

  /** An ascending permutation is unique, so `Sort` stands for any sorting
      routine, Python's included. */
  lemma {:induction false} AscendingPermutationUnique(a: seq<real>, b: seq<real>)
    requires Ascending(a) && Ascending(b)
    requires multiset(a) == multiset(b)
    ensures a == b
  {
    if a != [] {
      assert |a| == |b| by {
        assert |b| == |multiset(b)| == |multiset(a)| == |a|;
      }
      assert a[0] == b[0] by {
        assert a[0] in multiset(b) && b[0] in multiset(a);
        HeadIsLeast(a, b[0]);
        HeadIsLeast(b, a[0]);
      }
      var ta, tb := a[1..], b[1..];
      assert multiset(ta) == multiset(tb) by {
        assert a == [a[0]] + ta && b == [b[0]] + tb;
        assert multiset(ta) == multiset(a) - multiset{a[0]};
        assert multiset(tb) == multiset(b) - multiset{b[0]};
      }
      TailAscending(a);
      TailAscending(b);
      AscendingPermutationUnique(ta, tb);
      assert a == [a[0]] + ta && b == [b[0]] + tb;
    }
  }

  /** `np.max(s)` */
  function MaxOf(s: seq<real>): (m: real)
    requires |s| > 0
    ensures m in s
    ensures forall x :: x in s ==> x <= m
  {
    if |s| == 1 then s[0]
    else
      var rest := MaxOf(s[1..]);
      assert s == [s[0]] + s[1..];
      if s[0] > rest then s[0] else rest
  }

  /** `np.min(s)` */
  function MinOf(s: seq<real>): (m: real)
    requires |s| > 0
    ensures m in s
    ensures forall x :: x in s ==> m <= x
  {
    if |s| == 1 then s[0]
    else
      var rest := MinOf(s[1..]);
      assert s == [s[0]] + s[1..];
      if s[0] < rest then s[0] else rest
  }

  /** On an ascending window the maximum is the last element and the minimum
      the first. */
  lemma ExtremesOfAscending(s: seq<real>)
    requires Ascending(s) && |s| > 0
    ensures MaxOf(s) == s[|s| - 1]
    ensures MinOf(s) == s[0]
  {
    var mx, mn := MaxOf(s), MinOf(s);
    var i :| 0 <= i < |s| && s[i] == mx;
    var j :| 0 <= j < |s| && s[j] == mn;
    assert s[|s| - 1] in s && s[0] in s;
  }

  /** Every element of the sorted sequence comes from the input. */
  lemma SortElements(s: seq<real>, x: real)
    requires x in Sort(s)
    ensures x in s
  {
    assert x in multiset(Sort(s));
  }

  /** The sorted sequence starts at or below, and ends at or above, every
      element of the input, and starts with one of them. */
  lemma SortedBounds(s: seq<real>, x: real)
    requires x in s
    ensures Sort(s)[0] <= x <= Sort(s)[|s| - 1]
    ensures Sort(s)[0] in s
  {
    var r := Sort(s);
    assert x in multiset(r) by {
      assert x in multiset(s);
    }
    var k :| 0 <= k < |r| && r[k] == x;
    if 0 < k {
      assert r[0] <= r[k];
    }
    if k < |r| - 1 {
      assert r[k] <= r[|r| - 1];
    }
    SortElements(s, r[0]);
  }

  /** Sorting a sequence whose elements all equal `c` gives elements that all equal `c`. */
  lemma SortConstant(s: seq<real>, c: real)
    requires forall k :: 0 <= k < |s| ==> s[k] == c
    ensures forall k :: 0 <= k < |s| ==> Sort(s)[k] == c
  {
    forall k | 0 <= k < |s| ensures Sort(s)[k] == c {
      SortElements(s, Sort(s)[k]);
    }
  }
}
