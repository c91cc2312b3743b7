/**
 The median that fits a reference power: insertion sort on a copy, then the middle. It is
 robust: a majority of values inside an interval keeps the median inside.
 */
module Median {

  ghost predicate Sorted(s: seq<real>) {
    forall i, j :: 0 <= i <= j < |s| ==> s[i] <= s[j]
  }

  /** The middle element, or the mean of the two middle ones. */
  function Middle(s: seq<real>): real {
    var n := |s|;
    if n == 0 then 0.0
    else if n % 2 == 0 then (s[n / 2 - 1] + s[n / 2]) / 2.0
    else s[n / 2]
  }

  /** The key put behind the first p elements. */
  function InsertAt(s: seq<real>, key: real, p: nat): seq<real>
    requires p <= |s|
  {
    s[..p] + [key] + s[p..]
  }

  lemma InsertKeepsSorted(s: seq<real>, key: real, p: nat)
    requires Sorted(s) && p <= |s|
    requires (p > 0 ==> s[p - 1] <= key) && (p < |s| ==> key <= s[p])
    ensures Sorted(InsertAt(s, key, p))
  {
  }

  lemma InsertAddsKey(s: seq<real>, key: real, p: nat)
    requires p <= |s|
    ensures multiset(InsertAt(s, key, p)) == multiset(s) + multiset{key}
  {
    assert s == s[..p] + s[p..];
  }

  /** Shifts the larger elements of the prefix a[..i] one place up and drops a[i] into the gap at p. */
  method InsertStep(a: array<real>, i: nat) returns (ghost p: nat)
    requires 0 < i < a.Length
    modifies a
    ensures p <= i && a[..i + 1] == InsertAt(old(a[..i]), old(a[i]), p) && a[i + 1..] == old(a[i + 1..])
    ensures p > 0 ==> old(a[p - 1]) <= old(a[i])
    ensures p < i ==> old(a[i]) <= old(a[p])
  {
    ghost var s := a[..i];
    var key := a[i];
    var j := i - 1;
    while j >= 0 && a[j] > key
      invariant -1 <= j < i
      invariant forall k :: 0 <= k <= j ==> a[k] == s[k]
      invariant forall k :: j + 2 <= k <= i ==> a[k] == s[k - 1]
      invariant j + 1 < i ==> s[j + 1] > key
      invariant forall k :: i < k < a.Length ==> a[k] == old(a[k])
    {
      a[j + 1] := a[j];
      j := j - 1;
    }
    a[j + 1] := key;
    p := j + 1;
  }

  /** The effect of one insertion on a sorted prefix. */
  lemma PrefixGrows(before: seq<real>, x: real, p: nat, prefix: seq<real>, next: seq<real>)
    requires Sorted(before) && multiset(before) == multiset(prefix) && next == prefix + [x]
    requires p <= |before| && (p > 0 ==> before[p - 1] <= x) && (p < |before| ==> x <= before[p])
    ensures Sorted(InsertAt(before, x, p)) && multiset(InsertAt(before, x, p)) == multiset(next)
  {
    InsertKeepsSorted(before, x, p);
    InsertAddsKey(before, x, p);
  }

  method InsertionSort(a: array<real>)
    modifies a
    ensures Sorted(a[..]) && multiset(a[..]) == multiset(old(a[..]))
  {
    hide InsertAt;
    ghost var values := a[..];
    if a.Length == 0 { return; }
    SingleSorted(a[..1]);
    assert a[..1] == values[..1];
    hide Sorted;
    for i := 1 to a.Length
      invariant a[i..] == values[i..]
      invariant Sorted(a[..i]) && multiset(a[..i]) == multiset(values[..i])
    {
      ghost var before := a[..i];
      assert a[i] == a[i..][0] == values[i];
      var p := InsertStep(a, i);
      PrefixGrows(before, values[i], p, values[..i], values[..i + 1]);
      assert a[i + 1..] == values[i..][1..];
    }
    assert a[..a.Length] == a[..] && values[..a.Length] == values;
  }

  lemma SingleSorted(s: seq<real>)
    requires |s| == 1
    ensures Sorted(s)
  {
  }

  /** How many elements of a sorted list stay in front of the key. */
  function Rank(s: seq<real>, key: real): (p: nat)
    ensures p <= |s|
    ensures p < |s| ==> key <= s[p]
    ensures p > 0 ==> s[p - 1] <= key
  {
    if s == [] || key <= s[0] then 0
    else
      var p := Rank(s[1..], key);
      p + 1
  }

  function SortedOf(s: seq<real>): (r: seq<real>)
    ensures Sorted(r) && multiset(r) == multiset(s)
  {
    if s == [] then []
    else
      var n := |s| - 1;
      var r := SortedOf(s[..n]);
      var p := Rank(r, s[n]);
      InsertKeepsSorted(r, s[n], p);
      InsertAddsKey(r, s[n], p);
      assert s == s[..n] + [s[n]];
      InsertAt(r, s[n], p)
  }

  /** The median of any list. */
  function MedianOf(values: seq<real>): real {
    Middle(SortedOf(values))
  }

  /** The last element of a sorted list is its maximum. */
  lemma LastIsMax(s: seq<real>, t: seq<real>)
    requires Sorted(s) && s != [] && t != [] && multiset(s) == multiset(t)
    ensures t[|t| - 1] <= s[|s| - 1]
  {
    var x := t[|t| - 1];
    assert x in multiset(t);
    assert x in s;
  }

  lemma DropLast(s: seq<real>)
    requires s != []
    ensures multiset(s) == multiset(s[..|s| - 1]) + multiset{s[|s| - 1]}
  {
    assert s == s[..|s| - 1] + [s[|s| - 1]];
  }

  /** A list has one sorted form only. */
  lemma {:induction false} SortedUnique(s: seq<real>, t: seq<real>)
    requires Sorted(s) && Sorted(t) && multiset(s) == multiset(t)
    ensures s == t
    decreases |s|
  {
    assert |s| == |multiset(s)| == |multiset(t)| == |t|;
    if s != [] {
      var n := |s| - 1;
      LastIsMax(s, t);
      LastIsMax(t, s);
      DropLast(s);
      DropLast(t);
      CancelOne(multiset(s[..n]), multiset(t[..n]), s[n]);
      SortedUnique(s[..n], t[..n]);
      assert s == s[..n] + [s[n]] && t == t[..n] + [t[n]];
    }
  }

  lemma MedianOfSorted(s: seq<real>)
    requires Sorted(s)
    ensures MedianOf(s) == Middle(s)
  {
    SortedUnique(SortedOf(s), s);
  }

  method ComputeMedian(values: seq<real>) returns (m: real, ghost sorted: seq<real>)
    ensures m == MedianOf(values) && (values == [] ==> m == 0.0)
    ensures Sorted(sorted) && multiset(sorted) == multiset(values) && m == Middle(sorted)
  {
    var n := |values|;
    if n == 0 { return 0.0, []; }
    var a := new real[n](i requires 0 <= i < n => values[i]);
    assert a[..] == values;
    InsertionSort(a);
    sorted := a[..];
    if n % 2 == 0 { m := (a[n / 2 - 1] + a[n / 2]) / 2.0; } else { m := a[n / 2]; }
    SortedUnique(sorted, SortedOf(values));
  }

  // ---------------------------------------------------------------- robustness

  function Inside(s: seq<real>, lo: real, hi: real): (k: nat)
    ensures k <= |s|
  {
    if s == [] then 0
    else Inside(s[..|s| - 1], lo, hi) + (if lo <= s[|s| - 1] <= hi then 1 else 0)
  }

  lemma {:induction false} InsideSplits(s: seq<real>, t: seq<real>, lo: real, hi: real)
    ensures Inside(s + t, lo, hi) == Inside(s, lo, hi) + Inside(t, lo, hi)
  {
    if t == [] {
      assert s + t == s;
    } else {
      assert (s + t)[..|s + t| - 1] == s + t[..|t| - 1];
      InsideSplits(s, t[..|t| - 1], lo, hi);
    }
  }

  lemma CancelOne(a: multiset<real>, b: multiset<real>, x: real)
    requires a + multiset{x} == b + multiset{x}
    ensures a == b
  {
    assert a == (a + multiset{x}) - multiset{x};
    assert b == (b + multiset{x}) - multiset{x};
  }

  /** Counting does not depend on the order. */
  lemma {:induction false} InsideOfPermutation(s: seq<real>, t: seq<real>, lo: real, hi: real)
    requires multiset(s) == multiset(t)
    ensures Inside(s, lo, hi) == Inside(t, lo, hi)
    decreases |s|
  {
    assert |s| == |multiset(s)| == |multiset(t)| == |t|;
    if s != [] {
      var n := |s| - 1;
      var x := s[n];
      assert s == s[..n] + [x];
      assert x in multiset(t);
      var j :| 0 <= j < |t| && t[j] == x;
      var t' := t[..j] + t[j + 1..];
      assert t == t[..j] + [x] + t[j + 1..];
      assert multiset(t) == multiset(t') + multiset{x};
      assert multiset(s) == multiset(s[..n]) + multiset{x};
      CancelOne(multiset(s[..n]), multiset(t'), x);
      InsideOfPermutation(s[..n], t', lo, hi);
      InsideSplits(t[..j], t[j + 1..], lo, hi);
      InsideSplits(t[..j], [x], lo, hi);
      InsideSplits(t[..j] + [x], t[j + 1..], lo, hi);
      assert [x][..0] == [];
    }
  }

  lemma {:induction false} NoneInside(s: seq<real>, lo: real, hi: real)
    requires forall i :: 0 <= i < |s| ==> !(lo <= s[i] <= hi)
    ensures Inside(s, lo, hi) == 0
  {
    if s != [] { NoneInside(s[..|s| - 1], lo, hi); }
  }

  /** At most |s| - k elements are inside when the first k are outside. */
  lemma FrontOutside(s: seq<real>, k: nat, lo: real, hi: real)
    requires k <= |s| && forall i :: 0 <= i < k ==> !(lo <= s[i] <= hi)
    ensures Inside(s, lo, hi) <= |s| - k
  {
    assert s == s[..k] + s[k..];
    InsideSplits(s[..k], s[k..], lo, hi);
    NoneInside(s[..k], lo, hi);
  }

  /** At most |s| - k elements are inside when the last k are outside. */
  lemma BackOutside(s: seq<real>, k: nat, lo: real, hi: real)
    requires k <= |s| && forall i :: |s| - k <= i < |s| ==> !(lo <= s[i] <= hi)
    ensures Inside(s, lo, hi) <= |s| - k
  {
    assert s == s[..|s| - k] + s[|s| - k..];
    InsideSplits(s[..|s| - k], s[|s| - k..], lo, hi);
    NoneInside(s[|s| - k..], lo, hi);
  }

  /** A position with at least half of the elements on either side of it lies inside when a majority does. */
  lemma MajorityHolds(s: seq<real>, i: nat, lo: real, hi: real)
    requires Sorted(s) && i < |s| && 2 * Inside(s, lo, hi) > |s|
    requires 2 * (i + 1) >= |s| && 2 * (|s| - i) >= |s|
    ensures lo <= s[i] <= hi
  {
    if s[i] < lo { FrontOutside(s, i + 1, lo, hi); }
    if s[i] > hi { BackOutside(s, |s| - i, lo, hi); }
  }

  /** The median lies in every interval that holds more than half of the values. */
  lemma MedianIsRobust(values: seq<real>, sorted: seq<real>, lo: real, hi: real)
    requires Sorted(sorted) && multiset(sorted) == multiset(values)
    requires 2 * Inside(values, lo, hi) > |values|
    ensures lo <= Middle(sorted) <= hi
  {
    assert |sorted| == |multiset(sorted)| == |multiset(values)| == |values|;
    InsideOfPermutation(values, sorted, lo, hi);
    var n := |sorted|;
    MajorityHolds(sorted, n / 2, lo, hi);
    if n % 2 == 0 { MajorityHolds(sorted, n / 2 - 1, lo, hi); }
  }
}
