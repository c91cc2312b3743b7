/** Sequence helpers shared by the windowed summaries and the filters. */
module Sequences {

  /** The last n elements, or all of them. */
  function Last<T>(s: seq<T>, n: nat): (r: seq<T>)
    ensures |r| <= n && |r| <= |s|
  {
    if |s| <= n then s else s[|s| - n..]
  }

  // ---------------------------------------------------------------- what a filter keeps

  /** ix lists, in ascending order, exactly the positions below n that satisfy p. */
  ghost predicate Lists(ix: seq<nat>, n: nat, p: nat -> bool) {
    && (forall k :: 0 <= k < |ix| ==> ix[k] < n && p(ix[k]))
    && (forall k, l :: 0 <= k < l < |ix| ==> ix[k] < ix[l])
    && (forall i :: 0 <= i < n && p(i) ==> i in ix)
  }

  ghost predicate Below(ix: seq<nat>, n: nat) {
    forall k :: 0 <= k < |ix| ==> ix[k] < n
  }

  /** The elements at the listed positions. */
  ghost function Pick<T>(s: seq<T>, ix: seq<nat>): (r: seq<T>)
    requires Below(ix, |s|)
    ensures |r| == |ix| && forall k :: 0 <= k < |ix| ==> r[k] == s[ix[k]]
  {
    seq(|ix|, k requires 0 <= k < |ix| => s[ix[k]])
  }

  /** The next position, if it is to be kept. */
  function Listed(ix: seq<nat>, n: nat, keep: bool): seq<nat> {
    if keep then ix + [n] else ix
  }

  lemma ListsSnoc(ix: seq<nat>, n: nat, p: nat -> bool)
    requires Lists(ix, n, p)
    ensures Below(ix, n) && Lists(Listed(ix, n, p(n)), n + 1, p)
  {
    var next := Listed(ix, n, p(n));
    forall i | 0 <= i < n + 1 && p(i) ensures i in next {
      if i == n { assert next[|ix|] == n; } else { assert i in ix; }
    }
  }

  lemma PickSnoc<T>(s: seq<T>, ix: seq<nat>, n: nat, keep: bool)
    requires Below(ix, n) && n < |s|
    ensures Below(ix, |s|) && Below(Listed(ix, n, keep), |s|)
    ensures Pick(s, Listed(ix, n, keep)) == Pick(s, ix) + (if keep then [s[n]] else [])
  {
  }
}
