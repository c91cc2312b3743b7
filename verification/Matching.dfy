/**
 Greedy one-to-one assignment over scored pairs: the simple recursive form, the form with
 claimed sets that the correlator runs, and what the assignment is worth.
 */
module Matching {
  datatype Candidate = Candidate(ctrl: string, uav: string, score: real, how: string)

  predicate Conflict(x: Candidate, y: Candidate) {
    x.ctrl == y.ctrl || x.uav == y.uav
  }

  ghost predicate IsMatching(m: seq<Candidate>) {
    forall i, j :: 0 <= i < j < |m| ==> !Conflict(m[i], m[j])
  }

  ghost predicate Descending(cs: seq<Candidate>) {
    forall i, j :: 0 <= i <= j < |cs| ==> cs[i].score >= cs[j].score
  }

  /** The candidates that share neither end with c, in order. */
  function Compatible(cs: seq<Candidate>, c: Candidate): (r: seq<Candidate>)
    ensures |r| <= |cs|
    ensures forall x :: x in r <==> x in cs && !Conflict(x, c)
  {
    if cs == [] then []
    else if Conflict(cs[0], c) then Compatible(cs[1..], c)
    else [cs[0]] + Compatible(cs[1..], c)
  }

  function Clashing(cs: seq<Candidate>, c: Candidate): (r: seq<Candidate>)
    ensures forall x :: x in r <==> x in cs && Conflict(x, c)
  {
    if cs == [] then []
    else if Conflict(cs[0], c) then [cs[0]] + Clashing(cs[1..], c)
    else Clashing(cs[1..], c)
  }

  /** Take the first candidate, drop everything that clashes with it, repeat. */
  function Greedy(cs: seq<Candidate>): (m: seq<Candidate>)
    ensures forall x :: x in m ==> x in cs
    decreases |cs|
  {
    if cs == [] then [] else [cs[0]] + Greedy(Compatible(cs[1..], cs[0]))
  }

  function Total(cs: seq<Candidate>): real {
    if cs == [] then 0.0 else cs[0].score + Total(cs[1..])
  }

  // ---------------------------------------------------------------- claimed sets

  predicate Claimed(c: Candidate, ctrls: set<string>, uavs: set<string>) {
    c.uav in uavs || c.ctrl in ctrls
  }

  /** One pass that skips candidates with a claimed end. */
  function Pass(cs: seq<Candidate>, ctrls: set<string>, uavs: set<string>): seq<Candidate> {
    if cs == [] then []
    else if Claimed(cs[0], ctrls, uavs) then Pass(cs[1..], ctrls, uavs)
    else [cs[0]] + Pass(cs[1..], ctrls + {cs[0].ctrl}, uavs + {cs[0].uav})
  }

  function Unclaimed(cs: seq<Candidate>, ctrls: set<string>, uavs: set<string>): (r: seq<Candidate>)
    ensures |r| <= |cs|
  {
    if cs == [] then []
    else if Claimed(cs[0], ctrls, uavs) then Unclaimed(cs[1..], ctrls, uavs)
    else [cs[0]] + Unclaimed(cs[1..], ctrls, uavs)
  }

  lemma {:induction false} ClaimOne(cs: seq<Candidate>, c: Candidate, ctrls: set<string>, uavs: set<string>)
    ensures Unclaimed(cs, ctrls + {c.ctrl}, uavs + {c.uav}) == Compatible(Unclaimed(cs, ctrls, uavs), c)
  {
    if cs != [] {
      ClaimOne(cs[1..], c, ctrls, uavs);
      var u := Unclaimed(cs[1..], ctrls, uavs);
      assert ([cs[0]] + u)[1..] == u;
    }
  }

  /** The pass with claimed sets is the recursive greedy assignment. */
  lemma {:induction false} PassIsGreedy(cs: seq<Candidate>, ctrls: set<string>, uavs: set<string>)
    ensures Pass(cs, ctrls, uavs) == Greedy(Unclaimed(cs, ctrls, uavs))
  {
    if cs != [] {
      var rest := Unclaimed(cs[1..], ctrls, uavs);
      if Claimed(cs[0], ctrls, uavs) {
        PassIsGreedy(cs[1..], ctrls, uavs);
      } else {
        PassIsGreedy(cs[1..], ctrls + {cs[0].ctrl}, uavs + {cs[0].uav});
        ClaimOne(cs[1..], cs[0], ctrls, uavs);
        assert ([cs[0]] + rest)[1..] == rest;
      }
    }
  }

  lemma {:induction false} NothingClaimed(cs: seq<Candidate>)
    ensures Unclaimed(cs, {}, {}) == cs
  {
    if cs != [] { NothingClaimed(cs[1..]); }
  }

  // ---------------------------------------------------------------- the assignment is a stable matching

  lemma {:induction false} GreedyIsMatching(cs: seq<Candidate>)
    ensures IsMatching(Greedy(cs))
    decreases |cs|
  {
    if cs != [] {
      var rest := Compatible(cs[1..], cs[0]);
      GreedyIsMatching(rest);
      var g, tail := Greedy(cs), Greedy(rest);
      forall i, j | 0 <= i < j < |g| ensures !Conflict(g[i], g[j]) {
        assert g[j] == tail[j - 1] && tail[j - 1] in rest;
        if i > 0 { assert g[i] == tail[i - 1]; }
      }
    }
  }

  lemma {:induction false} CompatibleDescending(cs: seq<Candidate>, c: Candidate)
    requires Descending(cs)
    ensures Descending(Compatible(cs, c))
  {
    if cs != [] {
      CompatibleDescending(cs[1..], c);
      var rest := Compatible(cs[1..], c);
      forall x | x in rest ensures cs[0].score >= x.score {
        var k :| 0 <= k < |cs[1..]| && cs[1..][k] == x;
        assert cs[0].score >= cs[k + 1].score;
      }
    }
  }

  /** No blocking pair: a candidate left out clashes with a chosen one of at least its score. */
  lemma {:induction false} NoBlockingPair(cs: seq<Candidate>, c: Candidate)
    requires Descending(cs) && c in cs
    ensures exists g :: g in Greedy(cs) && Conflict(g, c) && g.score >= c.score
    decreases |cs|
  {
    var rest := Compatible(cs[1..], cs[0]);
    if Conflict(cs[0], c) {
      var k :| 0 <= k < |cs| && cs[k] == c;
      assert cs[0].score >= cs[k].score;
      assert cs[0] in Greedy(cs);
    } else {
      assert c in cs[1..];
      CompatibleDescending(cs[1..], cs[0]);
      NoBlockingPair(rest, c);
      var g :| g in Greedy(rest) && Conflict(g, c) && g.score >= c.score;
      assert g in Greedy(cs);
    }
  }

  // ---------------------------------------------------------------- half of the best possible

  lemma {:induction false} SplitTotal(m: seq<Candidate>, c: Candidate)
    ensures Total(m) == Total(Compatible(m, c)) + Total(Clashing(m, c))
  {
    if m != [] {
      SplitTotal(m[1..], c);
      var x, y := Compatible(m[1..], c), Clashing(m[1..], c);
      assert ([m[0]] + x)[1..] == x && ([m[0]] + y)[1..] == y;
    }
  }

  lemma {:induction false} SubMatchings(m: seq<Candidate>, c: Candidate)
    requires IsMatching(m)
    ensures IsMatching(Compatible(m, c)) && IsMatching(Clashing(m, c))
  {
    if m != [] {
      SubMatchings(m[1..], c);
      forall x | x in m[1..] ensures !Conflict(m[0], x) {
        var k :| 0 <= k < |m[1..]| && m[1..][k] == x;
        assert !Conflict(m[0], m[k + 1]);
      }
    }
  }

  /** At most two members of a matching can clash with one candidate: one per end. */
  lemma AtMostTwoClash(m: seq<Candidate>, c: Candidate)
    requires IsMatching(m) && forall x :: x in m ==> Conflict(x, c)
    ensures |m| <= 2
  {
    if |m| > 2 { ThreeClash(m, c); }
  }

  lemma ThreeClash(m: seq<Candidate>, c: Candidate)
    requires |m| > 2 && forall x :: x in m ==> Conflict(x, c)
    ensures !IsMatching(m)
  {
    assert m[0] in m && m[1] in m && m[2] in m;
    assert Conflict(m[0], m[1]) || Conflict(m[0], m[2]) || Conflict(m[1], m[2]);
  }

  lemma TotalOfTwo(m: seq<Candidate>, bound: real)
    requires |m| <= 2 && bound >= 0.0 && forall x :: x in m ==> x.score <= bound
    ensures Total(m) <= 2.0 * bound
  {
    if |m| == 1 {
      assert Total(m[1..]) == 0.0;
      assert m[0] in m;
    } else if |m| == 2 {
      assert Total(m[1..][1..]) == 0.0;
      assert m[0] in m && m[1] in m;
    }
  }

  /** The greedy assignment is worth at least half of any other one-to-one assignment. */
  lemma {:induction false} GreedyIsHalfOptimal(cs: seq<Candidate>, m: seq<Candidate>)
    requires Descending(cs) && (forall c :: c in cs ==> c.score >= 0.0)
    requires IsMatching(m) && forall c :: c in m ==> c in cs
    ensures Total(m) <= 2.0 * Total(Greedy(cs))
    decreases |cs|
  {
    if cs == [] {
      assert forall i :: 0 <= i < |m| ==> m[i] in m;
    } else {
      var c := cs[0];
      var rest := Compatible(cs[1..], c);
      var kept, gone := Compatible(m, c), Clashing(m, c);
      SplitTotal(m, c);
      SubMatchings(m, c);
      AtMostTwoClash(gone, c);
      forall x | x in gone ensures x.score <= c.score {
        var k :| 0 <= k < |cs| && cs[k] == x;
      }
      TotalOfTwo(gone, c.score);
      CompatibleDescending(cs[1..], c);
      forall x | x in kept ensures x in rest {
        assert x in cs && x != c;
      }
      GreedyIsHalfOptimal(rest, kept);
      assert Greedy(cs)[1..] == Greedy(rest);
    }
  }
}
