/**
 The controller-to-UAV correlator: score every active pair, sort, assign greedily one to
 one, and reconcile the persistent link table with the assignment.
 */
module ControllerLink {
  import opened RealMath
  import opened Matching

  const ACTIVE_WINDOW_SEC := 60.0
  const MIN_SCORE := 0.4

  /** The fields of a tracked object that correlation looks at. Times are in seconds. */
  datatype Drone = Drone(id: string, manufacturer: string, tapId: string, isController: bool, lost: bool,
                         lastSeen: real, hasPosition: bool, hasOperator: bool, distanceEstM: real)

  datatype Link = Link(uav: string, confidence: real, lastUpdated: real, how: string)

  type Links = map<string, Link>

  /** Distance from a controller's position to a UAV's reported operator position. */
  type Distance = (Drone, Drone) -> real

  predicate IsActive(d: Drone, now: real) {
    !d.lost && now - d.lastSeen <= ACTIVE_WINDOW_SEC
  }

  function Active(all: seq<Drone>, now: real, controllers: bool): (r: seq<Drone>)
    ensures forall d :: d in r <==> d in all && IsActive(d, now) && d.isController == controllers
  {
    if all == [] then []
    else
      var d := all[|all| - 1];
      Active(all[..|all| - 1], now, controllers)
      + (if IsActive(d, now) && d.isController == controllers then [d] else [])
  }

  // ---------------------------------------------------------------- scoring

  predicate SameMaker(ctrl: Drone, uav: Drone) {
    ctrl.manufacturer == uav.manufacturer && ctrl.manufacturer != ""
  }

  predicate SameTap(ctrl: Drone, uav: Drone) {
    ctrl.tapId == uav.tapId && ctrl.tapId != ""
  }

  predicate SeenTogether(ctrl: Drone, uav: Drone, now: real) {
    now - ctrl.lastSeen < 30.0 && now - uav.lastSeen < 30.0
  }

  predicate NearOperator(ctrl: Drone, uav: Drone, dist: Distance, within: real) {
    uav.hasOperator && ctrl.hasPosition && dist(ctrl, uav) < within
  }

  /** Correlation score and the evidence it rests on. */
  function ScoreLink(ctrl: Drone, uav: Drone, now: real, dist: Distance): (real, string) {
    if !SameMaker(ctrl, uav) then (0.0, "")
    else
      var (s1, h1) := if SameTap(ctrl, uav) then (0.25 + 0.20, "manufacturer+tap") else (0.25, "manufacturer");
      var (s2, h2) := if SeenTogether(ctrl, uav, now) then (s1 + 0.15, h1 + "+temporal") else (s1, h1);
      if !uav.hasOperator then (s2, h2)
      else if ctrl.hasPosition then
        var d := dist(ctrl, uav);
        if d < 500.0 then (s2 + 0.30, h2 + "+operator_proximity")
        else if d < 2000.0 then (s2 + 0.10, h2 + "+operator_nearby")
        else (s2, h2)
      else if ctrl.distanceEstM > 0.0 then (s2 + 0.10, h2 + "+operator_exists")
      else (s2, h2)
  }

  /** A pair reaches the threshold exactly when it has one strong piece of evidence beside the maker. */
  lemma CandidateIff(ctrl: Drone, uav: Drone, now: real, dist: Distance)
    ensures ScoreLink(ctrl, uav, now, dist).0 >= MIN_SCORE
       <==> SameMaker(ctrl, uav) &&
            (SameTap(ctrl, uav) || SeenTogether(ctrl, uav, now) || NearOperator(ctrl, uav, dist, 500.0))
    ensures 0.0 <= ScoreLink(ctrl, uav, now, dist).0 <= 0.9
  {
  }

  /** A score is the sum of its evidence, and nothing counts without a common maker. */
  lemma ScoreIsEvidence(ctrl: Drone, uav: Drone, now: real, dist: Distance)
    ensures ctrl.manufacturer != uav.manufacturer || ctrl.manufacturer == "" ==>
              ScoreLink(ctrl, uav, now, dist).0 == 0.0
    ensures ctrl.manufacturer == uav.manufacturer && ctrl.manufacturer != "" ==>
              var d, placed := dist(ctrl, uav), uav.hasOperator && ctrl.hasPosition;
              ScoreLink(ctrl, uav, now, dist).0
              == 0.25 + When(ctrl.tapId == uav.tapId && ctrl.tapId != "", 0.20)
                 + When(ctrl.lastSeen > now - 30.0 && uav.lastSeen > now - 30.0, 0.15)
                 + When(placed && d < 500.0, 0.30) + When(placed && 500.0 <= d < 2000.0, 0.10)
                 + When(uav.hasOperator && !ctrl.hasPosition && ctrl.distanceEstM > 0.0, 0.10)
  {
  }

  /** The length of the evidence names tells them apart: no two sums of them agree. */
  lemma EvidenceLength(ctrl: Drone, uav: Drone, now: real, dist: Distance)
    requires SameMaker(ctrl, uav)
    ensures var s1, l1 := if SameTap(ctrl, uav) then 0.45 else 0.25, if SameTap(ctrl, uav) then 16 else 12;
            var together := SeenTogether(ctrl, uav, now);
            var s2, l2 := s1 + When(together, 0.15), l1 + (if together then 9 else 0);
            var (score, how) := ScoreLink(ctrl, uav, now, dist);
            || (score == s2 && |how| == l2) || (score == s2 + 0.30 && |how| == l2 + 19)
            || (score == s2 + 0.10 && |how| == l2 + 16)
  {
  }

  /** The evidence a link names tells its score: two pairs with the same evidence have the same score. */
  lemma EvidenceTellsScore(c: Drone, u: Drone, now: real, dist: Distance,
                           c': Drone, u': Drone, now': real, dist': Distance)
    requires ScoreLink(c, u, now, dist).1 == ScoreLink(c', u', now', dist').1
    ensures ScoreLink(c, u, now, dist).0 == ScoreLink(c', u', now', dist').0
  {
    if SameMaker(c, u) { EvidenceLength(c, u, now, dist); }
    if SameMaker(c', u') { EvidenceLength(c', u', now', dist'); }
    hide ScoreLink;
  }

  /** The pairs of one controller that reach the threshold, in UAV order. */
  function PairsOf(ctrl: Drone, uavs: seq<Drone>, now: real, dist: Distance): (r: seq<Candidate>)
    ensures forall c :: c in r ==> c.ctrl == ctrl.id && c.uav in Ids(uavs) && c.score >= MIN_SCORE
  {
    if uavs == [] then []
    else
      var u := uavs[|uavs| - 1];
      var (score, how) := ScoreLink(ctrl, u, now, dist);
      PairsOf(ctrl, uavs[..|uavs| - 1], now, dist)
      + (if score >= MIN_SCORE then [Candidate(ctrl.id, u.id, score, how)] else [])
  }

  function Pairs(ctrls: seq<Drone>, uavs: seq<Drone>, now: real, dist: Distance): (r: seq<Candidate>)
    ensures forall c :: c in r ==> c.ctrl in Ids(ctrls) && c.uav in Ids(uavs) && c.score >= MIN_SCORE
  {
    if ctrls == [] then []
    else Pairs(ctrls[..|ctrls| - 1], uavs, now, dist) + PairsOf(ctrls[|ctrls| - 1], uavs, now, dist)
  }

  function Ids(ds: seq<Drone>): set<string> {
    set d | d in ds :: d.id
  }

  // ---------------------------------------------------------------- sorting

  ghost predicate Settled(s: seq<Candidate>, i: int) {
    forall p, q :: 0 <= p < i && p <= q < |s| ==> s[p].score >= s[q].score
  }

  /** Exchange sort, best score first. */
  method SortByScore(a: array<Candidate>)
    modifies a
    ensures Descending(a[..])
    ensures multiset(a[..]) == multiset(old(a[..]))
  {
    var i := 0;
    while i < a.Length - 1
      invariant 0 <= i <= a.Length
      invariant Settled(a[..], i)
      invariant multiset(a[..]) == multiset(old(a[..]))
    {
      var j := i + 1;
      while j < a.Length
        invariant i < j <= a.Length
        invariant Settled(a[..], i)
        invariant forall q :: i <= q < j ==> a[i].score >= a[q].score
        invariant multiset(a[..]) == multiset(old(a[..]))
      {
        if a[j].score > a[i].score {
          a[i], a[j] := a[j], a[i];
        }
        j := j + 1;
      }
      i := i + 1;
    }
  }

  // ---------------------------------------------------------------- the link table

  /** The entry that a chosen pair leaves: a same-pair link keeps a higher confidence. */
  function Refreshed(links: Links, c: Candidate, now: real): Link {
    if c.ctrl in links && links[c.ctrl].uav == c.uav && c.score <= links[c.ctrl].confidence
    then links[c.ctrl].(lastUpdated := now)
    else Link(c.uav, c.score, now, c.how)
  }

  ghost predicate Chosen(m: seq<Candidate>, ctrl: string) {
    exists c :: c in m && c.ctrl == ctrl
  }

  /** Active controllers hold exactly their match; every other entry is as before. */
  ghost predicate Reconciled(before: Links, after: Links, active: set<string>, m: seq<Candidate>, now: real) {
    && (forall k :: k in after <==> Chosen(m, k) || (k in before && k !in active))
    && (forall c :: c in m ==> c.ctrl in after && after[c.ctrl] == Refreshed(before, c, now))
    && (forall k :: k in before && k !in active ==> k in after && after[k] == before[k])
  }

  /** The table after the chosen pairs are written and before unmatched controllers are cleared. */
  ghost predicate Written(before: Links, after: Links, m: seq<Candidate>, now: real) {
    && (forall k :: k in after <==> Chosen(m, k) || k in before)
    && (forall c :: c in m ==> c.ctrl in after && after[c.ctrl] == Refreshed(before, c, now))
    && (forall k :: k in before && !Chosen(m, k) ==> k in after && after[k] == before[k])
  }

  ghost predicate DistinctIds(all: seq<Drone>) {
    forall i, j :: 0 <= i < j < |all| ==> all[i].id != all[j].id
  }

  /** One round over a snapshot: the table is reconciled with the greedy pass over some ranking of the pairs. */
  ghost predicate IsRound(before: Links, after: Links, all: seq<Drone>, now: real, dist: Distance,
                          ranked: seq<Candidate>) {
    var ctrls, uavs := Active(all, now, true), Active(all, now, false);
    if ctrls == [] || uavs == [] then after == before
    else
      && Descending(ranked) && multiset(ranked) == multiset(Pairs(ctrls, uavs, now, dist))
      && Reconciled(before, after, Ids(ctrls), Greedy(ranked), now)
  }

  class ControllerCorrelator {
    var links: Links

    constructor ()
      ensures links == map[]
    {
      links := map[];
    }

    /** One correlation round over a snapshot of all drones. */
    method Correlate(all: seq<Drone>, now: real, dist: Distance) returns (ghost ranked: seq<Candidate>)
      requires DistinctIds(all)
      modifies this
      ensures IsRound(old(links), links, all, now, dist, ranked)
    {
      ranked := [];
      var ctrls, uavs := Separate(all, now);
      if ctrls == [] || uavs == [] { return; }

      var cands := ScorePairs(ctrls, uavs, now, dist);
      var a := new Candidate[|cands|](i requires 0 <= i < |cands| => cands[i]);
      assert a[..] == cands;
      SortByScore(a);
      ranked := a[..];
      SameMembers(ranked, cands);
      var claimed := Assign(a[..], now);
      ClearUnmatched(ctrls, claimed, old(links), Greedy(ranked), now);
    }

    /** The active controllers and the active UAVs. */
    method Separate(all: seq<Drone>, now: real) returns (ctrls: seq<Drone>, uavs: seq<Drone>)
      ensures ctrls == Active(all, now, true) && uavs == Active(all, now, false)
    {
      ctrls, uavs := [], [];
      for i := 0 to |all|
        invariant ctrls == Active(all[..i], now, true) && uavs == Active(all[..i], now, false)
      {
        assert all[..i + 1][..i] == all[..i];
        if IsActive(all[i], now) {
          if all[i].isController {
            ctrls := ctrls + [all[i]];
          } else {
            uavs := uavs + [all[i]];
          }
        }
      }
      assert all[..|all|] == all;
    }

    /** Scores every controller against every UAV and keeps the pairs at or above the threshold. */
    method ScorePairs(ctrls: seq<Drone>, uavs: seq<Drone>, now: real, dist: Distance) returns (cands: seq<Candidate>)
      ensures cands == Pairs(ctrls, uavs, now, dist)
    {
      cands := [];
      for i := 0 to |ctrls|
        invariant cands == Pairs(ctrls[..i], uavs, now, dist)
      {
        ghost var start := cands;
        for j := 0 to |uavs|
          invariant cands == start + PairsOf(ctrls[i], uavs[..j], now, dist)
        {
          assert uavs[..j + 1][..j] == uavs[..j];
          var (score, how) := ScoreLink(ctrls[i], uavs[j], now, dist);
          if score >= MIN_SCORE {
            cands := cands + [Candidate(ctrls[i].id, uavs[j].id, score, how)];
          }
        }
        assert uavs[..|uavs|] == uavs && ctrls[..i + 1][..i] == ctrls[..i];
      }
      assert ctrls[..|ctrls|] == ctrls;
    }

    /** The greedy pass: claims both ends of each free pair and writes its link. */
    method Assign(cands: seq<Candidate>, now: real) returns (claimedCtrls: set<string>)
      modifies this
      ensures Written(old(links), links, Greedy(cands), now)
      ensures claimedCtrls == set c | c in Greedy(cands) :: c.ctrl
    {
      claimedCtrls := {};
      var claimedUavs: set<string> := {};
      ghost var picked: seq<Candidate> := [];
      for i := 0 to |cands|
        invariant picked + Pass(cands[i..], claimedCtrls, claimedUavs) == Pass(cands, {}, {})
        invariant claimedCtrls == set c | c in picked :: c.ctrl
        invariant Written(old(links), links, picked, now)
      {
        var c := cands[i];
        assert cands[i..][1..] == cands[i + 1..];
        if Claimed(c, claimedCtrls, claimedUavs) {
          continue;
        }
        claimedUavs := claimedUavs + {c.uav};
        claimedCtrls := claimedCtrls + {c.ctrl};
        WriteOne(old(links), links, picked, c, now);
        if c.ctrl in links && links[c.ctrl].uav == c.uav && c.score <= links[c.ctrl].confidence {
          links := links[c.ctrl := links[c.ctrl].(lastUpdated := now)];
        } else {
          links := links[c.ctrl := Link(c.uav, c.score, now, c.how)];
        }
        picked := picked + [c];
      }
      PassIsGreedy(cands, {}, {});
      NothingClaimed(cands);
      assert picked == Greedy(cands);
    }

    /** Drops the links of active controllers that the pass left without a partner. */
    method ClearUnmatched(ctrls: seq<Drone>, claimed: set<string>, ghost before: Links,
                          ghost m: seq<Candidate>, ghost now: real)
      requires claimed == set c | c in m :: c.ctrl
      requires Written(before, links, m, now) && forall c :: c in m ==> c.ctrl in Ids(ctrls)
      modifies this
      ensures Reconciled(before, links, Ids(ctrls), m, now)
    {
      hide Written;
      hide Reconciled;
      for i := 0 to |ctrls|
        invariant links == old(links) - (Ids(ctrls[..i]) - claimed)
      {
        assert Ids(ctrls[..i + 1]) == Ids(ctrls[..i]) + {ctrls[i].id};
        if ctrls[i].id !in claimed && ctrls[i].id in links {
          links := links - {ctrls[i].id};
        }
      }
      assert ctrls[..|ctrls|] == ctrls;
      ClearingReconciles(before, old(links), Ids(ctrls), claimed, m, now);
    }
  }

  /** Written links without those of unmatched active controllers. */
  lemma ClearingReconciles(before: Links, links: Links, active: set<string>, claimed: set<string>, m: seq<Candidate>,
                           now: real)
    requires claimed == set c | c in m :: c.ctrl
    requires Written(before, links, m, now) && forall c :: c in m ==> c.ctrl in active
    ensures Reconciled(before, links - (active - claimed), active, m, now)
  {
    assert forall k :: Chosen(m, k) <==> k in claimed;
  }

  lemma SameMembers(s: seq<Candidate>, t: seq<Candidate>)
    requires multiset(s) == multiset(t)
    ensures forall c :: c in s <==> c in t
  {
    forall c ensures c in s <==> c in t {
      assert c in s <==> c in multiset(s);
      assert c in t <==> c in multiset(t);
    }
  }

  /** Writing one more chosen pair: the entry it sees is still the one from before the round. */
  lemma WriteOne(before: Links, links: Links, picked: seq<Candidate>, c: Candidate, now: real)
    requires Written(before, links, picked, now) && !Chosen(picked, c.ctrl)
    ensures Written(before, links[c.ctrl := Refreshed(links, c, now)], picked + [c], now)
  {
  }

  // ---------------------------------------------------------------- what a round guarantees

  /** The assignment of a round is stable and worth at least half of any other one-to-one assignment. */
  lemma RoundAssignment(ctrls: seq<Drone>, uavs: seq<Drone>, now: real, dist: Distance,
                        ranked: seq<Candidate>, other: seq<Candidate>)
    requires Descending(ranked) && multiset(ranked) == multiset(Pairs(ctrls, uavs, now, dist))
    requires IsMatching(other) && forall c :: c in other ==> c in Pairs(ctrls, uavs, now, dist)
    ensures IsMatching(Greedy(ranked))
    ensures Total(other) <= 2.0 * Total(Greedy(ranked))
    ensures forall c :: c in Pairs(ctrls, uavs, now, dist) ==>
              exists g :: g in Greedy(ranked) && Conflict(g, c) && g.score >= c.score
  {
    var pairs := Pairs(ctrls, uavs, now, dist);
    forall c ensures c in ranked <==> c in pairs {
      assert c in ranked <==> c in multiset(ranked);
      assert c in pairs <==> c in multiset(pairs);
    }
    GreedyIsMatching(ranked);
    GreedyIsHalfOptimal(ranked, other);
    forall c | c in pairs ensures exists g :: g in Greedy(ranked) && Conflict(g, c) && g.score >= c.score {
      NoBlockingPair(ranked, c);
    }
  }

  /** One round, whatever drones were active. */
  ghost predicate Round(before: Links, after: Links) {
    before == after || exists active, m, now :: Reconciled(before, after, active, m, now)
  }

  /** Over any run of rounds, a pair that stays linked never loses confidence. */
  lemma {:induction false} ConfidenceNeverFalls(tables: seq<Links>, ctrl: string, uav: string)
    requires |tables| > 0 && forall i :: 0 <= i < |tables| - 1 ==> Round(tables[i], tables[i + 1])
    requires forall i :: 0 <= i < |tables| ==> ctrl in tables[i] && tables[i][ctrl].uav == uav
    ensures tables[0][ctrl].confidence <= tables[|tables| - 1][ctrl].confidence
  {
    var n := |tables| - 1;
    if n > 0 {
      ConfidenceNeverFalls(tables[..n], ctrl, uav);
      var before, after := tables[n - 1], tables[n];
      assert Round(tables[n - 1], tables[n - 1 + 1]);
      if before != after {
        var active: set<string>, m: seq<Candidate>, now: real :| Reconciled(before, after, active, m, now);
        if Chosen(m, ctrl) {
          var c :| c in m && c.ctrl == ctrl;
          assert after[c.ctrl] == Refreshed(before, c, now);
        }
      }
    }
  }
}
