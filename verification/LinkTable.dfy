/**
 What rounds of the correlator do to the whole link table: when it stays one to one, how it
 fails to, and that the greedy assignment can be worth exactly half of the best one.
 */
module LinkTable {
  import opened Matching
  import opened ControllerLink

  ghost predicate OneToOne(links: Links) {
    forall k, l :: k in links && l in links && k != l ==> links[k].uav != links[l].uav
  }

  ghost predicate OneToOneOutside(links: Links, ctrls: set<string>) {
    forall k, l :: k in links && l in links && k !in ctrls && l !in ctrls && k != l ==> links[k].uav != links[l].uav
  }

  /** No link of a controller that is not active names an active UAV. */
  ghost predicate NoStaleLink(links: Links, ctrls: set<string>, uavs: set<string>) {
    forall k :: k in links && k !in ctrls ==> links[k].uav !in uavs
  }

  // ---------------------------------------------------------------- the pairs of a snapshot

  function Scored(ctrl: Drone, uav: Drone, now: real, dist: Distance): Candidate {
    var (score, how) := ScoreLink(ctrl, uav, now, dist);
    Candidate(ctrl.id, uav.id, score, how)
  }

  ghost predicate ScoredWith(c: Candidate, ctrl: Drone, uavs: seq<Drone>, now: real, dist: Distance) {
    exists uav :: uav in uavs && c == Scored(ctrl, uav, now, dist)
  }

  /** c is the scored pair of two drones of the lists. */
  ghost predicate ScoredIn(c: Candidate, ctrls: seq<Drone>, uavs: seq<Drone>, now: real, dist: Distance) {
    exists ctrl :: ctrl in ctrls && ScoredWith(c, ctrl, uavs, now, dist)
  }

  lemma ScoredWithSnoc(c: Candidate, ctrl: Drone, uavs: seq<Drone>, now: real, dist: Distance)
    requires uavs != []
    ensures var n := |uavs| - 1;
            ScoredWith(c, ctrl, uavs, now, dist)
            <==> ScoredWith(c, ctrl, uavs[..n], now, dist) || c == Scored(ctrl, uavs[n], now, dist)
  {
    hide Scored;
    var n := |uavs| - 1;
    if ScoredWith(c, ctrl, uavs, now, dist) {
      var uav :| uav in uavs && c == Scored(ctrl, uav, now, dist);
      assert uav in uavs[..n] || uav == uavs[n];
    }
    if ScoredWith(c, ctrl, uavs[..n], now, dist) {
      var uav :| uav in uavs[..n] && c == Scored(ctrl, uav, now, dist);
      assert uav in uavs;
    }
    assert uavs[n] in uavs;
  }

  lemma ScoredInSnoc(c: Candidate, ctrls: seq<Drone>, uavs: seq<Drone>, now: real, dist: Distance)
    requires ctrls != []
    ensures var n := |ctrls| - 1;
            ScoredIn(c, ctrls, uavs, now, dist)
            <==> ScoredIn(c, ctrls[..n], uavs, now, dist) || ScoredWith(c, ctrls[n], uavs, now, dist)
  {
    hide ScoredWith;
    var n := |ctrls| - 1;
    if ScoredIn(c, ctrls, uavs, now, dist) {
      var ctrl :| ctrl in ctrls && ScoredWith(c, ctrl, uavs, now, dist);
      assert ctrl in ctrls[..n] || ctrl == ctrls[n];
    }
    if ScoredIn(c, ctrls[..n], uavs, now, dist) {
      var ctrl :| ctrl in ctrls[..n] && ScoredWith(c, ctrl, uavs, now, dist);
      assert ctrl in ctrls;
    }
    assert ctrls[n] in ctrls;
  }

  lemma {:induction false} PairsOfIff(ctrl: Drone, uavs: seq<Drone>, now: real, dist: Distance, c: Candidate)
    ensures c in PairsOf(ctrl, uavs, now, dist) <==> c.score >= MIN_SCORE && ScoredWith(c, ctrl, uavs, now, dist)
  {
    if uavs != [] {
      hide ScoreLink;
      hide ScoredWith;
      PairsOfIff(ctrl, uavs[..|uavs| - 1], now, dist, c);
      ScoredWithSnoc(c, ctrl, uavs, now, dist);
    }
  }

  /** The pairs of two lists are their scored pairs at or above the threshold. */
  lemma {:induction false} PairsIff(ctrls: seq<Drone>, uavs: seq<Drone>, now: real, dist: Distance, c: Candidate)
    ensures c in Pairs(ctrls, uavs, now, dist) <==> c.score >= MIN_SCORE && ScoredIn(c, ctrls, uavs, now, dist)
  {
    if ctrls != [] {
      hide ScoredWith;
      hide ScoredIn;
      hide PairsOf;
      var n := |ctrls| - 1;
      PairsIff(ctrls[..n], uavs, now, dist, c);
      PairsOfIff(ctrls[n], uavs, now, dist, c);
      ScoredInSnoc(c, ctrls, uavs, now, dist);
    }
  }

  // ---------------------------------------------------------------- when the table stays one to one

  lemma AssignedAreActive(before: Links, after: Links, all: seq<Drone>, now: real, dist: Distance,
                          ranked: seq<Candidate>)
    requires IsRound(before, after, all, now, dist, ranked)
    requires Active(all, now, true) != [] && Active(all, now, false) != []
    ensures IsMatching(Greedy(ranked))
    ensures forall c :: c in Greedy(ranked) ==>
              c.ctrl in Ids(Active(all, now, true)) && c.uav in Ids(Active(all, now, false))
  {
    SameMembers(ranked, Pairs(Active(all, now, true), Active(all, now, false), now, dist));
    GreedyIsMatching(ranked);
  }

  /** Two controllers of one assignment have different UAVs. */
  lemma MatchedApart(m: seq<Candidate>, x: Candidate, y: Candidate)
    requires IsMatching(m) && x in m && y in m && x.ctrl != y.ctrl
    ensures x.uav != y.uav
  {
    var i :| 0 <= i < |m| && m[i] == x;
    var j :| 0 <= j < |m| && m[j] == y;
  }

  lemma ReconciledApart(before: Links, after: Links, ctrls: set<string>, uavs: set<string>, m: seq<Candidate>,
                        now: real)
    requires Reconciled(before, after, ctrls, m, now) && IsMatching(m)
    requires forall c :: c in m ==> c.ctrl in ctrls && c.uav in uavs
    requires OneToOneOutside(before, ctrls) && NoStaleLink(before, ctrls, uavs)
    ensures OneToOne(after)
  {
    forall k, l | k in after && l in after && k != l ensures after[k].uav != after[l].uav {
      if Chosen(m, k) {
        var c :| c in m && c.ctrl == k;
        if Chosen(m, l) {
          var d :| d in m && d.ctrl == l;
          MatchedApart(m, c, d);
        }
      } else if Chosen(m, l) {
        var d :| d in m && d.ctrl == l;
      }
    }
  }

  /** A round keeps the table one to one when its stale links are, and none of them names an active UAV. */
  lemma RoundKeepsOneToOne(before: Links, after: Links, all: seq<Drone>, now: real, dist: Distance,
                           ranked: seq<Candidate>)
    requires IsRound(before, after, all, now, dist, ranked)
    requires Active(all, now, true) != [] && Active(all, now, false) != []
    requires OneToOneOutside(before, Ids(Active(all, now, true)))
    requires NoStaleLink(before, Ids(Active(all, now, true)), Ids(Active(all, now, false)))
    ensures OneToOne(after)
  {
    AssignedAreActive(before, after, all, now, dist, ranked);
    ReconciledApart(before, after, Ids(Active(all, now, true)), Ids(Active(all, now, false)), Greedy(ranked), now);
  }

  // ---------------------------------------------------------------- and when it need not

  /** The same drone, made by the one maker if it is one of the two, by nobody otherwise. */
  function Disguised(d: Drone, c: string, u: string): Drone {
    d.(manufacturer := if d.id == c || d.id == u then "maker" else "", tapId := "tap")
  }

  function Recast(all: seq<Drone>, c: string, u: string): (r: seq<Drone>)
    ensures |r| == |all| && forall i :: 0 <= i < |all| ==> r[i] == Disguised(all[i], c, u)
  {
    if all == [] then [] else Recast(all[..|all| - 1], c, u) + [Disguised(all[|all| - 1], c, u)]
  }

  lemma DisguisedActive(d: Drone, c: string, u: string, now: real)
    ensures IsActive(Disguised(d, c, u), now) == IsActive(d, now) && Disguised(d, c, u).isController == d.isController
  {
  }

  lemma {:induction false} RecastActive(all: seq<Drone>, c: string, u: string, now: real, controllers: bool)
    ensures Active(Recast(all, c, u), now, controllers) == Recast(Active(all, now, controllers), c, u)
  {
    hide Disguised;
    if all != [] {
      var n := |all| - 1;
      RecastActive(all[..n], c, u, now, controllers);
      DisguisedActive(all[n], c, u, now);
      assert Recast(all, c, u)[..n] == Recast(all[..n], c, u);
      var d, before := all[n], Active(all[..n], now, controllers);
      if IsActive(d, now) && d.isController == controllers {
        assert (before + [d])[..|before|] == before;
      } else {
        assert before + [] == before;
        assert Recast(before, c, u) + [] == Recast(before, c, u);
      }
    }
  }

  lemma RecastIds(ds: seq<Drone>, c: string, u: string)
    ensures Ids(Recast(ds, c, u)) == Ids(ds)
  {
    var r := Recast(ds, c, u);
    forall id ensures id in Ids(r) <==> id in Ids(ds) {
      if id in Ids(r) {
        var i :| 0 <= i < |r| && r[i].id == id;
        assert ds[i] in ds;
      }
      if id in Ids(ds) {
        var i :| 0 <= i < |ds| && ds[i].id == id;
        assert r[i] in r;
      }
    }
  }

  /** Of the active drones only the two chosen ones share a maker, and they share a tap. */
  lemma OnlyMakers(all: seq<Drone>, now: real, dist: Distance, dc: Drone, du: Drone, x: Drone, y: Drone)
    requires DistinctIds(all)
    requires dc in Active(all, now, true) && du in Active(all, now, false)
    requires x in Active(all, now, true) && y in Active(all, now, false)
    ensures Scored(Disguised(x, dc.id, du.id), Disguised(y, dc.id, du.id), now, dist).score >= MIN_SCORE
       <==> x == dc && y == du
  {
    hide Active;
    hide ScoreLink;
    CandidateIff(Disguised(x, dc.id, du.id), Disguised(y, dc.id, du.id), now, dist);
    SameDrone(all, x, dc);
    SameDrone(all, x, du);
    SameDrone(all, y, du);
    SameDrone(all, y, dc);
  }

  /** A scored pair of recast lists comes from two of their drones. */
  lemma RecastPair(ctrls: seq<Drone>, uavs: seq<Drone>, c: string, u: string, now: real, dist: Distance, x: Candidate)
    returns (p: Drone, q: Drone)
    requires ScoredIn(x, Recast(ctrls, c, u), Recast(uavs, c, u), now, dist)
    ensures p in ctrls && q in uavs && x == Scored(Disguised(p, c, u), Disguised(q, c, u), now, dist)
  {
    hide Scored;
    hide Disguised;
    var rc :| rc in Recast(ctrls, c, u) && ScoredWith(x, rc, Recast(uavs, c, u), now, dist);
    var ru :| ru in Recast(uavs, c, u) && x == Scored(rc, ru, now, dist);
    var i :| 0 <= i < |ctrls| && rc == Recast(ctrls, c, u)[i];
    var j :| 0 <= j < |uavs| && ru == Recast(uavs, c, u)[j];
    p, q := ctrls[i], uavs[j];
  }

  /** The two chosen drones are a pair, and no other two are. */
  lemma OnlyPair(all: seq<Drone>, now: real, dist: Distance, dc: Drone, du: Drone, x: Candidate)
    requires DistinctIds(all)
    requires dc in Active(all, now, true) && du in Active(all, now, false)
    ensures var r := Recast(all, dc.id, du.id);
            x in Pairs(Active(r, now, true), Active(r, now, false), now, dist)
            <==> x == Scored(Disguised(dc, dc.id, du.id), Disguised(du, dc.id, du.id), now, dist)
  {
    hide *;
    var c, u := dc.id, du.id;
    var ctrls, uavs := Active(all, now, true), Active(all, now, false);
    var rc, ru := Disguised(dc, c, u), Disguised(du, c, u);
    RecastActive(all, c, u, now, true);
    RecastActive(all, c, u, now, false);
    PairsIff(Recast(ctrls, c, u), Recast(uavs, c, u), now, dist, x);
    OnlyMakers(all, now, dist, dc, du, dc, du);
    ScoredInRecast(ctrls, uavs, c, u, now, dist, dc, du);
    if x.score >= MIN_SCORE && ScoredIn(x, Recast(ctrls, c, u), Recast(uavs, c, u), now, dist) {
      var p, q := RecastPair(ctrls, uavs, c, u, now, dist, x);
      OnlyMakers(all, now, dist, dc, du, p, q);
    }
  }

  lemma ScoredInRecast(ctrls: seq<Drone>, uavs: seq<Drone>, c: string, u: string, now: real, dist: Distance, p: Drone,
                       q: Drone)
    requires p in ctrls && q in uavs
    ensures ScoredIn(Scored(Disguised(p, c, u), Disguised(q, c, u), now, dist), Recast(ctrls, c, u),
                     Recast(uavs, c, u), now, dist)
  {
    hide Scored;
    hide Disguised;
    RecastHas(ctrls, c, u, p);
    RecastHas(uavs, c, u, q);
    assert ScoredWith(Scored(Disguised(p, c, u), Disguised(q, c, u), now, dist), Disguised(p, c, u),
                      Recast(uavs, c, u), now, dist);
  }

  lemma RecastHas(ds: seq<Drone>, c: string, u: string, d: Drone)
    requires d in ds
    ensures Disguised(d, c, u) in Recast(ds, c, u)
  {
    var i :| 0 <= i < |ds| && ds[i] == d;
    assert Recast(ds, c, u)[i] == Disguised(d, c, u);
  }

  lemma SameDrone(all: seq<Drone>, d: Drone, e: Drone)
    requires DistinctIds(all) && d in all && e in all
    ensures d.id == e.id ==> d == e
  {
    var i :| 0 <= i < |all| && all[i] == d;
    var j :| 0 <= j < |all| && all[j] == e;
  }

  /** Candidates that are all equal are ranked, and the assignment is that candidate. */
  lemma OneCandidate(cs: seq<Candidate>, x: Candidate)
    requires forall y :: y in cs <==> y == x
    ensures Descending(cs) && (forall y :: y in Greedy(cs) <==> y == x)
  {
    forall i, j | 0 <= i <= j < |cs| ensures cs[i].score >= cs[j].score {
      assert cs[i] in cs && cs[j] in cs;
    }
    assert x in cs;
    NoBlockingPair(cs, x);
  }

  /** The table after the one pair of a round. */
  lemma ReconcileOne(before: Links, ctrls: set<string>, m: seq<Candidate>, x: Candidate, now: real)
    requires x.ctrl in ctrls && forall y :: y in m <==> y == x
    ensures Reconciled(before, (before - ctrls)[x.ctrl := Refreshed(before, x, now)], ctrls, m, now)
  {
    assert x in m;
  }

  /** A round that assigns exactly one given active controller and UAV. */
  lemma SinglePairRound(before: Links, all: seq<Drone>, now: real, dist: Distance, dc: Drone, du: Drone)
    returns (after: Links, all': seq<Drone>, ranked: seq<Candidate>)
    requires DistinctIds(all) && dc in Active(all, now, true) && du in Active(all, now, false)
    ensures SameActive(all, all', now) && DistinctIds(all') && IsRound(before, after, all', now, dist, ranked)
    ensures dc.id in after && after[dc.id].uav == du.id
    ensures forall k :: k in before && k !in Ids(Active(all, now, true)) ==> k in after && after[k] == before[k]
  {
    hide Active;
    hide Pairs;
    hide Recast;
    hide ScoreLink;
    hide Reconciled;
    var c, u := dc.id, du.id;
    var ctrls, uavs := Active(all, now, true), Active(all, now, false);
    all' := Recast(all, c, u);
    RecastActive(all, c, u, now, true);
    RecastActive(all, c, u, now, false);
    RecastIds(ctrls, c, u);
    RecastIds(uavs, c, u);
    ranked := Pairs(Active(all', now, true), Active(all', now, false), now, dist);
    var x := Scored(Disguised(dc, c, u), Disguised(du, c, u), now, dist);
    forall y ensures y in ranked <==> y == x { OnlyPair(all, now, dist, dc, du, y); }
    OneCandidate(ranked, x);
    after := (before - Ids(ctrls))[c := Refreshed(before, x, now)];
    assert c in Ids(ctrls);
    ReconcileOne(before, Ids(ctrls), Greedy(ranked), x, now);
  }

  /** The same controllers and the same UAVs are active. */
  ghost predicate SameActive(all: seq<Drone>, other: seq<Drone>, now: real) {
    Ids(Active(other, now, true)) == Ids(Active(all, now, true))
        && Ids(Active(other, now, false)) == Ids(Active(all, now, false))
  }

  /** Whatever is known of the active drones, a round leaves the table one to one. */
  ghost predicate StaysOneToOne(before: Links, all: seq<Drone>, now: real, dist: Distance) {
    forall all', after, ranked ::
      SameActive(all, all', now) && DistinctIds(all') && IsRound(before, after, all', now, dist, ranked) ==>
        OneToOne(after)
  }

  lemma IdsNotEmpty(ds: seq<Drone>, es: seq<Drone>)
    requires Ids(ds) == Ids(es) && ds != []
    ensures es != []
  {
    assert ds[0].id in Ids(ds);
  }

  /**
   The assignment of a round is one to one, the whole table need not be: a link of a controller that
   is out of the active window survives. A round with given active drones surely keeps the table one
   to one if and only if those links are one to one and none of them names an active UAV.
   */
  lemma TableOneToOneIff(before: Links, all: seq<Drone>, now: real, dist: Distance)
    requires DistinctIds(all) && Active(all, now, true) != [] && Active(all, now, false) != []
    ensures StaysOneToOne(before, all, now, dist) <==>
            && OneToOneOutside(before, Ids(Active(all, now, true)))
            && NoStaleLink(before, Ids(Active(all, now, true)), Ids(Active(all, now, false)))
  {
    var ctrls, uavs := Active(all, now, true), Active(all, now, false);
    if OneToOneOutside(before, Ids(ctrls)) && NoStaleLink(before, Ids(ctrls), Ids(uavs)) {
      forall all', after, ranked
        | SameActive(all, all', now) && DistinctIds(all') && IsRound(before, after, all', now, dist, ranked)
        ensures OneToOne(after)
      {
        IdsNotEmpty(ctrls, Active(all', now, true));
        IdsNotEmpty(uavs, Active(all', now, false));
        RoundKeepsOneToOne(before, after, all', now, dist, ranked);
      }
    } else if !OneToOneOutside(before, Ids(ctrls)) {
      var after, all', ranked := SinglePairRound(before, all, now, dist, ctrls[0], uavs[0]);
      NotApart(before, after, Ids(ctrls));
    } else {
      var k :| k in before && k !in Ids(ctrls) && before[k].uav in Ids(uavs);
      var du :| du in uavs && du.id == before[k].uav;
      var after, all', ranked := SinglePairRound(before, all, now, dist, ctrls[0], du);
      assert ctrls[0].id in Ids(ctrls);
      assert k in after && ctrls[0].id in after && after[k].uav == after[ctrls[0].id].uav;
    }
  }

  lemma NotApart(before: Links, after: Links, ctrls: set<string>)
    requires !OneToOneOutside(before, ctrls)
    requires forall k :: k in before && k !in ctrls ==> k in after && after[k] == before[k]
    ensures !OneToOne(after)
  {
    var k, l :| k in before && l in before && k !in ctrls && l !in ctrls && k != l && before[k].uav == before[l].uav;
    assert k in after && l in after;
  }

  // ---------------------------------------------------------------- two rounds that break it

  lemma OnePair(x: Drone, y: Drone, now: real, dist: Distance)
    requires SameMaker(x, y) && SameTap(x, y)
    ensures Pairs([x], [y], now, dist) == [Scored(x, y, now, dist)]
  {
    hide ScoreLink;
    CandidateIff(x, y, now, dist);
    assert [x][..0] == [] && [y][..0] == [];
    assert PairsOf(x, [], now, dist) == [];
    assert PairsOf(x, [y], now, dist) == [Scored(x, y, now, dist)];
    assert Pairs([], [y], now, dist) == [];
  }

  /** A round with one active controller and one active UAV of the same maker on the same tap. */
  lemma RoundOfOne(before: Links, all: seq<Drone>, now: real, dist: Distance, x: Drone, y: Drone) returns (after: Links)
    requires Active(all, now, true) == [x] && Active(all, now, false) == [y] && SameMaker(x, y) && SameTap(x, y)
    ensures IsRound(before, after, all, now, dist, [Scored(x, y, now, dist)])
    ensures after.Keys == before.Keys + {x.id} && after[x.id].uav == y.id
    ensures forall k :: k in before && k != x.id ==> after[k] == before[k]
  {
    hide Active;
    hide ScoreLink;
    hide Reconciled;
    var c := Scored(x, y, now, dist);
    OnePair(x, y, now, dist);
    OneCandidate([c], c);
    after := (before - Ids([x]))[x.id := Refreshed(before, c, now)];
    assert Ids([x]) == {x.id} by { assert x in [x]; }
    ReconcileOne(before, Ids([x]), Greedy([c]), c, now);
  }

  lemma ActiveOne(d: Drone, now: real, controllers: bool)
    ensures Active([d], now, controllers) == if IsActive(d, now) && d.isController == controllers then [d] else []
  {
    assert [d][..0] == [];
    assert Active([], now, controllers) == [];
  }

  lemma {:induction false} ActiveSplits(xs: seq<Drone>, ys: seq<Drone>, now: real, controllers: bool)
    ensures Active(xs + ys, now, controllers) == Active(xs, now, controllers) + Active(ys, now, controllers)
  {
    hide IsActive;
    if ys == [] {
      assert xs + ys == xs;
    } else {
      assert (xs + ys)[..|xs + ys| - 1] == xs + ys[..|ys| - 1];
      ActiveSplits(xs, ys[..|ys| - 1], now, controllers);
    }
  }

  lemma ActiveTwo(x: Drone, y: Drone, now: real, controllers: bool)
    ensures Active([x, y], now, controllers) == Active([x], now, controllers) + Active([y], now, controllers)
  {
    hide Active;
    assert [x, y] == [x] + [y];
    ActiveSplits([x], [y], now, controllers);
  }

  /** One controller and one UAV, both active. */
  lemma ActivePair(x: Drone, y: Drone, now: real)
    requires IsActive(x, now) && x.isController && IsActive(y, now) && !y.isController
    ensures Active([x, y], now, true) == [x] && Active([x, y], now, false) == [y]
  {
    hide Active;
    hide IsActive;
    forall controllers
      ensures Active([x, y], now, controllers) == Active([x], now, controllers) + Active([y], now, controllers)
    {
      ActiveTwo(x, y, now, controllers);
    }
    ActiveOne(x, now, true);
    ActiveOne(x, now, false);
    ActiveOne(y, now, true);
    ActiveOne(y, now, false);
  }

  lemma ActiveOfThree(gone: Drone, x: Drone, y: Drone, now: real)
    requires !IsActive(gone, now) && IsActive(x, now) && x.isController && IsActive(y, now) && !y.isController
    ensures Active([gone, x, y], now, true) == [x] && Active([gone, x, y], now, false) == [y]
  {
    hide Active;
    hide IsActive;
    assert [gone, x, y] == [gone] + [x, y];
    ActiveSplits([gone], [x, y], now, true);
    ActiveSplits([gone], [x, y], now, false);
    ActiveOne(gone, now, true);
    ActiveOne(gone, now, false);
    ActivePair(x, y, now);
  }

  /** A drone or controller of one maker at one tap. */
  function Sighting(id: string, isController: bool, lastSeen: real): Drone {
    Drone(id, "DJI", "tap-001", isController, false, lastSeen, false, false, 0.0)
  }

  /**
   Two rounds from an empty table that link two controllers to one UAV: the first controller has been
   silent for 100 s in the second round, and its link survives.
   */
  lemma StaleRivalExists(dist: Distance) returns (first: Links, second: Links, r1: seq<Candidate>, r2: seq<Candidate>)
    ensures var a, b := Sighting("ctrl-a", true, 0.0), Sighting("ctrl-b", true, 100.0);
            && IsRound(map[], first, [a, Sighting("uav", false, 0.0)], 0.0, dist, r1)
            && IsRound(first, second, [a, b, Sighting("uav", false, 100.0)], 100.0, dist, r2)
    ensures OneToOne(first) && !OneToOne(second)
  {
    hide Active;
    hide IsRound;
    hide Scored;
    var a, b := Sighting("ctrl-a", true, 0.0), Sighting("ctrl-b", true, 100.0);
    var u, v := Sighting("uav", false, 0.0), Sighting("uav", false, 100.0);
    assert a.id[5] != b.id[5];
    ActivePair(a, u, 0.0);
    first := RoundOfOne(map[], [a, u], 0.0, dist, a, u);
    r1 := [Scored(a, u, 0.0, dist)];
    ActiveOfThree(a, b, v, 100.0);
    second := RoundOfOne(first, [a, b, v], 100.0, dist, b, v);
    r2 := [Scored(b, v, 100.0, dist)];
    assert a.id in second && b.id in second && second[a.id].uav == second[b.id].uav;
  }

  // ---------------------------------------------------------------- the factor two is exact

  /** A drone of one maker on its own tap, seen 40 s ago, with a position or an operator position. */
  function Placed(id: string, isController: bool): Drone {
    Drone(id, "DJI", id, isController, false, 0.0, isController, !isController, 0.0)
  }

  /** Places along a line, in metres. */
  function Place(id: string): real {
    if id == "c1" then 450.0 else if id == "u1" then 900.0 else if id == "c2" then 1350.0 else 0.0
  }

  function AlongLine(ctrl: Drone, uav: Drone): real {
    var d := Place(ctrl.id) - Place(uav.id);
    if d >= 0.0 then d else -d
  }

  lemma OperatorScore(ctrl: Drone, uav: Drone)
    requires ctrl == Placed(ctrl.id, true) && uav == Placed(uav.id, false) && ctrl.id != uav.id
    ensures Scored(ctrl, uav, 40.0, AlongLine)
         == if AlongLine(ctrl, uav) < 500.0 then Candidate(ctrl.id, uav.id, 0.55, "manufacturer+operator_proximity")
            else if AlongLine(ctrl, uav) < 2000.0 then Candidate(ctrl.id, uav.id, 0.35, "manufacturer+operator_nearby")
            else Candidate(ctrl.id, uav.id, 0.25, "manufacturer")
  {
  }

  lemma PairsOfTwo(ctrl: Drone, u1: Drone, u2: Drone, now: real, dist: Distance)
    ensures var x, y := Scored(ctrl, u1, now, dist), Scored(ctrl, u2, now, dist);
            PairsOf(ctrl, [u1, u2], now, dist)
            == (if x.score >= MIN_SCORE then [x] else []) + (if y.score >= MIN_SCORE then [y] else [])
  {
    hide ScoreLink;
    assert [u1, u2][..1] == [u1] && [u1][..0] == [];
    assert PairsOf(ctrl, [], now, dist) == [];
  }

  lemma PairsOfFour(c1: Drone, c2: Drone, uavs: seq<Drone>, now: real, dist: Distance)
    ensures Pairs([c1, c2], uavs, now, dist) == PairsOf(c1, uavs, now, dist) + PairsOf(c2, uavs, now, dist)
  {
    hide PairsOf;
    assert [c1, c2][..1] == [c1] && [c1][..0] == [];
    assert Pairs([], uavs, now, dist) == [];
  }

  /** The first candidate blocks the two others. */
  lemma Blocked(x: Candidate, y: Candidate, z: Candidate)
    requires x.score == y.score == z.score && x.ctrl == y.ctrl && x.uav == z.uav && !Conflict(y, z)
    ensures Descending([x, y, z]) && IsMatching([y, z])
    ensures Total([y, z]) == 2.0 * Total(Greedy([x, y, z]))
  {
    assert [x, y, z][1..] == [y, z] && [y, z][1..] == [z] && [z][1..] == [] && [x][1..] == [];
    assert Compatible([z], x) == [] && Compatible([y, z], x) == [];
    assert Greedy([x, y, z]) == [x] + Greedy([]);
    assert Total([x]) == x.score && Total([z]) == z.score;
  }

  /** Three pairs of one score, and none of the two drones that the first pair leaves. */
  lemma HalfOfTheBest(c1: Drone, c2: Drone, u1: Drone, u2: Drone, now: real, dist: Distance)
    requires c1.id != c2.id && u1.id != u2.id && Scored(c2, u2, now, dist).score < MIN_SCORE
    requires Scored(c1, u1, now, dist).score == Scored(c1, u2, now, dist).score
             == Scored(c2, u1, now, dist).score >= MIN_SCORE
    ensures var pairs := Pairs([c1, c2], [u1, u2], now, dist);
            var other := [Scored(c1, u2, now, dist), Scored(c2, u1, now, dist)];
            && Descending(pairs) && IsMatching(other) && (forall c :: c in other ==> c in pairs)
            && Total(other) == 2.0 * Total(Greedy(pairs))
  {
    hide ScoreLink;
    hide Total;
    hide Greedy;
    hide PairsOf;
    var x, y, z := Scored(c1, u1, now, dist), Scored(c1, u2, now, dist), Scored(c2, u1, now, dist);
    PairsOfFour(c1, c2, [u1, u2], now, dist);
    PairsOfTwo(c1, u1, u2, now, dist);
    PairsOfTwo(c2, u1, u2, now, dist);
    Blocked(x, y, z);
    assert [x] + [y] + ([z] + []) == [x, y, z];
  }

  lemma ActiveSame(x: Drone, y: Drone, now: real, controllers: bool)
    requires IsActive(x, now) && IsActive(y, now) && x.isController == y.isController
    ensures Active([x, y], now, controllers) == if x.isController == controllers then [x, y] else []
  {
    hide Active;
    hide IsActive;
    ActiveTwo(x, y, now, controllers);
    ActiveOne(x, now, controllers);
    ActiveOne(y, now, controllers);
  }

  lemma ActiveFour(c1: Drone, c2: Drone, u1: Drone, u2: Drone, now: real)
    requires IsActive(c1, now) && c1.isController && IsActive(c2, now) && c2.isController
    requires IsActive(u1, now) && !u1.isController && IsActive(u2, now) && !u2.isController
    ensures Active([c1, c2] + [u1, u2], now, true) == [c1, c2] && Active([c1, c2] + [u1, u2], now, false) == [u1, u2]
  {
    hide Active;
    hide IsActive;
    ActiveSplits([c1, c2], [u1, u2], now, true);
    ActiveSplits([c1, c2], [u1, u2], now, false);
    ActiveSame(c1, c2, now, true);
    ActiveSame(c1, c2, now, false);
    ActiveSame(u1, u2, now, true);
    ActiveSame(u1, u2, now, false);
  }

  /** The four scores of the line: both ends are out of each other's reach. */
  lemma LineScores()
    ensures Scored(Placed("c1", true), Placed("u1", false), 40.0, AlongLine).score == 0.55
    ensures Scored(Placed("c1", true), Placed("u2", false), 40.0, AlongLine).score == 0.55
    ensures Scored(Placed("c2", true), Placed("u1", false), 40.0, AlongLine).score == 0.55
    ensures Scored(Placed("c2", true), Placed("u2", false), 40.0, AlongLine).score == 0.35
  {
    hide Scored;
    OperatorScore(Placed("c1", true), Placed("u1", false));
    OperatorScore(Placed("c1", true), Placed("u2", false));
    OperatorScore(Placed("c2", true), Placed("u1", false));
    OperatorScore(Placed("c2", true), Placed("u2", false));
  }

  /** A snapshot whose assignment is worth exactly half of another one: the factor two cannot be improved. */
  lemma GreedyCanLose() returns (other: seq<Candidate>)
    ensures var all := [Placed("c1", true), Placed("c2", true)] + [Placed("u1", false), Placed("u2", false)];
            var pairs := Pairs(Active(all, 40.0, true), Active(all, 40.0, false), 40.0, AlongLine);
            && DistinctIds(all) && Descending(pairs) && IsMatching(other) && (forall c :: c in other ==> c in pairs)
            && Total(other) == 2.0 * Total(Greedy(pairs)) == 1.1
  {
    hide Scored;
    hide Active;
    hide Pairs;
    hide Greedy;
    var c1, c2, u1, u2 := Placed("c1", true), Placed("c2", true), Placed("u1", false), Placed("u2", false);
    ActiveFour(c1, c2, u1, u2, 40.0);
    LineScores();
    HalfOfTheBest(c1, c2, u1, u2, 40.0, AlongLine);
    other := [Scored(c1, u2, 40.0, AlongLine), Scored(c2, u1, 40.0, AlongLine)];
    assert other[1..][1..] == [];
    assert Total(other) == other[0].score + Total(other[1..]) && Total(other[1..]) == other[1].score;
  }
}
