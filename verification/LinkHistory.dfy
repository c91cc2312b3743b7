/**
 The link table from the history of rounds alone: what a controller's entry says is the
 best evidence of its current stretch with one UAV, and when that stretch was last seen.
 */
module LinkHistory {
  import opened Matching
  import opened ControllerLink
  import LinkTable

  /** What one round looked at, and the order in which it took the scored pairs. */
  datatype Round = Round(all: seq<Drone>, now: real, dist: Distance, ranked: seq<Candidate>)

  /** The tables before, between and after the rounds, from the empty one on. */
  ghost predicate Tables(tables: seq<Links>, rounds: seq<Round>) {
    && |tables| == |rounds| + 1 && tables[0] == map[]
    && forall i :: 0 <= i < |rounds| ==> Advances(tables[i], tables[i + 1], rounds[i])
  }

  ghost predicate Advances(before: Links, after: Links, r: Round) {
    IsRound(before, after, r.all, r.now, r.dist, r.ranked)
  }

  /** The controller is active in a round that has both controllers and UAVs. */
  ghost predicate Takes(r: Round, ctrl: string) {
    ctrl in Ids(Active(r.all, r.now, true)) && Active(r.all, r.now, false) != []
  }

  /** The round assigns the scored pair c. */
  ghost predicate Assigns(r: Round, c: Candidate) {
    Takes(r, c.ctrl) && c in Greedy(r.ranked)
  }

  ghost predicate AssignsPair(r: Round, ctrl: string, uav: string) {
    exists c :: Assigns(r, c) && c.ctrl == ctrl && c.uav == uav
  }

  /** Round s assigns the pair, and until round n the controller is assigned it again or left alone. */
  ghost predicate Stretch(rounds: seq<Round>, ctrl: string, uav: string, s: nat, n: nat) {
    && s < n <= |rounds| && AssignsPair(rounds[s], ctrl, uav)
    && forall i :: s < i < n && Takes(rounds[i], ctrl) ==> AssignsPair(rounds[i], ctrl, uav)
  }

  ghost predicate Linked(links: Links, ctrl: string, uav: string) {
    ctrl in links && links[ctrl].uav == uav
  }

  // ---------------------------------------------------------------- one round, one controller

  lemma SomeActive(all: seq<Drone>, now: real, id: string)
    requires id in Ids(Active(all, now, true))
    ensures Active(all, now, true) != []
  {
  }

  /** A round does not touch a controller that it does not take. */
  lemma LeftAlone(before: Links, after: Links, r: Round, ctrl: string)
    requires Advances(before, after, r) && !Takes(r, ctrl)
    ensures ctrl in after <==> ctrl in before
    ensures ctrl in before ==> after[ctrl] == before[ctrl]
  {
    hide Active;
    if Active(r.all, r.now, true) != [] && Active(r.all, r.now, false) != [] {
      LinkTable.AssignedAreActive(before, after, r.all, r.now, r.dist, r.ranked);
      assert !Chosen(Greedy(r.ranked), ctrl);
    }
  }

  /** A controller that a round takes has a link afterwards exactly when the round assigns it a pair. */
  lemma Taken(before: Links, after: Links, r: Round, ctrl: string)
    requires Advances(before, after, r) && Takes(r, ctrl)
    ensures ctrl in after <==> exists c :: Assigns(r, c) && c.ctrl == ctrl
  {
    hide Active;
    SomeActive(r.all, r.now, ctrl);
    if c :| c in Greedy(r.ranked) && c.ctrl == ctrl { assert Assigns(r, c); }
    assert ctrl in after <==> Chosen(Greedy(r.ranked), ctrl);
  }

  /** The entry of an assigned pair: a better score replaces the evidence, any other one only the time. */
  lemma Entered(before: Links, after: Links, r: Round, c: Candidate)
    requires Advances(before, after, r) && Assigns(r, c)
    ensures c.ctrl in after && after[c.ctrl].uav == c.uav && after[c.ctrl].lastUpdated == r.now
    ensures !Linked(before, c.ctrl, c.uav) || before[c.ctrl].confidence < c.score ==>
              after[c.ctrl].confidence == c.score && after[c.ctrl].how == c.how
    ensures Linked(before, c.ctrl, c.uav) && c.score <= before[c.ctrl].confidence ==>
              after[c.ctrl].confidence == before[c.ctrl].confidence && after[c.ctrl].how == before[c.ctrl].how
  {
    hide Active;
    SomeActive(r.all, r.now, c.ctrl);
  }

  /** A round assigns a controller at most one pair. */
  lemma OneEach(before: Links, after: Links, r: Round, c: Candidate, d: Candidate)
    requires Advances(before, after, r) && Assigns(r, c) && Assigns(r, d) && c.ctrl == d.ctrl
    ensures c == d
  {
    hide Active;
    SomeActive(r.all, r.now, c.ctrl);
    LinkTable.AssignedAreActive(before, after, r.all, r.now, r.dist, r.ranked);
    SameMatch(Greedy(r.ranked), c, d);
  }

  lemma SameMatch(m: seq<Candidate>, c: Candidate, d: Candidate)
    requires IsMatching(m) && c in m && d in m && c.ctrl == d.ctrl
    ensures c == d
  {
    var i :| 0 <= i < |m| && m[i] == c;
    var j :| 0 <= j < |m| && m[j] == d;
  }

  // ---------------------------------------------------------------- the story of an entry

  /** Confidence, evidence and time are those of the stretch: no score is above it, and the first to reach it counts. */
  ghost predicate BestOf(link: Link, rounds: seq<Round>, ctrl: string, s: nat, n: nat, best: Candidate, k: nat,
                         last: nat) {
    && s <= k < n <= |rounds| && s <= last < n
    && Assigns(rounds[k], best) && best.ctrl == ctrl && best.uav == link.uav
    && link.confidence == best.score && link.how == best.how
    && (forall i, c :: s <= i < n && Assigns(rounds[i], c) && c.ctrl == ctrl ==> c.score <= best.score)
    && (forall i, c :: s <= i < k && Assigns(rounds[i], c) && c.ctrl == ctrl ==> c.score < best.score)
    && Takes(rounds[last], ctrl) && link.lastUpdated == rounds[last].now
    && (forall i :: last < i < n ==> !Takes(rounds[i], ctrl))
  }

  /** The stretch begins where the table did not link the pair yet. */
  ghost predicate Begins(tables: seq<Links>, rounds: seq<Round>, ctrl: string, uav: string, s: nat, n: nat) {
    Stretch(rounds, ctrl, uav, s, n) && s < |tables| && !Linked(tables[s], ctrl, uav)
  }

  lemma StretchGrows(rounds: seq<Round>, ctrl: string, uav: string, s: nat, n: nat)
    requires Stretch(rounds, ctrl, uav, s, n) && n < |rounds|
    requires Takes(rounds[n], ctrl) ==> AssignsPair(rounds[n], ctrl, uav)
    ensures Stretch(rounds, ctrl, uav, s, n + 1)
  {
  }

  lemma StretchStarts(rounds: seq<Round>, ctrl: string, uav: string, n: nat)
    requires n < |rounds| && AssignsPair(rounds[n], ctrl, uav)
    ensures Stretch(rounds, ctrl, uav, n, n + 1)
  {
  }

  /**
   Every entry of every run: it belongs to a stretch of rounds with one UAV, its confidence is the best score of that
   stretch, its evidence that of the first round with that score, and its time that of the last round of the stretch
   that took the controller.
   */
  lemma {:induction false} EntryStory(tables: seq<Links>, rounds: seq<Round>, ctrl: string, n: nat)
    returns (s: nat, best: Candidate, k: nat, last: nat)
    requires Tables(tables, rounds) && n <= |rounds| && ctrl in tables[n]
    ensures Begins(tables, rounds, ctrl, tables[n][ctrl].uav, s, n)
    ensures BestOf(tables[n][ctrl], rounds, ctrl, s, n, best, k, last)
  {
    hide Takes;
    hide Assigns;
    hide Advances;
    var before, after, r := tables[n - 1], tables[n], rounds[n - 1];
    var uav := after[ctrl].uav;
    assert Advances(tables[n - 1], tables[n - 1 + 1], rounds[n - 1]);
    if !Takes(r, ctrl) {
      LeftAlone(before, after, r, ctrl);
      s, best, k, last := EntryStory(tables, rounds, ctrl, n - 1);
      StretchGrows(rounds, ctrl, uav, s, n - 1);
      NothingAssigned(r, ctrl);
    } else {
      Taken(before, after, r, ctrl);
      var c :| Assigns(r, c) && c.ctrl == ctrl;
      Entered(before, after, r, c);
      forall d | Assigns(r, d) && d.ctrl == ctrl ensures d == c { OneEach(before, after, r, c, d); }
      assert AssignsPair(r, ctrl, uav);
      if Linked(before, ctrl, uav) {
        s, best, k, last := EntryStory(tables, rounds, ctrl, n - 1);
        StretchGrows(rounds, ctrl, uav, s, n - 1);
        last := n - 1;
        if before[ctrl].confidence < c.score { best, k := c, n - 1; }
      } else {
        StretchStarts(rounds, ctrl, uav, n - 1);
        s, best, k, last := n - 1, c, n - 1, n - 1;
      }
    }
  }

  lemma NothingAssigned(r: Round, ctrl: string)
    requires !Takes(r, ctrl)
    ensures forall c :: Assigns(r, c) ==> c.ctrl != ctrl
  {
  }

  /** And the other way round: a pair in a stretch is linked to its end. */
  lemma {:induction false} StretchIsLinked(tables: seq<Links>, rounds: seq<Round>, ctrl: string, uav: string, s: nat,
                                           n: nat)
    requires Tables(tables, rounds) && Stretch(rounds, ctrl, uav, s, n)
    ensures Linked(tables[n], ctrl, uav)
    decreases n
  {
    hide Takes;
    hide Assigns;
    hide Advances;
    var r := rounds[n - 1];
    assert Advances(tables[n - 1], tables[n - 1 + 1], rounds[n - 1]);
    if Takes(r, ctrl) || s == n - 1 {
      var c :| Assigns(r, c) && c.ctrl == ctrl && c.uav == uav;
      Entered(tables[n - 1], tables[n], r, c);
    } else {
      StretchIsLinked(tables, rounds, ctrl, uav, s, n - 1);
      LeftAlone(tables[n - 1], tables[n], r, ctrl);
    }
  }

  /** A controller and a UAV are linked exactly at the end of a stretch of theirs. */
  lemma LinkedIff(tables: seq<Links>, rounds: seq<Round>, ctrl: string, uav: string, n: nat)
    requires Tables(tables, rounds) && n <= |rounds|
    ensures Linked(tables[n], ctrl, uav) <==> exists s: nat :: Stretch(rounds, ctrl, uav, s, n)
  {
    hide Stretch;
    if s: nat :| Stretch(rounds, ctrl, uav, s, n) { StretchIsLinked(tables, rounds, ctrl, uav, s, n); }
    if Linked(tables[n], ctrl, uav) { var s, _, _, _ := EntryStory(tables, rounds, ctrl, n); }
  }
}
