/**
 The life of a tracked drone from the log of operations alone: when it was inserted, which
 detections were credited to it, when it was last seen, and which sweep found it silent.
 */
module DroneLife {
  import opened DroneState

  // ---------------------------------------------------------------- one operation, one drone

  /** The operation is a detection that the state resolves to the given drone. */
  predicate ResolvesTo(s: State, op: Op, id: Text) {
    op.Observe? && op.det.id != NONE && Update(s, op.det, op.now).resolved == id
  }

  /** The sweep finds a drone silent that was last seen at the given time. */
  predicate FindsSilent(op: Op, lastSeen: real) {
    op.Sweep? && op.now - lastSeen > op.lostAfter
  }

  ghost predicate SameDrone(d: Drone, e: Drone) {
    d.id == e.id && d.isController == e.isController && d.trackNumber == e.trackNumber
  }

  /** What an operation does to a drone that is live before and after it. */
  ghost predicate LivesOn(s: State, op: Op, id: Text, d: Drone, e: Drone) {
    && SameDrone(d, e)
    && (ResolvesTo(s, op, id) ==> !e.lost && e.lastSeen == op.now && e.detections == d.detections + 1)
    && (!ResolvesTo(s, op, id) ==>
          && e.lastSeen == d.lastSeen && e.detections == d.detections
          && (e.lost <==> d.lost || FindsSilent(op, d.lastSeen)))
  }

  /** A drone that an operation brings to life. */
  ghost predicate ComesAlive(s: State, op: Op, id: Text, e: Drone) {
    && ResolvesTo(s, op, id) && e.id == id == op.det.id && e.isController == op.det.isController
    && e.trackNumber == (if op.det.isController then 0 else s.nextTrack + 1)
    && !e.lost && e.lastSeen == op.now && e.detections == 1
  }

  lemma {:induction false} DeletedAll(s: State, ids: seq<Text>, id: Text)
    requires id in DeleteAll(s, ids).live
    ensures id in s.live && DeleteAll(s, ids).live[id] == s.live[id]
  {
    if ids != [] { DeletedAll(s, ids[..|ids| - 1], id); }
  }

  lemma UpdateOnDrone(s: State, det: Detection, now: real, id: Text)
    requires GoodIds(s.live) && id in Update(s, det, now).state.live
    ensures id in s.live ==> LivesOn(s, Observe(det, now), id, s.live[id], Update(s, det, now).state.live[id])
    ensures id !in s.live ==> ComesAlive(s, Observe(det, now), id, Update(s, det, now).state.live[id])
  {
    var after := Update(s, det, now).state;
    if id in s.live && Update(s, det, now).resolved != id { assert after.live[id] == s.live[id]; }
  }

  lemma StepOnDrone(s: State, op: Op, id: Text)
    requires GoodIds(s.live) && id in Step(s, op).live
    ensures id in s.live ==> LivesOn(s, op, id, s.live[id], Step(s, op).live[id])
    ensures id !in s.live ==> ComesAlive(s, op, id, Step(s, op).live[id])
  {
    hide Update;
    match op
    case Observe(det, now) => UpdateOnDrone(s, det, now, id);
    case Remove(_) =>
    case Sweep(now, lostAfter, evict) => DeletedAll(MarkLost(s, now, lostAfter), evict, id);
  }

  /** What an operation does to every drone. */
  ghost predicate AllLiveOn(s: State, op: Op, after: State) {
    forall id :: id in after.live ==>
      if id in s.live then LivesOn(s, op, id, s.live[id], after.live[id]) else ComesAlive(s, op, id, after.live[id])
  }

  lemma StepOnAll(s: State, op: Op)
    requires GoodIds(s.live)
    ensures AllLiveOn(s, op, Step(s, op))
  {
    hide Step;
    hide LivesOn;
    hide ComesAlive;
    forall id | id in Step(s, op).live
      ensures if id in s.live then LivesOn(s, op, id, s.live[id], Step(s, op).live[id])
              else ComesAlive(s, op, id, Step(s, op).live[id])
    {
      StepOnDrone(s, op, id);
    }
  }

  // ---------------------------------------------------------------- a run

  /** Operation i of the run is credited to the drone. */
  ghost predicate Credits(ops: seq<Op>, i: nat, id: Text) {
    i < |ops| && ResolvesTo(Run(EMPTY, ops[..i]), ops[i], id)
  }

  ghost function Credited(ops: seq<Op>, from: nat, id: Text): set<nat> {
    set i: nat | from <= i < |ops| && Credits(ops, i, id)
  }

  /** The drone is live from operation b on, and was not before it. */
  ghost predicate Inserted(ops: seq<Op>, b: nat, id: Text) {
    && b < |ops| && id !in Run(EMPTY, ops[..b]).live
    && forall i :: b < i <= |ops| ==> id in Run(EMPTY, ops[..i]).live
  }

  /** The drone was inserted at b and last credited at j. */
  ghost predicate Alive(ops: seq<Op>, b: nat, j: nat, id: Text) {
    && Inserted(ops, b, id) && Credits(ops, b, id) && b <= j && Credits(ops, j, id)
    && forall i :: j < i < |ops| ==> !Credits(ops, i, id)
  }

  /** A sweep after operation j finds the drone silent that was last seen at the given time. */
  ghost predicate SilencedAt(ops: seq<Op>, j: nat, lastSeen: real, k: nat) {
    j < k < |ops| && FindsSilent(ops[k], lastSeen)
  }

  ghost predicate Silenced(ops: seq<Op>, j: nat, lastSeen: real) {
    exists k: nat :: SilencedAt(ops, j, lastSeen, k)
  }

  /** What the record of the drone says, from the log. */
  ghost predicate Tells(ops: seq<Op>, b: nat, j: nat, d: Drone, id: Text)
    requires Alive(ops, b, j, id)
  {
    && ComesFrom(Run(EMPTY, ops[..b]), ops[b].det, d, id)
    && d.lastSeen == ops[j].now && d.detections == |Credited(ops, b, id)| && (d.lost <==> Silenced(ops, j, ops[j].now))
  }

  /** What a drone owes to the detection that inserted it. */
  ghost predicate ComesFrom(s: State, det: Detection, d: Drone, id: Text) {
    && d.id == id == det.id && d.isController == det.isController
    && d.trackNumber == (if det.isController then 0 else s.nextTrack + 1)
  }

  lemma CreditsBefore(ops: seq<Op>, n: nat, i: nat, id: Text)
    requires i < n <= |ops|
    ensures Credits(ops[..n], i, id) <==> Credits(ops, i, id)
  {
    assert ops[..n][..i] == ops[..i];
  }

  lemma RunIsGood(ops: seq<Op>)
    ensures GoodIds(Run(EMPTY, ops).live)
  {
    RunKeepsSerials(EMPTY, ops);
  }

  /** The last operation: it keeps what was credited before, and may add itself. */
  lemma CreditedGrows(ops: seq<Op>, b: nat, id: Text)
    requires b < |ops|
    ensures var n := |ops| - 1;
            Credited(ops, b, id) == Credited(ops[..n], b, id) + (if Credits(ops, n, id) then {n} else {})
  {
    hide Credits;
    var n := |ops| - 1;
    forall i: nat | i < n ensures Credits(ops[..n], i, id) <==> Credits(ops, i, id) { CreditsBefore(ops, n, i, id); }
  }

  lemma SilencedGrows(ops: seq<Op>, j: nat, lastSeen: real)
    requires j < |ops| - 1
    ensures var n := |ops| - 1;
            Silenced(ops, j, lastSeen) <==> Silenced(ops[..n], j, lastSeen) || FindsSilent(ops[n], lastSeen)
  {
    var n := |ops| - 1;
    if k: nat :| SilencedAt(ops[..n], j, lastSeen, k) { assert SilencedAt(ops, j, lastSeen, k); }
    if FindsSilent(ops[n], lastSeen) { assert SilencedAt(ops, j, lastSeen, n); }
    if k: nat :| SilencedAt(ops, j, lastSeen, k) && k < n { assert SilencedAt(ops[..n], j, lastSeen, k); }
  }

  lemma InsertedGrows(ops: seq<Op>, b: nat, id: Text)
    requires ops != [] && Inserted(ops[..|ops| - 1], b, id) && id in Run(EMPTY, ops).live
    ensures Inserted(ops, b, id)
  {
    hide Run;
    var n := |ops| - 1;
    assert ops[..n][..b] == ops[..b];
    forall i | b < i <= |ops| ensures id in Run(EMPTY, ops[..i]).live {
      if i <= n { assert ops[..n][..i] == ops[..i]; } else { assert ops[..i] == ops; }
    }
  }

  lemma AliveGrows(ops: seq<Op>, b: nat, j: nat, id: Text)
    requires ops != [] && Alive(ops[..|ops| - 1], b, j, id) && id in Run(EMPTY, ops).live
    ensures Alive(ops, b, if Credits(ops, |ops| - 1, id) then |ops| - 1 else j, id)
  {
    hide Credits;
    hide Run;
    hide Inserted;
    var n := |ops| - 1;
    CreditsInRange(ops[..n], b, id);
    CreditsInRange(ops[..n], j, id);
    InsertedGrows(ops, b, id);
    forall i: nat | i < n ensures Credits(ops[..n], i, id) <==> Credits(ops, i, id) { CreditsBefore(ops, n, i, id); }
  }

  lemma CreditsInRange(ops: seq<Op>, i: nat, id: Text)
    requires Credits(ops, i, id)
    ensures i < |ops| && ops[i].Observe?
  {
  }

  lemma JustBorn(ops: seq<Op>, id: Text)
    requires ops != []
    requires var n := |ops| - 1;
             id !in Run(EMPTY, ops[..n]).live && id in Run(EMPTY, ops).live && Credits(ops, n, id)
    ensures var n := |ops| - 1;
            Alive(ops, n, n, id) && Credited(ops, n, id) == {n}
  {
    assert ops[..|ops|] == ops;
  }

  /**
   Every live drone of every run: inserted by a detection under its own identifier, last seen at the last detection
   credited to it, credited as often as its count says, and lost exactly when a sweep since then found it silent.
   */
  lemma {:induction false} DroneStory(ops: seq<Op>, id: Text) returns (b: nat, j: nat)
    requires id in Run(EMPTY, ops).live
    ensures Alive(ops, b, j, id) && Tells(ops, b, j, Run(EMPTY, ops).live[id], id)
  {
    hide Step;
    hide Update;
    hide ResolvesTo;
    hide Credits;
    hide Silenced;
    var n := |ops| - 1;
    var s, op := Run(EMPTY, ops[..n]), ops[n];
    RunIsGood(ops[..n]);
    StepOnDrone(s, op, id);
    assert Credits(ops, n, id) <==> ResolvesTo(s, op, id) by { CreditsNow(ops, id); }
    if id in s.live {
      b, j := DroneStory(ops[..n], id);
      AliveGrows(ops, b, j, id);
      CreditedGrows(ops, b, id);
      assert ops[..n][..b] == ops[..b];
      CreditsInRange(ops[..n], j, id);
      if Credits(ops, n, id) {
        CreditsInRange(ops, n, id);
        j := n;
        NotSilencedYet(ops, ops[n].now);
      } else {
        SilencedGrows(ops, j, ops[j].now);
      }
    } else {
      CreditsInRange(ops, n, id);
      JustBorn(ops, id);
      b, j := n, n;
      NotSilencedYet(ops, ops[n].now);
    }
  }

  lemma CreditsNow(ops: seq<Op>, id: Text)
    requires ops != []
    ensures var n := |ops| - 1;
            Credits(ops, n, id) <==> ResolvesTo(Run(EMPTY, ops[..n]), ops[n], id)
  {
  }

  lemma NotSilencedYet(ops: seq<Op>, lastSeen: real)
    requires ops != []
    ensures !Silenced(ops, |ops| - 1, lastSeen)
  {
  }

  // ---------------------------------------------------------------- eviction

  /** In every run a sweep evicts a live drone if and only if its last detection is too long ago and it is lost. */
  lemma EvictedIff(ops: seq<Op>, id: Text, now: real, lostAfter: real, evictAfter: real, evicted: seq<Text>)
    returns (b: nat, j: nat)
    requires id in Run(EMPTY, ops).live && EvictsExpired(Run(EMPTY, ops), now, lostAfter, evictAfter, evicted)
    ensures Alive(ops, b, j, id)
    ensures id !in Run(EMPTY, ops + [Sweep(now, lostAfter, evicted)]).live <==>
              && evictAfter > 0.0 && now - ops[j].now > evictAfter
              && (now - ops[j].now > lostAfter || Silenced(ops, j, ops[j].now))
  {
    hide Silenced;
    hide Credits;
    hide Credited;
    b, j := DroneStory(ops, id);
    CreditsInRange(ops, j, id);
    var s := Run(EMPTY, ops);
    var op := Sweep(now, lostAfter, evicted);
    assert (ops + [op])[..|ops|] == ops;
    RunKeepsSerials(EMPTY, ops);
    MarkLostKeepsSerials(s, now, lostAfter);
    DeleteAllKeepsSerials(MarkLost(s, now, lostAfter), evicted);
    hide SerialInv;
    assert id !in Run(EMPTY, ops + [op]).live <==> id in evicted;
  }

  /** No drone is evicted that was detected within evictAfter. */
  lemma RecentIsKept(ops: seq<Op>, i: nat, id: Text, now: real, lostAfter: real, evictAfter: real, evicted: seq<Text>)
    requires id in Run(EMPTY, ops).live && EvictsExpired(Run(EMPTY, ops), now, lostAfter, evictAfter, evicted)
    requires Credits(ops, i, id) && InTime(ops) && now - ops[i].now <= evictAfter
    ensures id in Run(EMPTY, ops + [Sweep(now, lostAfter, evicted)]).live
  {
    hide Credits;
    hide Run;
    var b, j := EvictedIff(ops, id, now, lostAfter, evictAfter, evicted);
    CreditsInRange(ops, i, id);
    CreditsInRange(ops, j, id);
    assert i <= j;
    assert ops[i].now <= ops[j].now;
  }

  /** Detections are processed in the order of their times. */
  ghost predicate InTime(ops: seq<Op>) {
    forall i, j :: 0 <= i <= j < |ops| && ops[i].Observe? && ops[j].Observe? ==> ops[i].now <= ops[j].now
  }

  // ---------------------------------------------------------------- what the indexes learn

  /** The detection is merged into another drone by its MAC, after its serial named none. */
  predicate MergesByMac(s: State, det: Detection) {
    Owner(s, s.bySerial, det.serial, det.id) == NONE && Owner(s, s.byMac, det.mac, det.id) != NONE
  }

  /**
   After a detection its serial leads to the drone it resolved to, unless it was merged there by its MAC; and a drone
   detected under its own identifier carries the serial it was detected with.
   */
  lemma SerialIsLearntIff(s: State, det: Detection, now: real)
    requires GoodIds(s.live) && det.id != NONE && det.serial != NONE
    ensures var u := Update(s, det, now);
            Lookup(u.state.bySerial, det.serial) == u.resolved <==> !MergesByMac(s, det)
    ensures var u := Update(s, det, now);
            u.resolved == det.id ==> det.id in u.state.live && u.state.live[det.id].serial == det.serial
  {
  }

  /** A merge gives the drone the MAC of the detection if it has none, and leaves its serial. */
  lemma MergeAdoptsMac(s: State, det: Detection, now: real)
    requires GoodIds(s.live) && det.id != NONE && Update(s, det, now).resolved != det.id
    ensures var u := Update(s, det, now);
            && u.resolved in s.live && u.resolved in u.state.live && !u.isNew
            && var d, e := s.live[u.resolved], u.state.live[u.resolved];
               e.mac == (if d.mac == NONE then det.mac else d.mac) && e.serial == d.serial
  {
  }

  /** A deletion takes the drone's own serial and MAC out of the indexes, and nothing else. */
  lemma DeleteForgets(s: State, id: Text, key: Text)
    requires SerialInv(s) && id in s.live && key != NONE
    ensures Lookup(Delete(s, id).bySerial, key) == if key == s.live[id].serial then NONE else Lookup(s.bySerial, key)
    ensures Lookup(Delete(s, id).byMac, key)
         == if key == s.live[id].mac && Lookup(s.byMac, key) == id then NONE else Lookup(s.byMac, key)
    ensures Delete(s, id).live == s.live - {id}
  {
  }
}
