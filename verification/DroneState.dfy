/**
 The tracked-drone state as plain maps: the live drones by identifier, the serial and MAC
 indexes, and the track-number counter. Every operation of the state manager is a function
 on this state; runs of operations keep the serial index exact.
 */
module DroneState {

  newtype byte = x: int | 0 <= x < 256

  /** Go strings: identifiers, serial numbers and MAC addresses. */
  type Text = seq<byte>

  const NONE: Text := []

  datatype Drone = Drone(id: Text, serial: Text, mac: Text, isController: bool, trackNumber: int,
                         lost: bool, lastSeen: real, detections: int)

  /** An incoming observation. */
  datatype Detection = Detection(id: Text, serial: Text, mac: Text, isController: bool)

  datatype State = State(live: map<Text, Drone>, bySerial: map<Text, Text>, byMac: map<Text, Text>, nextTrack: int)

  const EMPTY := State(map[], map[], map[], 0)

  /** A lookup in a Go string map: the empty string when the key is absent. */
  function Lookup(index: map<Text, Text>, key: Text): Text {
    if key in index then index[key] else NONE
  }

  function Reindex(s: State, id: Text, serial: Text, mac: Text): State {
    s.(bySerial := if serial != NONE then s.bySerial[serial := id] else s.bySerial,
       byMac := if mac != NONE then s.byMac[mac := id] else s.byMac)
  }

  // ---------------------------------------------------------------- operations

  /** Folds a detection into the drone that already carries its serial or MAC. The serial never changes. */
  function Merged(d: Drone, det: Detection, now: real): Drone {
    d.(mac := if det.mac != NONE && d.mac == NONE then det.mac else d.mac,
       lost := false, lastSeen := now, detections := d.detections + 1)
  }

  function Refreshed(d: Drone, det: Detection, now: real): Drone {
    d.(serial := if det.serial != NONE then det.serial else d.serial,
       lost := false, lastSeen := now, detections := d.detections + 1)
  }

  /** The identifier under another name that an index gives for a key, if that drone is live. */
  function Owner(s: State, index: map<Text, Text>, key: Text, self: Text): Text {
    var id := Lookup(index, key);
    if key != NONE && id != NONE && id != self && id in s.live then id else NONE
  }

  datatype Updated = Updated(state: State, isNew: bool, resolved: Text)

  function Update(s: State, det: Detection, now: real): Updated {
    var bySerial := Owner(s, s.bySerial, det.serial, det.id);
    var byMac := Owner(s, s.byMac, det.mac, det.id);
    if det.id == NONE then Updated(s, false, NONE)
    else if bySerial != NONE then MergeInto(s, bySerial, det, now)
    else if byMac != NONE then MergeInto(s, byMac, det, now)
    else if det.id in s.live then
      var d := Refreshed(s.live[det.id], det, now);
      Updated(Reindex(s.(live := s.live[det.id := d]), d.id, d.serial, d.mac), false, d.id)
    else
      var track := if det.isController then 0 else s.nextTrack + 1;
      var d := Drone(det.id, det.serial, det.mac, det.isController, track, false, now, 1);
      Updated(Reindex(s.(live := s.live[det.id := d],
                         nextTrack := if det.isController then s.nextTrack else track), d.id, d.serial, d.mac),
              true, d.id)
  }

  function MergeInto(s: State, id: Text, det: Detection, now: real): Updated
    requires id == NONE || id in s.live
  {
    if id == NONE then Updated(s, false, NONE)
    else Updated(s.(live := s.live[id := Merged(s.live[id], det, now)]), false, id)
  }

  function Delete(s: State, id: Text): State {
    if id !in s.live then s
    else
      var d := s.live[id];
      s.(live := s.live - {id},
         bySerial := if d.serial != NONE && Lookup(s.bySerial, d.serial) == id
                     then s.bySerial - {d.serial} else s.bySerial,
         byMac := if d.mac != NONE && Lookup(s.byMac, d.mac) == id then s.byMac - {d.mac} else s.byMac)
  }

  function Aged(d: Drone, now: real, lostAfter: real): Drone {
    if !d.lost && now - d.lastSeen > lostAfter then d.(lost := true) else d
  }

  function MarkLost(s: State, now: real, lostAfter: real): State {
    s.(live := map id | id in s.live :: Aged(s.live[id], now, lostAfter))
  }

  predicate Expired(d: Drone, now: real, evictAfter: real) {
    d.lost && now - d.lastSeen > evictAfter
  }

  /** The sweep lists exactly the drones that are lost by then and have been silent for longer than evictAfter. */
  ghost predicate EvictsExpired(s: State, now: real, lostAfter: real, evictAfter: real, evicted: seq<Text>) {
    var aged := MarkLost(s, now, lostAfter).live;
    forall id :: id in evicted <==> evictAfter > 0.0 && id in aged && Expired(aged[id], now, evictAfter)
  }

  function DeleteAll(s: State, ids: seq<Text>): State {
    if ids == [] then s else Delete(DeleteAll(s, ids[..|ids| - 1]), ids[|ids| - 1])
  }

  /** Inserts a stored drone unless its identifier is live. */
  function HydrateOne(s: State, d: Drone): State {
    if d.id in s.live then s else Reindex(s.(live := s.live[d.id := d]), d.id, d.serial, d.mac)
  }

  function Hydrate(s: State, ds: seq<Drone>): State {
    if ds == [] then s else HydrateOne(Hydrate(s, ds[..|ds| - 1]), ds[|ds| - 1])
  }

  // ---------------------------------------------------------------- the serial index is exact

  ghost predicate GoodIds(live: map<Text, Drone>) {
    forall id :: id in live ==> id != NONE && live[id].id == id
  }

  /** Each live drone with a serial is the one its serial leads to. */
  ghost predicate SerialInv(s: State) {
    GoodIds(s.live) &&
    forall id :: id in s.live && s.live[id].serial != NONE ==> Lookup(s.bySerial, s.live[id].serial) == id
  }

  ghost predicate DistinctSerials(live: map<Text, Drone>) {
    forall a, b :: a in live && b in live && live[a].serial == live[b].serial != NONE ==> a == b
  }

  lemma SerialInvImpliesDistinct(s: State)
    requires SerialInv(s)
    ensures DistinctSerials(s.live)
  {
  }

  lemma MergeKeepsSerials(s: State, id: Text, det: Detection, now: real)
    requires SerialInv(s) && id in s.live
    ensures SerialInv(MergeInto(s, id, det, now).state)
  {
  }

  /** Storing a drone whose serial no other live drone has. */
  lemma StoreKeepsSerials(s: State, d: Drone)
    requires SerialInv(s) && d.id != NONE
    requires d.serial != NONE ==> forall id :: id in s.live && s.live[id].serial == d.serial ==> id == d.id
    ensures SerialInv(Reindex(s.(live := s.live[d.id := d]), d.id, d.serial, d.mac))
  {
  }

  /** A serial that leads to no other live drone belongs to no other live drone. */
  lemma NoOwnerMeansFree(s: State, serial: Text, self: Text)
    requires SerialInv(s) && serial != NONE && Owner(s, s.bySerial, serial, self) == NONE
    ensures forall id :: id in s.live && s.live[id].serial == serial ==> id == self
  {
  }

  /** A detection keeps the serial index exact, and the identifier it resolves to is live, stale entries or not. */
  lemma UpdateKeepsSerials(s: State, det: Detection, now: real)
    requires SerialInv(s)
    ensures SerialInv(Update(s, det, now).state)
    ensures det.id != NONE ==> Update(s, det, now).resolved in Update(s, det, now).state.live
  {
    hide SerialInv;
    var bySerial, byMac := Owner(s, s.bySerial, det.serial, det.id), Owner(s, s.byMac, det.mac, det.id);
    if det.id == NONE {
    } else if bySerial != NONE {
      MergeKeepsSerials(s, bySerial, det, now);
    } else if byMac != NONE {
      MergeKeepsSerials(s, byMac, det, now);
    } else {
      if det.serial != NONE { NoOwnerMeansFree(s, det.serial, det.id); }
      if det.id in s.live {
        var d := s.live[det.id];
        assert d.id == det.id &&
               (d.serial != NONE ==> forall id :: id in s.live && s.live[id].serial == d.serial ==> id == d.id)
          by { OwnSerial(s, det.id); }
        StoreKeepsSerials(s, Refreshed(d, det, now));
      } else {
        var track := if det.isController then 0 else s.nextTrack + 1;
        var s' := s.(nextTrack := if det.isController then s.nextTrack else track);
        assert SerialInv(s') by { CounterIsIrrelevant(s, s'.nextTrack); }
        StoreKeepsSerials(s', Drone(det.id, det.serial, det.mac, det.isController, track, false, now, 1));
      }
    }
  }

  lemma OwnSerial(s: State, self: Text)
    requires SerialInv(s) && self in s.live
    ensures s.live[self].id == self
    ensures s.live[self].serial != NONE ==>
              forall id :: id in s.live && s.live[id].serial == s.live[self].serial ==> id == self
  {
  }

  lemma CounterIsIrrelevant(s: State, next: int)
    requires SerialInv(s)
    ensures SerialInv(s.(nextTrack := next))
  {
  }

  lemma DeleteKeepsSerials(s: State, id: Text)
    requires SerialInv(s)
    ensures SerialInv(Delete(s, id))
  {
  }

  lemma {:induction false} DeleteAllKeepsSerials(s: State, ids: seq<Text>)
    requires SerialInv(s)
    ensures SerialInv(DeleteAll(s, ids))
    ensures DeleteAll(s, ids).live.Keys == s.live.Keys - (set id | id in ids)
    ensures forall id :: id in DeleteAll(s, ids).live ==> DeleteAll(s, ids).live[id] == s.live[id]
  {
    if ids != [] {
      var n := |ids| - 1;
      DeleteAllKeepsSerials(s, ids[..n]);
      DeleteKeepsSerials(DeleteAll(s, ids[..n]), ids[n]);
      assert (set id | id in ids) == (set id | id in ids[..n]) + {ids[n]};
    }
  }

  lemma MarkLostKeepsSerials(s: State, now: real, lostAfter: real)
    requires SerialInv(s)
    ensures SerialInv(MarkLost(s, now, lostAfter))
  {
  }

  // ---------------------------------------------------------------- runs

  datatype Op =
    | Observe(det: Detection, now: real)
    | Remove(id: Text)
    | Sweep(now: real, lostAfter: real, evict: seq<Text>)

  /** One atomic operation. A sweep lists the expired identifiers in the order it deletes them. */
  function Step(s: State, op: Op): State {
    match op
    case Observe(det, now) => Update(s, det, now).state
    case Remove(id) => Delete(s, id)
    case Sweep(now, lostAfter, evict) => DeleteAll(MarkLost(s, now, lostAfter), evict)
  }

  function Run(s: State, ops: seq<Op>): State {
    if ops == [] then s else Step(Run(s, ops[..|ops| - 1]), ops[|ops| - 1])
  }

  /** In every run the serial index stays exact: no two live drones ever share a serial. */
  lemma {:induction false} RunKeepsSerials(s: State, ops: seq<Op>)
    requires SerialInv(s)
    ensures SerialInv(Run(s, ops)) && DistinctSerials(Run(s, ops).live)
  {
    if ops != [] {
      var before, op := Run(s, ops[..|ops| - 1]), ops[|ops| - 1];
      RunKeepsSerials(s, ops[..|ops| - 1]);
      match op
      case Observe(det, now) => UpdateKeepsSerials(before, det, now);
      case Remove(id) => DeleteKeepsSerials(before, id);
      case Sweep(now, lostAfter, evict) =>
        MarkLostKeepsSerials(before, now, lostAfter);
        DeleteAllKeepsSerials(MarkLost(before, now, lostAfter), evict);
    }
    SerialInvImpliesDistinct(Run(s, ops));
  }

  // ---------------------------------------------------------------- loading from the database

  /** The live map after a load: the first drone of each new identifier. */
  function Loaded(live: map<Text, Drone>, ds: seq<Drone>): map<Text, Drone> {
    if ds == [] then live
    else
      var before := Loaded(live, ds[..|ds| - 1]);
      var d := ds[|ds| - 1];
      if d.id in before then before else before[d.id := d]
  }

  /** Every serial of a live drone leads to some live drone with that serial. */
  ghost predicate Covered(s: State) {
    forall id :: id in s.live && s.live[id].serial != NONE ==>
      var owner := Lookup(s.bySerial, s.live[id].serial);
      owner in s.live && s.live[owner].serial == s.live[id].serial
  }

  lemma HydrateOneCovers(s: State, d: Drone)
    requires Covered(s)
    ensures Covered(HydrateOne(s, d))
  {
    var after := HydrateOne(s, d);
    forall id | id in after.live && after.live[id].serial != NONE
      ensures var owner := Lookup(after.bySerial, after.live[id].serial);
              owner in after.live && after.live[owner].serial == after.live[id].serial
    {
      if id in s.live {
        var owner := Lookup(s.bySerial, s.live[id].serial);
        assert owner in s.live && s.live[owner].serial == s.live[id].serial;
      }
    }
  }

  lemma {:induction false} HydrateCovers(s: State, ds: seq<Drone>)
    requires Covered(s)
    ensures Covered(Hydrate(s, ds)) && Hydrate(s, ds).live == Loaded(s.live, ds)
  {
    if ds != [] {
      HydrateCovers(s, ds[..|ds| - 1]);
      HydrateOneCovers(Hydrate(s, ds[..|ds| - 1]), ds[|ds| - 1]);
    }
  }

  /** A load keeps the index exact if and only if the drones it leaves live have proper ids and distinct serials. */
  lemma HydrateKeepsSerialsIff(s: State, ds: seq<Drone>)
    requires SerialInv(s)
    ensures SerialInv(Hydrate(s, ds)) <==> GoodIds(Loaded(s.live, ds)) && DistinctSerials(Loaded(s.live, ds))
  {
    HydrateCovers(s, ds);
    var after := Hydrate(s, ds);
    if GoodIds(after.live) && DistinctSerials(after.live) {
      forall id | id in after.live && after.live[id].serial != NONE
        ensures Lookup(after.bySerial, after.live[id].serial) == id
      {
        var owner := Lookup(after.bySerial, after.live[id].serial);
        assert owner in after.live && after.live[owner].serial == after.live[id].serial;
      }
    }
    if SerialInv(after) { SerialInvImpliesDistinct(after); }
  }

  // ---------------------------------------------------------------- the MAC index is not

  ghost predicate MacInv(s: State) {
    forall id :: id in s.live && s.live[id].mac != NONE ==> Lookup(s.byMac, s.live[id].mac) == id
  }

  /** The detection merges by serial into a drone without a MAC, and its MAC does not lead there. */
  predicate AdoptsUnindexedMac(s: State, det: Detection) {
    var owner := Owner(s, s.bySerial, det.serial, det.id);
    det.id != NONE && owner != NONE && det.mac != NONE && owner in s.live && s.live[owner].mac == NONE
    && Lookup(s.byMac, det.mac) != owner
  }

  /** A detection keeps the MAC index exact if and only if no merge by serial adopts an unindexed MAC. */
  lemma UpdateKeepsMacsIff(s: State, det: Detection, now: real)
    requires GoodIds(s.live) && MacInv(s)
    ensures MacInv(Update(s, det, now).state) <==> !AdoptsUnindexedMac(s, det)
  {
    var u := Update(s, det, now);
    if AdoptsUnindexedMac(s, det) {
      var owner := Owner(s, s.bySerial, det.serial, det.id);
      assert u.state.live[owner].mac == det.mac;
    } else {
      forall id | id in u.state.live && u.state.live[id].mac != NONE
        ensures Lookup(u.state.byMac, u.state.live[id].mac) == id
      {
        if id in s.live && s.live[id].mac != NONE {
          assert Lookup(s.byMac, s.live[id].mac) == id;
        }
      }
    }
  }

  lemma DeleteKeepsMacs(s: State, id: Text)
    requires MacInv(s)
    ensures MacInv(Delete(s, id))
  {
  }

  lemma {:induction false} DeleteAllKeepsMacs(s: State, ids: seq<Text>)
    requires MacInv(s)
    ensures MacInv(DeleteAll(s, ids))
  {
    if ids != [] {
      DeleteAllKeepsMacs(s, ids[..|ids| - 1]);
      DeleteKeepsMacs(DeleteAll(s, ids[..|ids| - 1]), ids[|ids| - 1]);
    }
  }

  lemma MarkLostKeepsMacs(s: State, now: real, lostAfter: real)
    requires MacInv(s)
    ensures MacInv(MarkLost(s, now, lostAfter))
  {
  }

  /** The operation is a detection whose merge by serial adopts an unindexed MAC. */
  predicate Adopts(s: State, op: Op) {
    op.Observe? && AdoptsUnindexedMac(s, op.det)
  }

  lemma StepKeepsMacsIff(s: State, op: Op)
    requires GoodIds(s.live) && MacInv(s)
    ensures MacInv(Step(s, op)) <==> !Adopts(s, op)
  {
    match op
    case Observe(det, now) => UpdateKeepsMacsIff(s, det, now);
    case Remove(id) => DeleteKeepsMacs(s, id);
    case Sweep(now, lostAfter, evict) =>
      MarkLostKeepsMacs(s, now, lostAfter);
      DeleteAllKeepsMacs(MarkLost(s, now, lostAfter), evict);
  }

  /** The MAC index is exact throughout a run. */
  ghost predicate MacsStayExact(s: State, ops: seq<Op>) {
    MacInv(Run(s, ops)) && (ops == [] || MacsStayExact(s, ops[..|ops| - 1]))
  }

  /** No detection of a run adopts an unindexed MAC. */
  predicate NoneAdopts(s: State, ops: seq<Op>) {
    ops == [] || (NoneAdopts(s, ops[..|ops| - 1]) && !Adopts(Run(s, ops[..|ops| - 1]), ops[|ops| - 1]))
  }

  /** In every run the MAC index stays exact throughout if and only if no detection adopts an unindexed MAC. */
  lemma {:induction false} RunKeepsMacsIff(s: State, ops: seq<Op>)
    requires SerialInv(s) && MacInv(s)
    ensures MacsStayExact(s, ops) <==> NoneAdopts(s, ops)
  {
    if ops != [] {
      hide MacInv;
      hide Adopts;
      var before := ops[..|ops| - 1];
      RunKeepsMacsIff(s, before);
      if MacsStayExact(s, before) {
        RunKeepsSerials(s, before);
        StepKeepsMacsIff(Run(s, before), ops[|ops| - 1]);
      }
    }
  }

  /** From the empty state. */
  lemma EmptyRunKeepsMacsIff(ops: seq<Op>)
    ensures MacsStayExact(EMPTY, ops) <==> NoneAdopts(EMPTY, ops)
  {
    RunKeepsMacsIff(EMPTY, ops);
  }

  /** A run that ends with one MAC on two live drones. */
  lemma MacClash() returns (ops: seq<Op>, a: Text, c: Text)
    ensures var live := Run(EMPTY, ops).live;
            a in live && c in live && a != c && live[a].mac == live[c].mac != NONE
  {
    a, c := [1], [3];
    var serial, mac: Text := [9], [7];
    var d1, d2 := Detection(a, serial, NONE, false), Detection([2], serial, mac, false);
    var d3 := Detection(c, NONE, mac, false);
    assert a[0] != c[0] && a[0] != d2.id[0] && mac[0] != serial[0];
    ops := [Observe(d1, 0.0), Observe(d2, 1.0), Observe(d3, 2.0)];
    var s1 := Update(EMPTY, d1, 0.0).state;
    var s2 := Update(s1, d2, 1.0).state;
    var s3 := Update(s2, d3, 2.0).state;
    assert s1.live[a].mac == NONE && s2.live[a].mac == mac && s2.byMac == map[];
    assert ops[..2][..1][..0] == [];
    assert Run(EMPTY, ops[..2][..1]) == s1;
    assert Run(EMPTY, ops[..2]) == s2;
    assert Run(EMPTY, ops) == s3;
  }

  // ---------------------------------------------------------------- track numbers

  /** Assigned track numbers are distinct and do not exceed the counter. */
  ghost predicate TrackInv(s: State) {
    && s.nextTrack >= 0
    && (forall id :: id in s.live ==> 0 <= s.live[id].trackNumber <= s.nextTrack)
    && (forall a, b :: a in s.live && b in s.live && s.live[a].trackNumber == s.live[b].trackNumber != 0 ==> a == b)
  }

  lemma {:induction false} DeleteAllKeepsTracks(s: State, ids: seq<Text>)
    requires TrackInv(s)
    ensures TrackInv(DeleteAll(s, ids)) && DeleteAll(s, ids).nextTrack == s.nextTrack
  {
    if ids != [] { DeleteAllKeepsTracks(s, ids[..|ids| - 1]); }
  }

  lemma UpdateKeepsTracks(s: State, det: Detection, now: real)
    requires TrackInv(s)
    ensures var u := Update(s, det, now);
            TrackInv(u.state) && u.state.nextTrack >= s.nextTrack
    ensures var u := Update(s, det, now);
            u.isNew && !det.isController ==> u.state.live[u.resolved].trackNumber == u.state.nextTrack > s.nextTrack
  {
  }

  /** The track number that an operation hands out, if any. */
  function Handed(s: State, op: Op): seq<int> {
    if op.Observe? && Update(s, op.det, op.now).isNew && !op.det.isController
    then [Update(s, op.det, op.now).state.live[op.det.id].trackNumber] else []
  }

  lemma HandedIsNext(s: State, op: Op)
    requires TrackInv(s)
    ensures |Handed(s, op)| <= 1 && forall n :: n in Handed(s, op) ==> n == Step(s, op).nextTrack > s.nextTrack
  {
    if op.Observe? { UpdateKeepsTracks(s, op.det, op.now); }
  }

  /** The track numbers that a run hands out, in order. */
  function HandedOut(s: State, ops: seq<Op>): seq<int> {
    if ops == [] then []
    else HandedOut(s, ops[..|ops| - 1]) + Handed(Run(s, ops[..|ops| - 1]), ops[|ops| - 1])
  }

  ghost predicate Ascending(ns: seq<int>) {
    forall i, j :: 0 <= i < j < |ns| ==> ns[i] < ns[j]
  }

  lemma AscendingAppend(ns: seq<int>, more: seq<int>, low: int, mid: int, high: int)
    requires Ascending(ns) && (forall n :: n in ns ==> low < n <= mid)
    requires low <= mid <= high && |more| <= 1 && (forall n :: n in more ==> mid < n <= high)
    ensures Ascending(ns + more) && forall n :: n in ns + more ==> low < n <= high
  {
    forall i, j | 0 <= i < j < |ns + more| ensures (ns + more)[i] < (ns + more)[j] {
      if j >= |ns| { assert ns[i] in ns && more[j - |ns|] in more; }
    }
  }

  /** In every run, evictions or not, each number handed out is above all earlier ones: none is used twice. */
  lemma {:induction false} NumbersAreUnique(s: State, ops: seq<Op>)
    requires TrackInv(s)
    ensures Ascending(HandedOut(s, ops)) && s.nextTrack <= Run(s, ops).nextTrack
    ensures forall n :: n in HandedOut(s, ops) ==> s.nextTrack < n <= Run(s, ops).nextTrack
  {
    if ops != [] {
      hide TrackInv;
      hide Ascending;
      hide Handed;
      hide Step;
      var prefix, op := ops[..|ops| - 1], ops[|ops| - 1];
      var before := Run(s, prefix);
      NumbersAreUnique(s, prefix);
      RunKeepsTracks(s, prefix);
      StepKeepsCounter(before, op);
      HandedIsNext(before, op);
      AscendingAppend(HandedOut(s, prefix), Handed(before, op), s.nextTrack, before.nextTrack,
                      Step(before, op).nextTrack);
    }
  }

  lemma StepKeepsCounter(s: State, op: Op)
    requires TrackInv(s)
    ensures Step(s, op).nextTrack >= s.nextTrack
  {
    match op
    case Observe(det, now) => UpdateKeepsTracks(s, det, now);
    case Remove(id) =>
    case Sweep(now, lostAfter, evict) =>
      MarkLostKeepsTracks(s, now, lostAfter);
      DeleteAllKeepsTracks(MarkLost(s, now, lostAfter), evict);
  }

  lemma MarkLostKeepsTracks(s: State, now: real, lostAfter: real)
    requires TrackInv(s)
    ensures TrackInv(MarkLost(s, now, lostAfter))
  {
  }

  /** In every run the live drones have distinct track numbers, and the counter never goes back. */
  lemma {:induction false} RunKeepsTracks(s: State, ops: seq<Op>)
    requires TrackInv(s)
    ensures TrackInv(Run(s, ops)) && Run(s, ops).nextTrack >= s.nextTrack
  {
    if ops != [] {
      var before, op := Run(s, ops[..|ops| - 1]), ops[|ops| - 1];
      RunKeepsTracks(s, ops[..|ops| - 1]);
      match op
      case Observe(det, now) => UpdateKeepsTracks(before, det, now);
      case Remove(id) =>
      case Sweep(now, lostAfter, evict) => DeleteAllKeepsTracks(MarkLost(before, now, lostAfter), evict);
    }
  }
}
