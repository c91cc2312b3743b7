/**
 The sharded store behind the state: 16 maps selected by the FNV-1a hash of the
 identifier, plus the two index maps. Each method is proved against the operation of the
 same name on DroneState.
 */
module DroneStore {
  import opened DroneState
  import DroneLife

  const NUM_SHARDS := 16

  newtype u32 = x: int | 0 <= x < 0x1_0000_0000

  const FNV_OFFSET: u32 := 2166136261

  function Pow2(n: nat): nat {
    if n == 0 then 1 else 2 * Pow2(n - 1)
  }

  /** Exclusive-or of the n low bits. */
  function XorLow(a: nat, b: nat, n: nat): (r: nat)
    ensures r < Pow2(n)
  {
    if n == 0 then 0 else 2 * XorLow(a / 2, b / 2, n - 1) + (a + b) % 2
  }

  /** Exclusive-or with one byte: the three upper bytes stay. */
  function Xor(h: u32, b: byte): u32 {
    var low := h as int % 256;
    var x := XorLow(low, b as int, 8);
    assert x < 256 by { assert Pow2(8) == 256; }
    (h as int - low + x) as u32
  }

  /** Multiplication by the FNV prime, with 32-bit wrap-around. */
  function TimesPrime(h: u32): u32 {
    (h as int * 16777619 % 0x1_0000_0000) as u32
  }

  /** 32-bit FNV-1a, one byte at a time. */
  function Fnv1a(h: u32, text: Text): u32
    decreases text
  {
    if text == [] then h else Fnv1a(TimesPrime(Xor(h, text[0])), text[1..])
  }

  /** The low four bits of the hash. */
  function ShardOf(id: Text): (i: nat)
    ensures i < NUM_SHARDS
  {
    Fnv1a(FNV_OFFSET, id) as int % NUM_SHARDS
  }

  lemma FirstByte()
    ensures XorLow(197, 102, 8) == 163
  {
    assert XorLow(1, 0, 1) == 1;
    assert XorLow(3, 1, 2) == 2;
    assert XorLow(6, 3, 3) == 5;
    assert XorLow(12, 6, 4) == 10;
    assert XorLow(24, 12, 5) == 20;
    assert XorLow(49, 25, 6) == 40;
    assert XorLow(98, 51, 7) == 81;
  }

  lemma SecondByte()
    ensures XorLow(153, 111, 8) == 246
  {
    assert XorLow(1, 0, 1) == 1;
    assert XorLow(2, 1, 2) == 3;
    assert XorLow(4, 3, 3) == 7;
    assert XorLow(9, 6, 4) == 15;
    assert XorLow(19, 13, 5) == 30;
    assert XorLow(38, 27, 6) == 61;
    assert XorLow(76, 55, 7) == 123;
  }

  /** The published FNV-1a value of "fo": exclusive-or before the product, first byte first. */
  lemma KnownHash()
    ensures Fnv1a(FNV_OFFSET, [0x66, 0x6F]) == 0x6222E842
  {
    hide XorLow;
    var text: Text := [0x66, 0x6F];
    assert text[1..] == [0x6F] && text[1..][1..] == [];
    FirstByte();
    assert Xor(FNV_OFFSET, 0x66) == 2166136227;
    SecondByte();
    assert Xor(3809224601, 0x6F) == 3809224694;
    hide Xor;
    assert TimesPrime(2166136227) == 3809224601 && TimesPrime(3809224694) == 0x6222E842;
  }

  method HashLoop(id: Text) returns (i: nat)
    ensures i == ShardOf(id) && i < NUM_SHARDS
  {
    hide Xor;
    hide TimesPrime;
    var h := FNV_OFFSET;
    for k := 0 to |id|
      invariant Fnv1a(h, id[k..]) == Fnv1a(FNV_OFFSET, id)
    {
      assert id[k..][1..] == id[k + 1..];
      h := Xor(h, id[k]);
      h := TimesPrime(h);
    }
    i := h as int % NUM_SHARDS;
  }

  /** The shards partition the live map by hash. */
  ghost predicate Partition(shards: seq<map<Text, Drone>>, live: map<Text, Drone>) {
    && |shards| == NUM_SHARDS
    && (forall id :: id in live <==> id in shards[ShardOf(id)])
    && (forall id :: id in live ==> live[id] == shards[ShardOf(id)][id])
    && (forall i, id :: 0 <= i < NUM_SHARDS && id in shards[i] ==> ShardOf(id) == i)
  }

  lemma PutKeepsPartition(shards: seq<map<Text, Drone>>, live: map<Text, Drone>, id: Text, d: Drone)
    requires Partition(shards, live)
    ensures var i := ShardOf(id);
            Partition(shards[i := shards[i][id := d]], live[id := d])
  {
  }

  lemma DropKeepsPartition(shards: seq<map<Text, Drone>>, live: map<Text, Drone>, id: Text)
    requires Partition(shards, live)
    ensures var i := ShardOf(id);
            Partition(shards[i := shards[i] - {id}], live - {id})
  {
    hide ShardOf;
  }

  lemma AgeKeepsPartition(shards: seq<map<Text, Drone>>, aged: seq<map<Text, Drone>>, live: map<Text, Drone>,
                          now: real, lostAfter: real)
    requires Partition(shards, live) && |aged| == NUM_SHARDS
    requires forall i :: 0 <= i < NUM_SHARDS ==> aged[i] == AgedShard(shards[i], now, lostAfter)
    ensures Partition(aged, map id | id in live :: Aged(live[id], now, lostAfter))
  {
  }

  ghost function Below(live: map<Text, Drone>, i: nat): set<Text> {
    set id | id in live && ShardOf(id) < i
  }

  lemma BelowStep(shards: seq<map<Text, Drone>>, live: map<Text, Drone>, i: nat)
    requires Partition(shards, live) && i < NUM_SHARDS
    ensures |Below(live, i + 1)| == |Below(live, i)| + |shards[i]|
  {
    hide ShardOf;
    assert Below(live, i + 1) == Below(live, i) + shards[i].Keys;
    assert Below(live, i) !! shards[i].Keys;
  }

  class StateManager {
    var shards: seq<map<Text, Drone>>
    var bySerial: map<Text, Text>
    var byMac: map<Text, Text>
    var nextTrackNum: int
    ghost var live: map<Text, Drone>

    ghost predicate Valid()
      reads this
    {
      Partition(shards, live)
    }

    ghost function View(): State
      reads this
    {
      State(live, bySerial, byMac, nextTrackNum)
    }

    constructor ()
      ensures Valid() && View() == EMPTY
    {
      shards := seq(NUM_SHARDS, _ => map[]);
      bySerial, byMac, nextTrackNum := map[], map[], 0;
      live := map[];
    }

    method Get(id: Text) returns (d: Drone, ok: bool)
      requires Valid()
      ensures ok <==> id in View().live
      ensures ok ==> d == View().live[id]
    {
      var i := HashLoop(id);
      ok := id in shards[i];
      if ok { d := shards[i][id]; } else { d := Drone(NONE, NONE, NONE, false, 0, false, 0.0, 0); }
    }

    method Put(id: Text, d: Drone)
      requires Valid()
      modifies this`shards, this`live
      ensures Valid() && live == old(live)[id := d]
    {
      var i := HashLoop(id);
      PutKeepsPartition(shards, live, id, d);
      shards := shards[i := shards[i][id := d]];
      live := live[id := d];
    }

    method Drop(id: Text)
      requires Valid()
      modifies this`shards, this`live
      ensures Valid() && live == old(live) - {id}
    {
      var i := HashLoop(id);
      DropKeepsPartition(shards, live, id);
      shards := shards[i := shards[i] - {id}];
      live := live - {id};
    }

    method UpdateIndexes(id: Text, serial: Text, mac: Text)
      requires Valid()
      modifies this`bySerial, this`byMac
      ensures Valid() && View() == Reindex(old(View()), id, serial, mac)
    {
      if serial != NONE { bySerial := bySerial[serial := id]; }
      if mac != NONE { byMac := byMac[mac := id]; }
    }

    /** Merges the detection into the drone that an index names, if it is another live drone. */
    method TryMerge(id: Text, det: Detection, now: real) returns (merged: bool)
      requires Valid()
      modifies this`shards, this`live
      ensures Valid()
      ensures merged <==> id != NONE && id != det.id && id in old(live)
      ensures live == if merged then old(live)[id := Merged(old(live)[id], det, now)] else old(live)
    {
      hide Partition;
      merged := false;
      if id != NONE && id != det.id {
        var existing, ok := Get(id);
        if ok {
          Put(id, Merged(existing, det, now));
          merged := true;
        }
      }
    }

    method UpdateDrone(det: Detection, now: real) returns (isNew: bool, resolved: Text)
      requires Valid()
      modifies this
      ensures Valid()
      ensures Updated(View(), isNew, resolved) == Update(old(View()), det, now)
      ensures GoodIds(old(live)) ==> DroneLife.AllLiveOn(old(View()), Observe(det, now), View())
    {
      hide Partition;
      hide DroneLife.AllLiveOn;
      if GoodIds(live) { DroneLife.StepOnAll(View(), Observe(det, now)); }
      if det.id == NONE { return false, NONE; }
      if det.serial != NONE {
        var id := Lookup(bySerial, det.serial);
        var merged := TryMerge(id, det, now);
        if merged { return false, id; }
      }
      if det.mac != NONE {
        var id := Lookup(byMac, det.mac);
        var merged := TryMerge(id, det, now);
        if merged { return false, id; }
      }
      isNew, resolved := Upsert(det, now);
    }

    /** The detection's own identifier: refresh the live drone, or insert a new one. */
    method Upsert(det: Detection, now: real) returns (isNew: bool, resolved: Text)
      requires Valid()
      requires Owner(View(), bySerial, det.serial, det.id) == NONE && Owner(View(), byMac, det.mac, det.id) == NONE
      requires det.id != NONE
      modifies this
      ensures Valid()
      ensures Updated(View(), isNew, resolved) == Update(old(View()), det, now)
    {
      hide Partition;
      var existing, found := Get(det.id);
      if !found {
        var track := 0;
        if !det.isController {
          nextTrackNum := nextTrackNum + 1;
          track := nextTrackNum;
        }
        Put(det.id, Drone(det.id, det.serial, det.mac, det.isController, track, false, now, 1));
        UpdateIndexes(det.id, det.serial, det.mac);
        return true, det.id;
      }
      var d := Refreshed(existing, det, now);
      Put(det.id, d);
      UpdateIndexes(d.id, d.serial, d.mac);
      return false, d.id;
    }

    method DeleteDrone(id: Text) returns (existed: bool)
      requires Valid()
      modifies this
      ensures Valid() && View() == Delete(old(View()), id)
      ensures existed <==> id in old(View()).live
    {
      hide Partition;
      var d, ok := Get(id);
      existed := ok;
      if ok {
        Drop(id);
        if d.serial != NONE && Lookup(bySerial, d.serial) == id { bySerial := bySerial - {d.serial}; }
        if d.mac != NONE && Lookup(byMac, d.mac) == id { byMac := byMac - {d.mac}; }
      }
    }

    method HydrateDrones(ds: seq<Drone>) returns (count: nat)
      requires Valid()
      modifies this
      ensures Valid() && View() == Hydrate(old(View()), ds)
      ensures count == |View().live| - |old(View()).live|
    {
      hide Partition;
      count := 0;
      for k := 0 to |ds|
        invariant Valid() && View() == Hydrate(old(View()), ds[..k])
        invariant count == |live| - |old(live)|
      {
        assert ds[..k + 1][..k] == ds[..k];
        var _, ok := Get(ds[k].id);
        if !ok {
          Put(ds[k].id, ds[k]);
          UpdateIndexes(ds[k].id, ds[k].serial, ds[k].mac);
          count := count + 1;
        }
      }
      assert ds[..|ds|] == ds;
    }

    /** The number of drones: the shard sizes add up to the size of the live map. */
    method Count() returns (total: nat)
      requires Valid()
      ensures total == |View().live|
    {
      hide ShardOf;
      total := 0;
      for i := 0 to NUM_SHARDS
        invariant total == |Below(live, i)|
      {
        BelowStep(shards, live, i);
        total := total + |shards[i]|;
      }
      assert Below(live, NUM_SHARDS) == live.Keys;
      assert |live.Keys| == |live|;
    }

    /** Marks silent drones lost, shard by shard. */
    method MarkAllLost(now: real, lostAfter: real)
      requires Valid()
      modifies this`shards, this`live
      ensures Valid() && View() == MarkLost(old(View()), now, lostAfter)
    {
      for i := 0 to NUM_SHARDS
        invariant |shards| == NUM_SHARDS && unchanged(`live)
        invariant forall j :: i <= j < NUM_SHARDS ==> shards[j] == old(shards)[j]
        invariant forall j :: 0 <= j < i ==> shards[j] == AgedShard(old(shards)[j], now, lostAfter)
      {
        shards := shards[i := AgedShard(shards[i], now, lostAfter)];
      }
      AgeKeepsPartition(old(shards), shards, live, now, lostAfter);
      live := MarkLost(View(), now, lostAfter).live;
    }

    /** The periodic sweep: mark lost, then collect and delete the expired. evictAfter <= 0 disables eviction. */
    method Cleanup(now: real, lostAfter: real, evictAfter: real) returns (ghost evicted: seq<Text>)
      requires Valid()
      modifies this
      ensures Valid() && View() == Step(old(View()), Sweep(now, lostAfter, evicted))
      ensures EvictsExpired(old(View()), now, lostAfter, evictAfter, evicted)
      ensures GoodIds(old(live)) ==> DroneLife.AllLiveOn(old(View()), Sweep(now, lostAfter, evicted), View())
    {
      hide Partition;
      hide DroneLife.AllLiveOn;
      MarkAllLost(now, lostAfter);
      evicted := [];
      if evictAfter > 0.0 {
        var ids := Collect(now, evictAfter);
        evicted := ids;
        label L:
        for k := 0 to |ids|
          invariant Valid() && View() == DeleteAll(old@L(View()), ids[..k])
        {
          assert ids[..k + 1][..k] == ids[..k];
          var _ := DeleteDrone(ids[k]);
        }
        assert ids[..|ids|] == ids;
      }
      if GoodIds(old(live)) { DroneLife.StepOnAll(old(View()), Sweep(now, lostAfter, evicted)); }
    }

    method Collect(now: real, evictAfter: real) returns (ids: seq<Text>)
      requires Valid()
      ensures forall id :: id in ids <==> id in live && Expired(live[id], now, evictAfter)
    {
      hide ShardOf;
      ids := [];
      for i := 0 to NUM_SHARDS
        invariant forall id :: id in ids <==> id in live && ShardOf(id) < i && Expired(live[id], now, evictAfter)
      {
        ghost var before := ids;
        var rest := shards[i].Keys;
        while rest != {}
          invariant rest <= shards[i].Keys
          invariant forall id :: id in ids <==>
                      id in before || (id in shards[i] && id !in rest && Expired(shards[i][id], now, evictAfter))
          decreases rest
        {
          var id :| id in rest;
          rest := rest - {id};
          if Expired(shards[i][id], now, evictAfter) { ids := ids + [id]; }
        }
      }
    }
  }

  function AgedShard(shard: map<Text, Drone>, now: real, lostAfter: real): map<Text, Drone> {
    map id | id in shard :: Aged(shard[id], now, lostAfter)
  }
}
