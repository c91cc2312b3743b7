/**
 The batch of events the server sends to its WebSocket clients. Before a batch is sent,
 drone updates are deduplicated: a later update of a drone replaces the earlier one in its
 place, so that only the latest state of each drone is sent.
 */
module WsBatch {

  /**
   An event: a drone update about a named drone, or anything else, perhaps also about a drone.
   The payload tells emissions apart; it does not stand for the contents of the drone.
   */
  datatype Event = Event(kind: string, drone: string, payload: nat)

  predicate IsUpdate(e: Event) {
    e.kind == "drone_update" && e.drone != ""
  }

  predicate UpdateOf(e: Event, id: string) {
    IsUpdate(e) && e.drone == id
  }

  // ---------------------------------------------------------------- what the loop computes

  /** The place of the update of a drone in a list of events, or its length. */
  function Find(es: seq<Event>, id: string): (i: nat)
    ensures i <= |es|
    ensures forall j :: 0 <= j < i ==> !UpdateOf(es[j], id)
    ensures i < |es| ==> UpdateOf(es[i], id)
  {
    if es == [] then 0
    else if UpdateOf(es[0], id) then 0
    else 1 + Find(es[1..], id)
  }

  function Add(es: seq<Event>, e: Event): seq<Event> {
    var i := Find(es, e.drone);
    if IsUpdate(e) && i < |es| then es[i := e] else es + [e]
  }

  function Dedup(es: seq<Event>): seq<Event> {
    if es == [] then [] else Add(Dedup(es[..|es| - 1]), es[|es| - 1])
  }

  /** The loop keeps an index of the places instead of searching for them. */
  method Deduplicate(events: seq<Event>) returns (deduped: seq<Event>)
    ensures deduped == Dedup(events)
  {
    var seen: map<string, nat> := map[];
    deduped := [];
    for n := 0 to |events|
      invariant deduped == Dedup(events[..n])
      invariant forall id :: id in seen <==> Find(deduped, id) < |deduped|
      invariant forall id :: id in seen ==> seen[id] == Find(deduped, id)
    {
      var e := events[n];
      assert events[..n + 1][..n] == events[..n];
      ghost var before := deduped;
      if IsUpdate(e) && e.drone in seen {
        deduped := deduped[seen[e.drone] := e];
        forall id ensures Find(deduped, id) == Find(before, id) { FindReplaced(before, e, id); }
      } else {
        if IsUpdate(e) { seen := seen[e.drone := |deduped|]; }
        deduped := deduped + [e];
        forall id ensures Find(deduped, id) == FoundIn(before, e, id) { FindAppended(before, e, id); }
      }
    }
    assert events[..|events|] == events;
  }

  /** Find is the only place with its property. */
  lemma FindIs(es: seq<Event>, id: string, i: nat)
    requires i <= |es| && (forall j :: 0 <= j < i ==> !UpdateOf(es[j], id)) && (i < |es| ==> UpdateOf(es[i], id))
    ensures Find(es, id) == i
  {
  }

  lemma FindReplaced(es: seq<Event>, e: Event, id: string)
    requires IsUpdate(e) && Find(es, e.drone) < |es|
    ensures Find(es[Find(es, e.drone) := e], id) == Find(es, id)
  {
    FindIs(es[Find(es, e.drone) := e], id, Find(es, id));
  }

  function FoundIn(es: seq<Event>, e: Event, id: string): nat {
    if Find(es, id) < |es| || UpdateOf(e, id) then Find(es, id) else |es| + 1
  }

  lemma FindAppended(es: seq<Event>, e: Event, id: string)
    ensures Find(es + [e], id) == FoundIn(es, e, id)
  {
    FindIs(es + [e], id, FoundIn(es, e, id));
  }

  // ---------------------------------------------------------------- what it means

  /** The events of another kind and the updates that name no drone, in order. */
  function Others(es: seq<Event>): seq<Event> {
    if es == [] then []
    else
      var e := es[|es| - 1];
      Others(es[..|es| - 1]) + (if e.kind != "drone_update" || e.drone == "" then [e] else [])
  }

  /** The updates of a drone, in order. */
  function Updates(es: seq<Event>, id: string): seq<Event> {
    if es == [] then []
    else Updates(es[..|es| - 1], id) + (if UpdateOf(es[|es| - 1], id) then [es[|es| - 1]] else [])
  }

  function Last(es: seq<Event>): seq<Event> {
    if es == [] then [] else [es[|es| - 1]]
  }

  /** The drones in the order of their first update. */
  function Order(es: seq<Event>): seq<string> {
    if es == [] then []
    else
      var before, e := Order(es[..|es| - 1]), es[|es| - 1];
      if IsUpdate(e) && e.drone !in before then before + [e.drone] else before
  }

  lemma OthersAppended(es: seq<Event>, e: Event)
    ensures Others(es + [e]) == Others(es) + (if IsUpdate(e) then [] else [e])
  {
  }

  lemma UpdatesAppended(es: seq<Event>, e: Event, id: string)
    ensures Updates(es + [e], id) == Updates(es, id) + (if UpdateOf(e, id) then [e] else [])
  {
  }

  lemma {:induction false} OthersReplaced(es: seq<Event>, i: nat, e: Event)
    requires i < |es| && IsUpdate(es[i]) && IsUpdate(e)
    ensures Others(es[i := e]) == Others(es)
  {
    var n := |es| - 1;
    if i < n {
      assert es[i := e][..n] == es[..n][i := e];
      OthersReplaced(es[..n], i, e);
    } else {
      assert es[i := e][..n] == es[..n];
    }
  }

  /** No update of the drone in the list: nothing is selected. */
  lemma {:induction false} NoUpdates(es: seq<Event>, id: string)
    requires forall j :: 0 <= j < |es| ==> !UpdateOf(es[j], id)
    ensures Updates(es, id) == []
  {
    if es != [] { NoUpdates(es[..|es| - 1], id); }
  }

  lemma {:induction false} UpdatesOtherReplaced(es: seq<Event>, i: nat, e: Event, id: string)
    requires i < |es| && !UpdateOf(es[i], id) && !UpdateOf(e, id)
    ensures Updates(es[i := e], id) == Updates(es, id)
  {
    var n := |es| - 1;
    if i < n {
      assert es[i := e][..n] == es[..n][i := e];
      UpdatesOtherReplaced(es[..n], i, e, id);
    } else {
      assert es[i := e][..n] == es[..n];
    }
  }

  /** Replacing the only update of a drone. */
  lemma {:induction false} UpdatesReplaced(es: seq<Event>, i: nat, e: Event, id: string)
    requires i < |es| && UpdateOf(es[i], id) && UpdateOf(e, id) && |Updates(es, id)| <= 1
    ensures Updates(es[i := e], id) == [e]
  {
    var n := |es| - 1;
    if i < n {
      assert es[i := e][..n] == es[..n][i := e];
      UpdatesReplaced(es[..n], i, e, id);
      HasUpdate(es[..n], i, id);
    } else {
      assert es[i := e][..n] == es[..n];
    }
  }

  lemma {:induction false} HasUpdate(es: seq<Event>, i: nat, id: string)
    requires i < |es| && UpdateOf(es[i], id)
    ensures |Updates(es, id)| >= 1
  {
    if i < |es| - 1 { HasUpdate(es[..|es| - 1], i, id); }
  }

  /** The other events are all sent, unchanged and in their order. */
  lemma {:induction false} DedupKeepsOthers(es: seq<Event>)
    ensures Others(Dedup(es)) == Others(es)
  {
    if es != [] {
      var n := |es| - 1;
      var before, e := Dedup(es[..n]), es[n];
      DedupKeepsOthers(es[..n]);
      var i := Find(before, e.drone);
      if IsUpdate(e) && i < |before| {
        OthersReplaced(before, i, e);
      } else {
        OthersAppended(before, e);
      }
    }
  }

  lemma AddKeepsLatest(before: seq<Event>, e: Event, id: string)
    requires |Updates(before, id)| <= 1
    ensures Updates(Add(before, e), id) == if UpdateOf(e, id) then [e] else Updates(before, id)
  {
    var i := Find(before, e.drone);
    if IsUpdate(e) && i < |before| {
      if e.drone == id {
        UpdatesReplaced(before, i, e, id);
      } else {
        UpdatesOtherReplaced(before, i, e, id);
      }
    } else {
      UpdatesAppended(before, e, id);
      if UpdateOf(e, id) { NoUpdates(before, id); }
    }
  }

  /** Of the updates of each drone exactly the latest is sent. */
  lemma {:induction false} DedupKeepsLatest(es: seq<Event>, id: string)
    ensures Updates(Dedup(es), id) == Last(Updates(es, id))
  {
    if es != [] {
      var n := |es| - 1;
      DedupKeepsLatest(es[..n], id);
      AddKeepsLatest(Dedup(es[..n]), es[n], id);
    }
  }

  lemma OrderAppended(es: seq<Event>, e: Event)
    ensures Order(es + [e]) == if IsUpdate(e) && e.drone !in Order(es) then Order(es) + [e.drone] else Order(es)
  {
  }

  lemma {:induction false} OrderReplaced(es: seq<Event>, i: nat, e: Event)
    requires i < |es| && IsUpdate(es[i]) && UpdateOf(e, es[i].drone)
    ensures Order(es[i := e]) == Order(es)
  {
    var n := |es| - 1;
    if i < n {
      assert es[i := e][..n] == es[..n][i := e];
      OrderReplaced(es[..n], i, e);
    } else {
      assert es[i := e][..n] == es[..n];
    }
  }

  lemma {:induction false} OrderIff(es: seq<Event>, id: string)
    ensures id in Order(es) <==> exists i :: 0 <= i < |es| && UpdateOf(es[i], id)
  {
    if es != [] {
      var n := |es| - 1;
      OrderIff(es[..n], id);
      if exists i :: 0 <= i < |es| && UpdateOf(es[i], id) {
        var i :| 0 <= i < |es| && UpdateOf(es[i], id);
        if i < n { assert UpdateOf(es[..n][i], id); }
      }
      if id in Order(es[..n]) {
        var i :| 0 <= i < n && UpdateOf(es[..n][i], id);
        assert UpdateOf(es[i], id);
      }
    }
  }

  /** The drones are sent in the order of their first updates. */
  lemma {:induction false} DedupKeepsOrder(es: seq<Event>)
    ensures Order(Dedup(es)) == Order(es)
  {
    if es != [] {
      var n := |es| - 1;
      var before, e := Dedup(es[..n]), es[n];
      DedupKeepsOrder(es[..n]);
      OrderIff(before, e.drone);
      var i := Find(before, e.drone);
      if IsUpdate(e) && i < |before| {
        OrderReplaced(before, i, e);
      } else {
        OrderAppended(before, e);
      }
    }
  }

  // ---------------------------------------------------------------- the latest state of a drone

  /** The place of the last event about a drone, update or not, or -1. */
  function LastAt(es: seq<Event>, id: string): (i: int)
    ensures -1 <= i < |es|
    ensures i >= 0 ==> es[i].drone == id
    ensures forall j :: i < j < |es| ==> es[j].drone != id
  {
    if es == [] then -1
    else if es[|es| - 1].drone == id then |es| - 1
    else LastAt(es[..|es| - 1], id)
  }

  predicate Updated(es: seq<Event>, id: string) {
    Find(es, id) < |es|
  }

  /** Some event about the drone that is no update follows its first update. */
  predicate Trailing(es: seq<Event>, id: string) {
    exists i, j :: 0 <= i < j < |es| && UpdateOf(es[i], id) && es[j].drone == id && !IsUpdate(es[j])
  }

  lemma LastAppended(es: seq<Event>, e: Event, id: string)
    ensures LastAt(es + [e], id) == if e.drone == id then |es| else LastAt(es, id)
  {
  }

  lemma LastReplaced(es: seq<Event>, i: nat, e: Event, id: string)
    requires i < |es| && es[i].drone == e.drone
    ensures LastAt(es[i := e], id) == LastAt(es, id)
  {
    var k, l := LastAt(es[i := e], id), LastAt(es, id);
    assert k >= 0 ==> es[k].drone == id;
    assert l >= 0 ==> es[i := e][l].drone == id;
  }

  lemma TrailingAppended(es: seq<Event>, e: Event, id: string)
    ensures Trailing(es + [e], id) <==> Trailing(es, id) || (e.drone == id && !IsUpdate(e) && Updated(es, id))
  {
    var all := es + [e];
    if Trailing(all, id) {
      var i, j :| 0 <= i < j < |all| && UpdateOf(all[i], id) && all[j].drone == id && !IsUpdate(all[j]);
      assert UpdateOf(es[i], id);
      if j < |es| { assert es[j].drone == id; }
    }
    if Trailing(es, id) {
      var i, j :| 0 <= i < j < |es| && UpdateOf(es[i], id) && es[j].drone == id && !IsUpdate(es[j]);
      assert UpdateOf(all[i], id) && all[j].drone == id;
    }
    if e.drone == id && !IsUpdate(e) && Updated(es, id) {
      assert UpdateOf(all[Find(es, id)], id) && all[|es|].drone == id;
    }
  }

  /** How the deduplicated list follows the events about one drone. */
  ghost predicate Follows(es: seq<Event>, ds: seq<Event>, id: string) {
    var f, l, last := Find(ds, id), LastAt(ds, id), LastAt(es, id);
    && (Updated(ds, id) <==> Updated(es, id)) && (l >= 0 <==> last >= 0)
    && (f < |ds| ==> f <= l && (f == l <==> !Trailing(es, id)))
    && (forall j :: 0 <= j < |ds| && j != f ==> !UpdateOf(ds[j], id))
    && (last >= 0 && IsUpdate(es[last]) ==> f < |ds| && ds[f] == es[last])
    && (last >= 0 && !IsUpdate(es[last]) ==> ds[l] == es[last])
  }

  lemma ReplaceFollows(es: seq<Event>, ds: seq<Event>, e: Event, id: string)
    requires Follows(es, ds, id) && IsUpdate(e) && Find(ds, e.drone) < |ds|
    ensures Follows(es + [e], ds[Find(ds, e.drone) := e], id)
  {
    hide Trailing;
    hide Find;
    hide LastAt;
    var i := Find(ds, e.drone);
    FindReplaced(ds, e, id);
    LastReplaced(ds, i, e, id);
    FindAppended(es, e, id);
    LastAppended(es, e, id);
    TrailingAppended(es, e, id);
  }

  lemma AppendFollows(es: seq<Event>, ds: seq<Event>, e: Event, id: string)
    requires Follows(es, ds, id) && (UpdateOf(e, id) ==> Find(ds, id) == |ds|)
    ensures Follows(es + [e], ds + [e], id)
  {
    hide Trailing;
    hide Find;
    hide LastAt;
    FindAppended(ds, e, id);
    LastAppended(ds, e, id);
    FindAppended(es, e, id);
    LastAppended(es, e, id);
    TrailingAppended(es, e, id);
    if UpdateOf(e, id) { NotTrailing(es, id); }
  }

  lemma NotTrailing(es: seq<Event>, id: string)
    requires !Updated(es, id)
    ensures !Trailing(es, id)
  {
  }

  lemma {:induction false} DedupFollows(es: seq<Event>, id: string)
    ensures Follows(es, Dedup(es), id)
  {
    hide Follows;
    if es == [] {
      NothingFollows(id);
    } else {
      var n := |es| - 1;
      var before, e := Dedup(es[..n]), es[n];
      DedupFollows(es[..n], id);
      assert es[..n] + [e] == es;
      if IsUpdate(e) && Find(before, e.drone) < |before| {
        ReplaceFollows(es[..n], before, e, id);
      } else {
        AppendFollows(es[..n], before, e, id);
      }
    }
  }

  lemma NothingFollows(id: string)
    ensures Follows([], Dedup([]), id)
  {
  }

  /**
   The last event of a sent batch about a drone is the last of the batch, unless that is an
   update and an event of another kind about the drone came after its first update: the update
   then takes the place of the first and the other event is sent last.
   */
  lemma LatestIff(es: seq<Event>, id: string)
    requires LastAt(es, id) >= 0
    ensures var last := es[LastAt(es, id)];
            LastAt(Dedup(es), id) >= 0
            && (Dedup(es)[LastAt(Dedup(es), id)] == last <==> !(IsUpdate(last) && Trailing(es, id)))
  {
    hide Trailing;
    hide Dedup;
    DedupFollows(es, id);
  }
}
