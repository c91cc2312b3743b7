/**
 The memory of which identifier belongs to which drone model, capped at 10000 entries by
 evicting the oldest tenth.
 */
module IdentityMemory {

  const MAX_IDENTITIES := 10000

  datatype Identity = Identity(model: string, serial: string, lastSeen: real)

  type Memory = map<string, Identity>

  datatype Entry = Entry(id: string, lastSeen: real)

  /** A listing of the memory, each identifier once, in any order. */
  ghost predicate Lists(entries: seq<Entry>, mem: Memory) {
    && (forall k :: 0 <= k < |entries| ==> entries[k].id in mem && entries[k].lastSeen == mem[entries[k].id].lastSeen)
    && (forall k, l :: 0 <= k < l < |entries| ==> entries[k].id != entries[l].id)
    && (forall id :: id in mem ==> exists k :: 0 <= k < |entries| && entries[k].id == id)
  }

  /** The entries that are gone are the oldest: none is newer than one that stayed. */
  ghost predicate OldestGone(before: Memory, after: Memory) {
    && after.Keys <= before.Keys && (forall id :: id in after ==> after[id] == before[id])
    && forall gone, kept :: gone in before && gone !in after && kept in after ==>
         before[gone].lastSeen <= before[kept].lastSeen
  }

  function Without(mem: Memory, gone: set<string>): Memory {
    mem - gone
  }

  function Ids(entries: seq<Entry>): set<string> {
    set e | e in entries :: e.id
  }

  /** The first i entries are no newer than any later one. */
  ghost predicate Selected(entries: seq<Entry>, i: nat)
    requires i <= |entries|
  {
    forall k, l :: 0 <= k < i && k <= l < |entries| ==> entries[k].lastSeen <= entries[l].lastSeen
  }

  function Swap(s: seq<Entry>, i: nat, j: nat): (r: seq<Entry>)
    requires i < |s| && j < |s|
    ensures |r| == |s|
  {
    s[i := s[j]][j := s[i]]
  }

  lemma SwapLists(s: seq<Entry>, i: nat, j: nat, mem: Memory)
    requires i < |s| && j < |s| && Lists(s, mem)
    ensures Lists(Swap(s, i, j), mem)
  {
    var r := Swap(s, i, j);
    forall id | id in mem ensures exists k :: 0 <= k < |r| && r[k].id == id {
      var k :| 0 <= k < |s| && s[k].id == id;
      var k' := if k == i then j else if k == j then i else k;
      assert r[k'].id == id;
    }
  }

  lemma SwapFront(s: seq<Entry>, i: nat, j: nat)
    requires i <= j < |s|
    ensures Swap(s, i, j)[..i] == s[..i]
  {
  }

  /** Picking the oldest of the rest keeps the selected front in order. */
  lemma SwapSelects(s: seq<Entry>, i: nat, m: nat)
    requires i <= m < |s| && Selected(s, i) && forall l :: i <= l < |s| ==> s[m].lastSeen <= s[l].lastSeen
    ensures Selected(Swap(s, i, m), i + 1)
  {
  }

  class Identities {
    var memory: Memory

    constructor ()
      ensures memory == map[]
    {
      memory := map[];
    }

    /** Remembers an identity; the memory never exceeds its cap, and what it forgets is the oldest. */
    method RememberIdentity(id: string, model: string, serial: string, now: real)
      requires |memory| <= MAX_IDENTITIES
      modifies this
      ensures |memory| <= MAX_IDENTITIES
      ensures if id == "" || model == "" then memory == old(memory)
              else
                && id in memory && memory[id] == Identity(model, serial, now)
                && (id in old(memory) || |old(memory)| < MAX_IDENTITIES ==>
                      memory == old(memory)[id := Identity(model, serial, now)])
                && (id !in old(memory) && |old(memory)| == MAX_IDENTITIES ==>
                      |memory| == MAX_IDENTITIES - 999 && OldestGone(old(memory), memory - {id}))
    {
      if id == "" || model == "" { return; }
      if id in memory {
        assert memory[id := Identity(model, serial, now)].Keys == memory.Keys;
        memory := memory[id := Identity(model, serial, now)];
        return;
      }
      if |memory| >= MAX_IDENTITIES { EvictOldest(MAX_IDENTITIES / 10); }
      ghost var before := memory;
      memory := memory[id := Identity(model, serial, now)];
      assert memory.Keys == before.Keys + {id};
      assert memory - {id} == before;
    }

    /** Forgets exactly the identities not confirmed for 48 hours. */
    method PruneStale(now: real)
      modifies this
      ensures memory == map id | id in old(memory) && now - old(memory)[id].lastSeen <= 172800.0 :: old(memory)[id]
    {
      var rest := memory.Keys;
      while rest != {}
        invariant rest <= memory.Keys <= old(memory).Keys
        invariant forall id :: id in memory <==>
                    id in old(memory) && (id in rest || now - old(memory)[id].lastSeen <= 172800.0)
        invariant forall id :: id in memory ==> memory[id] == old(memory)[id]
        decreases rest
      {
        var id :| id in rest;
        rest := rest - {id};
        if now - memory[id].lastSeen > 172800.0 { memory := memory - {id}; }
      }
    }

    /** Removes the count oldest entries by a partial selection sort over a listing of the memory. */
    method EvictOldest(count: int)
      modifies this
      ensures OldestGone(old(memory), memory)
      ensures |memory| == if count <= 0 then |old(memory)| else if count < |old(memory)| then |old(memory)| - count
              else 0
    {
      hide Lists;
      hide Selected;
      hide Ids;
      hide Swap;
      hide Without;
      hide OldestGone;
      NothingGone(memory);
      if count <= 0 || |memory| == 0 { return; }
      var entries := ListAll();
      ghost var all := memory;
      ListSize(entries, all);
      StartSelection(entries);
      DropNone(all, Ids(entries[..0]));
      var i := 0;
      while i < count && i < |entries|
        invariant 0 <= i <= |entries| == |all| && i <= count
        invariant Lists(entries, all) && Selected(entries, i)
        invariant memory == Without(all, Ids(entries[..i])) && |memory| == |all| - i
      {
        entries := EvictNext(entries, i, all);
        i := i + 1;
      }
      SelectedGone(entries, i, all);
    }

    /** One round of the selection: move the oldest remaining entry to position i and delete it. */
    method EvictNext(entries: seq<Entry>, i: nat, ghost all: Memory) returns (r: seq<Entry>)
      requires i < |entries| && Lists(entries, all) && Selected(entries, i) && memory == Without(all, Ids(entries[..i]))
      modifies this
      ensures |r| == |entries| && Lists(r, all) && Selected(r, i + 1)
      ensures memory == Without(all, Ids(r[..i + 1])) && |memory| == |old(memory)| - 1
    {
      hide Lists;
      hide Selected;
      hide Ids;
      hide Swap;
      hide Without;
      var minIdx := FindOldest(entries, i);
      SwapLists(entries, i, minIdx, all);
      SwapSelects(entries, i, minIdx);
      SwapFront(entries, i, minIdx);
      r := Swap(entries, i, minIdx);
      FrontGrows(r, i, all);
      DropOne(all, Ids(r[..i]), r[i].id);
      memory := memory - {r[i].id};
    }

    method FindOldest(entries: seq<Entry>, i: nat) returns (m: nat)
      requires i < |entries|
      ensures i <= m < |entries| && forall l :: i <= l < |entries| ==> entries[m].lastSeen <= entries[l].lastSeen
    {
      m := i;
      for j := i + 1 to |entries|
        invariant i <= m < |entries| && forall l :: i <= l < j ==> entries[m].lastSeen <= entries[l].lastSeen
      {
        if entries[j].lastSeen < entries[m].lastSeen { m := j; }
      }
    }

    method ListAll() returns (entries: seq<Entry>)
      ensures Lists(entries, memory)
    {
      entries := [];
      var rest := memory.Keys;
      while rest != {}
        invariant rest <= memory.Keys
        invariant Lists(entries, map id | id in memory && id !in rest :: memory[id])
        decreases rest
      {
        var id :| id in rest;
        ghost var before := map x | x in memory && x !in rest :: memory[x];
        ListExtends(entries, before, id, memory[id]);
        rest := rest - {id};
        entries := entries + [Entry(id, memory[id].lastSeen)];
        assert before[id := memory[id]] == map x | x in memory && x !in rest :: memory[x];
      }
      assert memory == map id | id in memory && id !in rest :: memory[id];
    }
  }

  lemma NothingGone(mem: Memory)
    ensures OldestGone(mem, mem)
  {
  }

  lemma StartSelection(entries: seq<Entry>)
    ensures Selected(entries, 0) && Ids(entries[..0]) == {}
  {
  }

  lemma DropNone(mem: Memory, gone: set<string>)
    requires gone == {}
    ensures Without(mem, gone) == mem
  {
  }

  lemma DropOne(all: Memory, gone: set<string>, id: string)
    requires id in all && id !in gone
    ensures Without(all, gone) - {id} == Without(all, gone + {id})
    ensures |Without(all, gone + {id})| == |Without(all, gone)| - 1
  {
  }

  lemma ListExtends(entries: seq<Entry>, mem: Memory, id: string, identity: Identity)
    requires Lists(entries, mem) && id !in mem
    ensures Lists(entries + [Entry(id, identity.lastSeen)], mem[id := identity])
  {
    var r, mem' := entries + [Entry(id, identity.lastSeen)], mem[id := identity];
    forall x | x in mem' ensures exists k :: 0 <= k < |r| && r[k].id == x {
      if x == id {
        assert r[|entries|].id == x;
      } else {
        var k :| 0 <= k < |entries| && entries[k].id == x;
        assert r[k].id == x;
      }
    }
  }

  lemma ListSize(entries: seq<Entry>, mem: Memory)
    requires Lists(entries, mem)
    ensures |entries| == |mem|
  {
    assert entries[..|entries|] == entries;
    IdsOfPrefix(entries, |entries|, mem);
    assert Ids(entries) == mem.Keys by {
      forall id | id in mem ensures id in Ids(entries) {
        var k :| 0 <= k < |entries| && entries[k].id == id;
        assert entries[k] in entries;
      }
    }
  }

  lemma {:induction false} IdsOfPrefix(entries: seq<Entry>, i: nat, mem: Memory)
    requires Lists(entries, mem) && i <= |entries|
    ensures |Ids(entries[..i])| == i && Ids(entries[..i]) <= mem.Keys
  {
    hide Lists;
    if i == 0 {
      StartSelection(entries);
    } else {
      hide Ids;
      IdsOfPrefix(entries, i - 1, mem);
      FrontGrows(entries, i - 1, mem);
    }
  }

  lemma FrontGrows(entries: seq<Entry>, i: nat, mem: Memory)
    requires Lists(entries, mem) && i < |entries|
    ensures Ids(entries[..i + 1]) == Ids(entries[..i]) + {entries[i].id}
    ensures entries[i].id !in Ids(entries[..i]) && entries[i].id in mem
  {
  }

  lemma SelectedGone(entries: seq<Entry>, i: nat, all: Memory)
    requires i <= |entries| && Lists(entries, all) && Selected(entries, i)
    ensures OldestGone(all, Without(all, Ids(entries[..i])))
  {
  }
}
