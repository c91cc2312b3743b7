/**
 The two ways of an event to a WebSocket client: new and lost drones are reported at once,
 all other events are collected in a batch that another goroutine flushes. The order a client
 sees is compared with the order of emission.
 */
module WsWire {
  import opened WsBatch

  /** New and lost drones are reported at once, everything else goes through the batch. */
  predicate Immediate(e: Event) {
    e.kind == "drone_new" || e.kind == "drone_lost"
  }

  /**
   wire is what a client has received, event by event; batch collects, and held is the batch
   that the flushing goroutine has taken out of the buffer but not yet written.
   */
  datatype Server = Server(wire: seq<Event>, held: seq<Event>, batch: seq<Event>)

  datatype Op = Emit(event: Event) | Grab | Write

  /** A flush that finds the buffer empty does nothing, and there is one flushing goroutine. */
  function Step(s: Server, op: Op): Server {
    match op
    case Emit(e) =>
      if Immediate(e) then s.(wire := s.wire + [e]) else s.(batch := s.batch + [e])
    case Grab => if s.held == [] then s.(held := s.batch, batch := []) else s
    case Write => s.(wire := s.wire + Dedup(s.held), held := [])
  }

  function Run(ops: seq<Op>): Server {
    if ops == [] then Server([], [], []) else Step(Run(ops[..|ops| - 1]), ops[|ops| - 1])
  }

  /** All events in the order of their emission. */
  function Emitted(ops: seq<Op>): seq<Event> {
    if ops == [] then []
    else Emitted(ops[..|ops| - 1]) + (if ops[|ops| - 1].Emit? then [ops[|ops| - 1].event] else [])
  }

  /** What the client has received once everything pending is written. */
  function Delivered(s: Server): seq<Event> {
    s.wire + Dedup(s.held) + Dedup(s.batch)
  }

  /** The last event about a drone, if any. */
  function LastOf(es: seq<Event>, id: string): seq<Event> {
    if LastAt(es, id) < 0 then [] else [es[LastAt(es, id)]]
  }

  predicate Pending(s: Server, id: string) {
    LastAt(s.held, id) >= 0 || LastAt(s.batch, id) >= 0
  }

  /** The emission reaches the client last: nothing overtakes it, and it takes no earlier place. */
  predicate InTime(s: Server, e: Event) {
    if Immediate(e) then !Pending(s, e.drone) else !(IsUpdate(e) && Trailing(s.batch, e.drone))
  }

  ghost predicate OnlyBatched(es: seq<Event>) {
    forall e :: e in es ==> !Immediate(e)
  }

  lemma {:induction false} RunBatches(ops: seq<Op>)
    ensures OnlyBatched(Run(ops).held) && OnlyBatched(Run(ops).batch)
  {
    if ops != [] { RunBatches(ops[..|ops| - 1]); }
  }

  lemma {:induction false} DedupOnlyBatched(es: seq<Event>)
    requires OnlyBatched(es)
    ensures OnlyBatched(Dedup(es))
  {
    if es != [] { DedupOnlyBatched(es[..|es| - 1]); }
  }

  /** The last event of two lists about a drone is in the second one, if it has any. */
  lemma LastOfBoth(xs: seq<Event>, ys: seq<Event>, id: string)
    ensures LastOf(xs + ys, id) == if LastOf(ys, id) != [] then LastOf(ys, id) else LastOf(xs, id)
  {
    hide LastAt;
    var all := xs + ys;
    var k, l, m := LastAt(all, id), LastAt(xs, id), LastAt(ys, id);
    if m >= 0 {
      assert all[|xs| + m].drone == id;
      assert k >= |xs| + m;
      assert ys[k - |xs|].drone == id;
    } else {
      assert forall j :: |xs| <= j < |all| ==> all[j] == ys[j - |xs|];
      assert l >= 0 ==> all[l].drone == id;
      assert 0 <= k < |xs| ==> xs[k].drone == id;
    }
  }

  lemma LastOfDelivered(s: Server, id: string)
    ensures LastOf(Delivered(s), id)
         == if LastOf(Dedup(s.batch), id) != [] then LastOf(Dedup(s.batch), id)
            else if LastOf(Dedup(s.held), id) != [] then LastOf(Dedup(s.held), id)
            else LastOf(s.wire, id)
  {
    hide LastOf;
    hide Dedup;
    LastOfBoth(s.wire + Dedup(s.held), Dedup(s.batch), id);
    LastOfBoth(s.wire, Dedup(s.held), id);
  }

  /** Deduplication drops no drone. */
  lemma LastSurvives(es: seq<Event>, id: string)
    ensures LastOf(Dedup(es), id) != [] <==> LastAt(es, id) >= 0
  {
    hide Dedup;
    hide Trailing;
    DedupFollows(es, id);
  }

  lemma LastOfOne(es: seq<Event>, e: Event)
    ensures LastOf(es + [e], e.drone) == [e]
  {
    LastAppended(es, e, e.drone);
  }

  lemma LastIn(es: seq<Event>, id: string)
    requires LastOf(es, id) != []
    ensures LastOf(es, id)[0] in es
  {
  }

  /** An immediate report is the last word about its drone if and only if nothing about the drone is pending. */
  lemma ImmediateIff(s: Server, e: Event)
    requires Immediate(e) && OnlyBatched(s.held) && OnlyBatched(s.batch)
    ensures LastOf(Delivered(Step(s, Emit(e))), e.drone) == [e] <==> !Pending(s, e.drone)
  {
    hide LastOf;
    hide Dedup;
    hide LastAt;
    var id := e.drone;
    LastOfDelivered(Step(s, Emit(e)), id);
    LastOfOne(s.wire, e);
    LastSurvives(s.batch, id);
    LastSurvives(s.held, id);
    DedupOnlyBatched(s.batch);
    DedupOnlyBatched(s.held);
    if LastOf(Dedup(s.batch), id) != [] {
      LastIn(Dedup(s.batch), id);
    } else if LastOf(Dedup(s.held), id) != [] {
      LastIn(Dedup(s.held), id);
    }
  }

  /** A batched event is the last word unless it is an update that takes a place before another event. */
  lemma BatchedIff(s: Server, e: Event)
    requires !Immediate(e)
    ensures LastOf(Delivered(Step(s, Emit(e))), e.drone) == [e] <==> !(IsUpdate(e) && Trailing(s.batch, e.drone))
  {
    hide Dedup;
    hide Trailing;
    var id, batch := e.drone, s.batch + [e];
    LastOfDelivered(Step(s, Emit(e)), id);
    LastAppended(s.batch, e, id);
    LastSurvives(batch, id);
    LatestIff(batch, id);
    TrailingAppended(s.batch, e, id);
  }

  /** Emissions about other drones, and flushes, do not change the last word about a drone. */
  lemma OthersDoNotMatter(s: Server, op: Op, id: string)
    requires op.Emit? ==> op.event.drone != id
    ensures LastOf(Delivered(Step(s, op)), id) == LastOf(Delivered(s), id)
  {
    hide LastOf;
    hide Dedup;
    LastOfDelivered(s, id);
    LastOfDelivered(Step(s, op), id);
    match op {
      case Emit(e) =>
        if Immediate(e) {
          OtherAppended(s.wire, e, id);
        } else {
          OtherDeduplicated(s.batch, e, id);
        }
      case Grab => DedupNothing();
      case Write =>
        DedupNothing();
        LastOfBoth(s.wire, Dedup(s.held), id);
    }
    LastOfNothing(id);
  }

  lemma DedupNothing()
    ensures Dedup([]) == []
  {
  }

  lemma LastOfNothing(id: string)
    ensures LastOf([], id) == []
  {
  }

  lemma OtherAppended(es: seq<Event>, e: Event, id: string)
    requires e.drone != id
    ensures LastOf(es + [e], id) == LastOf(es, id)
  {
    LastAppended(es, e, id);
  }

  lemma OtherDeduplicated(es: seq<Event>, e: Event, id: string)
    requires e.drone != id
    ensures LastOf(Dedup(es + [e]), id) == LastOf(Dedup(es), id)
  {
    assert (es + [e])[..|es|] == es;
    var before := Dedup(es);
    var i := Find(before, e.drone);
    if IsUpdate(e) && i < |before| {
      LastReplaced(before, i, e, id);
    } else {
      OtherAppended(before, e, id);
    }
  }

  /** The condition of the last emission about a drone in a run, in the state it was made in. */
  ghost predicate LastInTime(ops: seq<Op>, id: string) {
    ops != [] &&
    var before, op := ops[..|ops| - 1], ops[|ops| - 1];
    if op.Emit? && op.event.drone == id then InTime(Run(before), op.event) else LastInTime(before, id)
  }

  lemma EmittedSnoc(ops: seq<Op>, op: Op)
    ensures Emitted(ops + [op]) == Emitted(ops) + (if op.Emit? then [op.event] else [])
    ensures Run(ops + [op]) == Step(Run(ops), op)
  {
    assert (ops + [op])[..|ops|] == ops;
  }

  /**
   In every run: once everything is written, the last event the client has about a drone is the
   last that happened if and only if its emission was in time.
   */
  lemma {:induction false} LastWordIff(ops: seq<Op>, id: string)
    requires LastOf(Emitted(ops), id) != []
    ensures LastOf(Delivered(Run(ops)), id) == LastOf(Emitted(ops), id) <==> LastInTime(ops, id)
    ensures Run(ops).held == [] && Run(ops).batch == [] ==> Delivered(Run(ops)) == Run(ops).wire
  {
    if Run(ops).held == [] && Run(ops).batch == [] { NothingPending(Run(ops)); }
    hide LastOf;
    hide Delivered;
    hide InTime;
    if ops == [] {
      LastOfNothing(id);
    } else {
      var n := |ops| - 1;
      var before, op := ops[..n], ops[n];
      assert ops == before + [op];
      EmittedSnoc(before, op);
      if op.Emit? && op.event.drone == id {
        RunBatches(before);
        LastOfOne(Emitted(before), op.event);
        EmissionIff(Run(before), op.event);
      } else {
        if op.Emit? {
          OtherAppended(Emitted(before), op.event, id);
        } else {
          assert Emitted(before) + [] == Emitted(before);
        }
        LastWordIff(before, id);
        OthersDoNotMatter(Run(before), op, id);
      }
    }
  }

  lemma EmissionIff(s: Server, e: Event)
    requires OnlyBatched(s.held) && OnlyBatched(s.batch)
    ensures LastOf(Delivered(Step(s, Emit(e))), e.drone) == [e] <==> InTime(s, e)
  {
    hide Delivered;
    hide LastOf;
    if Immediate(e) { ImmediateIff(s, e); } else { BatchedIff(s, e); }
  }

  lemma NothingPending(s: Server)
    requires s.held == [] && s.batch == []
    ensures Delivered(s) == s.wire
  {
  }

  // ---------------------------------------------------------------- what goes wrong

  lemma DedupOne(e: Event)
    ensures Dedup([e]) == [e]
  {
    assert [e][..0] == [];
  }

  /** A flush of everything that is collected. */
  lemma FlushAll(ops: seq<Op>) returns (more: seq<Op>)
    requires Run(ops).held == []
    ensures Emitted(more) == Emitted(ops)
    ensures Run(more) == Server(Run(ops).wire + Dedup(Run(ops).batch), [], [])
  {
    hide Dedup;
    EmittedSnoc(ops, Grab);
    EmittedSnoc(ops + [Grab], Write);
    more := ops + [Grab] + [Write];
    assert Emitted(ops) + [] == Emitted(ops);
  }

  /** A run that emits one batched event after another. */
  lemma EmitBatched(ops: seq<Op>, e: Event) returns (more: seq<Op>)
    requires !Immediate(e)
    ensures Emitted(more) == Emitted(ops) + [e] && Run(more) == Run(ops).(batch := Run(ops).batch + [e])
  {
    EmittedSnoc(ops, Emit(e));
    more := ops + [Emit(e)];
  }

  /** A batched event reaches the client after the immediate one that followed it. */
  lemma Overtaken(first: Event, second: Event) returns (ops: seq<Op>)
    requires !Immediate(first) && Immediate(second)
    ensures Emitted(ops) == [first, second] && Run(ops) == Server([second, first], [], [])
  {
    hide Immediate;
    hide Dedup;
    ops := EmitBatched([], first);
    EmittedSnoc(ops, Emit(second));
    ops := ops + [Emit(second)];
    assert Emitted(ops) == [first, second] && Run(ops) == Server([second], [], [first]);
    DedupOne(first);
    ops := FlushAll(ops);
  }

  /** Update, loss report, flush: the client hears of the loss before the update that preceded it. */
  lemma LossIsOvertaken(id: string, seen: nat, gone: nat) returns (ops: seq<Op>)
    ensures var update, lost := Event("drone_update", id, seen), Event("drone_lost", id, gone);
            Emitted(ops) == [update, lost] && Run(ops) == Server([lost, update], [], [])
  {
    ops := Overtaken(Event("drone_update", id, seen), Event("drone_lost", id, gone));
  }

  /** An update, another event about its drone, and an update again: the last takes the place of the first. */
  lemma DedupSwaps(first: Event, other: Event, last: Event)
    requires IsUpdate(first) && !IsUpdate(other) && UpdateOf(last, first.drone)
    ensures Dedup([first, other, last]) == [last, other]
  {
    hide IsUpdate;
    var es := [first, other, last];
    assert es[..2] == [first, other] && [first, other][..1] == [first];
    DedupOne(first);
    assert Dedup([first, other]) == [first, other];
    FindIs([first, other], last.drone, 0);
  }

  /** Inside one batch an update can be sent before the promotion it followed. */
  lemma PromotionIsSwapped(id: string, older: nat, promoted: nat, newer: nat) returns (ops: seq<Op>)
    requires id != ""
    ensures var first, promotion := Event("drone_update", id, older), Event("suspect_promoted", id, promoted);
            var last := Event("drone_update", id, newer);
            Emitted(ops) == [first, promotion, last] && Run(ops) == Server([last, promotion], [], [])
  {
    hide Dedup;
    hide Run;
    hide Emitted;
    var first, promotion := Event("drone_update", id, older), Event("suspect_promoted", id, promoted);
    var last := Event("drone_update", id, newer);
    NothingEmitted();
    ops := EmitBatched([], first);
    ops := EmitBatched(ops, promotion);
    ops := EmitBatched(ops, last);
    assert Emitted(ops) == [first, promotion, last] && Run(ops).batch == [first, promotion, last];
    DedupSwaps(first, promotion, last);
    ops := FlushAll(ops);
  }

  lemma NothingEmitted()
    ensures Emitted([]) == [] && Run([]) == Server([], [], [])
  {
  }

  // ---------------------------------------------------------------- the object

  const MAX_BATCH: nat := 50

  class Broadcaster {
    var wire: seq<Event>
    var held: seq<Event>
    var batch: seq<Event>

    ghost function View(): Server
      reads this
    {
      Server(wire, held, batch)
    }

    constructor ()
      ensures View() == Run([])
    {
      wire, held, batch := [], [], [];
    }

    /** Sends or buffers one event; full asks for a flush. */
    method Collect(e: Event) returns (full: bool)
      modifies this
      ensures View() == Step(old(View()), Emit(e))
      ensures full <==> !Immediate(e) && |batch| >= MAX_BATCH
    {
      if e.kind == "drone_new" || e.kind == "drone_lost" {
        wire := wire + [e];
        return false;
      }
      batch := batch + [e];
      full := |batch| >= MAX_BATCH;
    }

    /** The locked half of a flush: swaps out the buffer. */
    method GrabBatch()
      requires held == []
      modifies this
      ensures View() == Step(old(View()), Grab)
    {
      if |batch| == 0 { return; }
      held := batch;
      batch := [];
    }

    /** The unlocked half: deduplicates what was taken and writes it. */
    method WriteBatch()
      modifies this
      ensures View() == Step(old(View()), Write)
    {
      var deduped := Deduplicate(held);
      wire := wire + deduped;
      held := [];
    }
  }
}
