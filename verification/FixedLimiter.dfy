/**
 The fixed-window limiter of the API server: per client a counter and the start of its
 current window.
 */
module FixedLimiter {
  import opened LimiterRuns
  import SlidingLimiter

  datatype Client = Client(count: int, start: real)

  type Clients = map<string, Client>

  /** What is known of a client: nothing, or its counter. */
  datatype Known = Unknown | Known(client: Client)

  function Lookup(cs: Clients, key: string): Known {
    if key in cs then Known(cs[key]) else Unknown
  }

  predicate Reopens(k: Known, window: real, now: real) {
    k.Unknown? || now - k.client.start > window
  }

  predicate Admits(k: Known, requests: int, window: real, now: real) {
    Reopens(k, window, now) || k.client.count < requests
  }

  function Next(k: Known, requests: int, window: real, now: real): Known {
    if Reopens(k, window, now) then Known(Client(1, now))
    else if k.client.count >= requests then k
    else Known(k.client.(count := k.client.count + 1))
  }

  function Swept(cs: Clients, window: real, now: real): Clients {
    map key | key in cs && now - cs[key].start <= window * 2.0 :: cs[key]
  }

  function Step(cs: Clients, requests: int, window: real, op: Op): Clients {
    match op
    case Ask(key, now) => cs[key := Next(Lookup(cs, key), requests, window, now).client]
    case Clean(now) => Swept(cs, window, now)
  }

  function Run(ops: seq<Op>, requests: int, window: real): Clients {
    if ops == [] then map[] else Step(Run(ops[..|ops| - 1], requests, window), requests, window, ops[|ops| - 1])
  }

  /** An admission, tagged with the start of the window it was counted in. */
  datatype Entry = Entry(time: real, start: real)

  function Admission(k: Known, requests: int, window: real, now: real): seq<Entry> {
    if Admits(k, requests, window, now) then [Entry(now, Next(k, requests, window, now).client.start)] else []
  }

  /** The admissions of a key over a run of the limiter. */
  function Admitted(ops: seq<Op>, requests: int, window: real, key: string): seq<Entry> {
    if ops == [] then []
    else
      var n := |ops| - 1;
      var op := ops[n];
      Admitted(ops[..n], requests, window, key)
      + (if op.Ask? && op.key == key
         then Admission(Lookup(Run(ops[..n], requests, window), key), requests, window, op.now) else [])
  }

  // ---------------------------------------------------------------- the reference never forgets

  function RefState(ops: seq<Op>, requests: int, window: real, key: string): Known {
    if ops == [] then Unknown
    else
      var n := |ops| - 1;
      var before, op := RefState(ops[..n], requests, window, key), ops[n];
      if op.Ask? && op.key == key then Next(before, requests, window, op.now) else before
  }

  function Reference(ops: seq<Op>, requests: int, window: real, key: string): seq<Entry> {
    if ops == [] then []
    else
      var n := |ops| - 1;
      var op := ops[n];
      Reference(ops[..n], requests, window, key)
      + (if op.Ask? && op.key == key
         then Admission(RefState(ops[..n], requests, window, key), requests, window, op.now) else [])
  }

  /** The table knows what the reference knows, except clients whose window has long closed. */
  ghost predicate Agrees(k: Known, ref: Known, window: real, clock: real) {
    k == ref || (k.Unknown? && ref.Known? && clock - ref.client.start > window)
  }

  lemma SameDecision(k: Known, ref: Known, requests: int, window: real, clock: real, now: real)
    requires Agrees(k, ref, window, clock) && now >= clock
    ensures Next(k, requests, window, now) == Next(ref, requests, window, now)
    ensures Admission(k, requests, window, now) == Admission(ref, requests, window, now)
  {
  }

  /** In every run in time order the limiter decides as the reference without clean-ups. */
  lemma {:induction false} LimiterMatchesReference(ops: seq<Op>, requests: int, window: real, key: string, clock: real)
    requires InOrder(ops) && window >= 0.0 && forall op :: op in ops ==> op.now <= clock
    ensures Admitted(ops, requests, window, key) == Reference(ops, requests, window, key)
    ensures Agrees(Lookup(Run(ops, requests, window), key), RefState(ops, requests, window, key), window, clock)
    ensures RefState(ops, requests, window, key).Known? ==> RefState(ops, requests, window, key).client.start <= clock
  {
    if ops != [] {
      var n := |ops| - 1;
      var prefix, op := ops[..n], ops[n];
      Earlier(ops);
      LimiterMatchesReference(prefix, requests, window, key, op.now);
      var k, ref := Lookup(Run(prefix, requests, window), key), RefState(prefix, requests, window, key);
      SameDecision(k, ref, requests, window, op.now, op.now);
    }
  }

  /** The reference is that of the asks alone. */
  lemma {:induction false} CleanupIsInvisible(ops: seq<Op>, requests: int, window: real, key: string)
    ensures RefState(Asks(ops), requests, window, key) == RefState(ops, requests, window, key)
    ensures Reference(Asks(ops), requests, window, key) == Reference(ops, requests, window, key)
  {
    hide Admission;
    hide Next;
    if ops != [] {
      var n := |ops| - 1;
      CleanupIsInvisible(ops[..n], requests, window, key);
      if ops[n].Ask? {
        assert Asks(ops)[..|Asks(ops)| - 1] == Asks(ops[..n]);
      } else {
        assert Asks(ops) == Asks(ops[..n]);
        assert Reference(ops[..n], requests, window, key) + [] == Reference(ops[..n], requests, window, key);
      }
    }
  }

  // ---------------------------------------------------------------- counting

  function Cap(requests: int): nat {
    if requests > 1 then requests else 1
  }

  /** Admissions in the closed interval [from, from + window]. */
  function InWindow(es: seq<Entry>, from: real, window: real): nat {
    if es == [] then 0
    else InWindow(es[..|es| - 1], from, window) + (if from <= es[|es| - 1].time <= from + window then 1 else 0)
  }

  function Tagged(es: seq<Entry>, start: real): nat {
    if es == [] then 0 else Tagged(es[..|es| - 1], start) + (if es[|es| - 1].start == start then 1 else 0)
  }

  /** Admissions of a window after the moment that opened it. */
  function Late(es: seq<Entry>, start: real): nat {
    if es == [] then 0
    else Late(es[..|es| - 1], start) + (if es[|es| - 1].start == start && es[|es| - 1].time > start then 1 else 0)
  }

  /** Windows do not overlap. */
  ghost predicate Ordered(es: seq<Entry>, window: real) {
    && (forall i :: 0 <= i < |es| ==> es[i].start <= es[i].time <= es[i].start + window)
    && (forall i, j :: 0 <= i <= j < |es| ==> es[i].time <= es[j].time && es[i].start <= es[j].start)
    && (forall i, j :: 0 <= i < j < |es| && es[i].start < es[j].start ==> es[i].start + window < es[j].start)
  }

  /** Each window holds at most Cap admissions, one of them at its very start. */
  ghost predicate Capped(es: seq<Entry>, requests: int) {
    forall s :: Tagged(es, s) <= Cap(requests) && Late(es, s) <= Cap(requests) - 1
  }

  ghost predicate WellTagged(es: seq<Entry>, requests: int, window: real) {
    Ordered(es, window) && Capped(es, requests)
  }

  /** The counter of the current window is the number of its admissions. */
  ghost predicate Current(k: Known, es: seq<Entry>, requests: int, window: real, clock: real) {
    && (k.Unknown? ==> es == [])
    && (k.Known? ==>
          && es != [] && es[|es| - 1].start == k.client.start <= clock && es[|es| - 1].time <= clock
          && k.client.count == Tagged(es, k.client.start) && Late(es, k.client.start) <= k.client.count - 1
          && 1 <= k.client.count <= Cap(requests))
  }

  lemma {:induction false} NotTagged(es: seq<Entry>, start: real)
    requires forall i :: 0 <= i < |es| ==> es[i].start < start
    ensures Tagged(es, start) == 0 && Late(es, start) == 0
  {
    if es != [] { NotTagged(es[..|es| - 1], start); }
  }

  lemma TaggedSnoc(es: seq<Entry>, e: Entry, start: real)
    ensures Tagged(es + [e], start) == Tagged(es, start) + (if e.start == start then 1 else 0)
    ensures Late(es + [e], start) == Late(es, start) + (if e.start == start && e.time > start then 1 else 0)
  {
  }

  lemma CappedSnoc(es: seq<Entry>, e: Entry, requests: int)
    requires Capped(es, requests)
    requires Tagged(es, e.start) < Cap(requests) && (e.time > e.start ==> Late(es, e.start) < Cap(requests) - 1)
    ensures Capped(es + [e], requests)
  {
  }

  lemma OrderedSnoc(es: seq<Entry>, e: Entry, window: real)
    requires Ordered(es, window) && e.start <= e.time <= e.start + window
    requires forall i :: 0 <= i < |es| ==> es[i].start <= e.start && es[i].time <= e.time
    requires forall i :: 0 <= i < |es| && es[i].start < e.start ==> es[i].start + window < e.start
    ensures Ordered(es + [e], window)
  {
  }

  /** The last admission has the latest window and time. */
  lemma LastIsLatest(es: seq<Entry>, window: real, i: nat)
    requires Ordered(es, window) && i < |es|
    ensures es[i].start <= es[|es| - 1].start && es[i].time <= es[|es| - 1].time
    ensures es[i].start < es[|es| - 1].start ==> es[i].start + window < es[|es| - 1].start
  {
  }

  /** An admission that opens a new window. */
  lemma OpensWindow(k: Known, es: seq<Entry>, requests: int, window: real, clock: real, now: real)
    requires WellTagged(es, requests, window) && Current(k, es, requests, window, clock)
    requires now >= clock && window >= 0.0 && Reopens(k, window, now)
    ensures WellTagged(es + [Entry(now, now)], requests, window)
    ensures Current(Known(Client(1, now)), es + [Entry(now, now)], requests, window, now)
  {
    hide Ordered;
    hide Capped;
    var e := Entry(now, now);
    forall i | 0 <= i < |es| ensures es[i].start + window < now && es[i].start < now && es[i].time <= now {
      LastIsLatest(es, window, i);
    }
    NotTagged(es, now);
    OrderedSnoc(es, e, window);
    CappedSnoc(es, e, requests);
    TaggedSnoc(es, e, now);
  }

  /** An admission that is counted in the current window. */
  lemma JoinsWindow(k: Known, es: seq<Entry>, requests: int, window: real, clock: real, now: real)
    requires WellTagged(es, requests, window) && Current(k, es, requests, window, clock)
    requires now >= clock && k.Known? && now - k.client.start <= window && k.client.count < requests
    ensures WellTagged(es + [Entry(now, k.client.start)], requests, window)
    ensures Current(Known(k.client.(count := k.client.count + 1)), es + [Entry(now, k.client.start)], requests, window,
                    now)
  {
    hide Ordered;
    hide Capped;
    var e := Entry(now, k.client.start);
    forall i | 0 <= i < |es|
      ensures es[i].start <= e.start && es[i].time <= now && (es[i].start < e.start ==> es[i].start + window < e.start)
    {
      LastIsLatest(es, window, i);
    }
    OrderedSnoc(es, e, window);
    CappedSnoc(es, e, requests);
    TaggedSnoc(es, e, e.start);
  }

  /** One ask keeps the log well tagged and the counter current. */
  lemma AskKeepsTags(k: Known, es: seq<Entry>, requests: int, window: real, clock: real, now: real)
    requires WellTagged(es, requests, window) && Current(k, es, requests, window, clock)
    requires now >= clock && window >= 0.0
    ensures WellTagged(es + Admission(k, requests, window, now), requests, window)
    ensures Current(Next(k, requests, window, now), es + Admission(k, requests, window, now), requests, window, now)
  {
    hide WellTagged;
    if Reopens(k, window, now) {
      OpensWindow(k, es, requests, window, clock, now);
    } else if k.client.count < requests {
      JoinsWindow(k, es, requests, window, clock, now);
    } else {
      assert es + [] == es;
    }
  }

  lemma StaysCurrent(k: Known, es: seq<Entry>, requests: int, window: real, clock: real, later: real)
    requires Current(k, es, requests, window, clock) && clock <= later
    ensures Current(k, es, requests, window, later)
  {
  }

  lemma NothingTagged(requests: int, window: real, clock: real)
    ensures WellTagged([], requests, window) && Current(Unknown, [], requests, window, clock)
  {
  }

  lemma {:induction false} ReferenceIsTagged(ops: seq<Op>, requests: int, window: real, key: string, clock: real)
    requires InOrder(ops) && window >= 0.0 && forall op :: op in ops ==> op.now <= clock
    ensures WellTagged(Reference(ops, requests, window, key), requests, window)
    ensures Current(RefState(ops, requests, window, key), Reference(ops, requests, window, key), requests, window,
                    clock)
  {
    hide WellTagged;
    hide Current;
    hide Admission;
    hide Next;
    NothingTagged(requests, window, clock);
    if ops != [] {
      hide InOrder;
      var n := |ops| - 1;
      var prefix, op := ops[..n], ops[n];
      Earlier(ops);
      ReferenceIsTagged(prefix, requests, window, key, op.now);
      var k, es := RefState(prefix, requests, window, key), Reference(prefix, requests, window, key);
      if op.Ask? && op.key == key {
        AskKeepsTags(k, es, requests, window, op.now, op.now);
      } else {
        assert es + [] == es;
      }
      StaysCurrent(RefState(ops, requests, window, key), Reference(ops, requests, window, key), requests, window,
                   op.now, clock);
    }
  }

  // ---------------------------------------------------------------- the bound

  ghost predicate Hit(e: Entry, from: real, window: real) {
    from <= e.time <= from + window
  }

  /** Hits in at most two windows, where those of the older one came after its start. */
  lemma {:induction false} TwoWindows(es: seq<Entry>, from: real, window: real, a: real, b: real)
    requires a != b
    requires forall i :: 0 <= i < |es| && Hit(es[i], from, window) ==>
               es[i].start == b || (es[i].start == a < es[i].time)
    ensures InWindow(es, from, window) <= Tagged(es, b) + Late(es, a)
  {
    if es != [] { TwoWindows(es[..|es| - 1], from, window, a, b); }
  }

  /**
   A closed interval of one window length never holds more than 2 * max(requests, 1) - 1 admissions:
   it meets at most two windows, and cannot reach back to the start of the first.
   */
  lemma {:induction false} AtMostTwice(es: seq<Entry>, requests: int, window: real, from: real)
    requires WellTagged(es, requests, window)
    ensures InWindow(es, from, window) <= 2 * Cap(requests) - 1
  {
    if es != [] {
      var n := |es| - 1;
      var b := es[n].start;
      if !Hit(es[n], from, window) {
        PrefixTagged(es, requests, window);
        AtMostTwice(es[..n], requests, window, from);
      } else if exists i :: 0 <= i < |es| && Hit(es[i], from, window) && es[i].start != b {
        var k :| 0 <= k < |es| && Hit(es[k], from, window) && es[k].start != b;
        forall i | 0 <= i < |es| && Hit(es[i], from, window) && es[i].start != b
          ensures es[i].start == es[k].start < es[i].time
        {
          SameOldWindow(es, requests, window, from, i, k);
        }
        TwoWindows(es, from, window, es[k].start, b);
      } else {
        OneWindow(es, from, window, b);
      }
    }
  }

  lemma PrefixTagged(es: seq<Entry>, requests: int, window: real)
    requires WellTagged(es, requests, window) && es != []
    ensures WellTagged(es[..|es| - 1], requests, window)
  {
    var p := es[..|es| - 1];
    forall s ensures Tagged(p, s) <= Cap(requests) && Late(p, s) <= Cap(requests) - 1 {
      assert Tagged(es, s) <= Cap(requests) && Late(es, s) <= Cap(requests) - 1;
    }
  }

  /** Two hits outside the last window fall into one window, after its start. */
  lemma SameOldWindow(es: seq<Entry>, requests: int, window: real, from: real, i: nat, k: nat)
    requires WellTagged(es, requests, window) && i < |es| && k < |es| && Hit(es[|es| - 1], from, window)
    requires Hit(es[i], from, window) && Hit(es[k], from, window)
    requires es[i].start != es[|es| - 1].start && es[k].start != es[|es| - 1].start
    ensures es[i].start == es[k].start < es[i].time
  {
  }

  /** Hits in a single window. */
  lemma {:induction false} OneWindow(es: seq<Entry>, from: real, window: real, b: real)
    requires forall i :: 0 <= i < |es| && Hit(es[i], from, window) ==> es[i].start == b
    ensures InWindow(es, from, window) <= Tagged(es, b)
  {
    if es != [] { OneWindow(es[..|es| - 1], from, window, b); }
  }

  /** Clean-ups never change a decision: the limiter admits what it would admit without them. */
  lemma LimiterIgnoresCleanups(ops: seq<Op>, requests: int, window: real, key: string)
    requires InOrder(ops) && window >= 0.0
    ensures Admitted(Asks(ops), requests, window, key) == Admitted(ops, requests, window, key)
  {
    hide Admitted;
    hide Reference;
    hide Asks;
    var end := if ops == [] then 0.0 else ops[|ops| - 1].now;
    AsksInOrder(ops);
    LimiterMatchesReference(ops, requests, window, key, end);
    LimiterMatchesReference(Asks(ops), requests, window, key, end);
    CleanupIsInvisible(ops, requests, window, key);
  }

  /** In every run in time order: fewer than 2 * max(requests, 1) admissions in any closed interval of one length. */
  lemma LimiterIsSound(ops: seq<Op>, requests: int, window: real, key: string, from: real)
    requires InOrder(ops) && window >= 0.0
    ensures InWindow(Admitted(ops, requests, window, key), from, window) <= 2 * Cap(requests) - 1
    ensures Admitted(Asks(ops), requests, window, key) == Admitted(ops, requests, window, key)
  {
    hide WellTagged;
    hide Admitted;
    var end := if ops == [] then 0.0 else ops[|ops| - 1].now;
    LimiterMatchesReference(ops, requests, window, key, end);
    ReferenceIsTagged(ops, requests, window, key, end);
    AtMostTwice(Reference(ops, requests, window, key), requests, window, from);
    LimiterIgnoresCleanups(ops, requests, window, key);
  }

  // ---------------------------------------------------------------- against the sliding window

  function Times(es: seq<Entry>): seq<real> {
    if es == [] then [] else Times(es[..|es| - 1]) + [es[|es| - 1].time]
  }

  /** Admissions in the half-open interval (from, from + window], as a sliding window counts them. */
  function Slid(es: seq<Entry>, from: real, window: real): nat {
    SlidingLimiter.InWindow(Times(es), from, window)
  }

  lemma SlidSnoc(es: seq<Entry>, e: Entry, from: real, window: real)
    ensures Slid(es + [e], from, window) == Slid(es, from, window) + (if from < e.time <= from + window then 1 else 0)
  {
    assert (es + [e])[..|es|] == es;
    var ts := Times(es);
    assert (ts + [e.time])[..|ts|] == ts;
  }

  /** The half-open interval holds no more than the closed one. */
  lemma {:induction false} SlidBelow(es: seq<Entry>, from: real, window: real)
    ensures Slid(es, from, window) <= InWindow(es, from, window)
  {
    if es != [] {
      var n := |es| - 1;
      SlidBelow(es[..n], from, window);
      assert es == es[..n] + [es[n]];
      SlidSnoc(es[..n], es[n], from, window);
    }
  }

  // ---------------------------------------------------------------- the bound is reached

  function Burst(key: string, now: real, n: nat): seq<Op> {
    if n == 0 then [] else Burst(key, now, n - 1) + [Ask(key, now)]
  }

  lemma Snoc(ops: seq<Op>, requests: int, window: real, key: string, now: real)
    ensures var k := Lookup(Run(ops, requests, window), key);
            && Lookup(Run(ops + [Ask(key, now)], requests, window), key) == Next(k, requests, window, now)
            && Admitted(ops + [Ask(key, now)], requests, window, key)
               == Admitted(ops, requests, window, key) + Admission(k, requests, window, now)
  {
  }

  lemma {:induction false} BurstInOrder(ops: seq<Op>, key: string, now: real, n: nat)
    requires InOrder(ops) && forall op :: op in ops ==> op.now <= now
    ensures InOrder(ops + Burst(key, now, n)) && forall op :: op in ops + Burst(key, now, n) ==> op.now <= now
  {
    if n == 0 {
      assert ops + [] == ops;
    } else {
      BurstInOrder(ops, key, now, n - 1);
      AppendInOrder(ops + Burst(key, now, n - 1), Ask(key, now));
      assert ops + Burst(key, now, n) == ops + Burst(key, now, n - 1) + [Ask(key, now)];
    }
  }

  /** A request within the allowance of the current window is admitted and counted. */
  lemma OneMore(ops: seq<Op>, requests: int, window: real, key: string, now: real, from: real, count: int, start: real)
    requires Lookup(Run(ops, requests, window), key) == Known(Client(count, start))
    requires now - start <= window && count < requests && from < now <= from + window
    ensures Lookup(Run(ops + [Ask(key, now)], requests, window), key) == Known(Client(count + 1, start))
    ensures Slid(Admitted(ops + [Ask(key, now)], requests, window, key), from, window)
            == Slid(Admitted(ops, requests, window, key), from, window) + 1
  {
    hide Admitted;
    hide Run;
    hide Slid;
    Snoc(ops, requests, window, key, now);
    SlidSnoc(Admitted(ops, requests, window, key), Entry(now, start), from, window);
  }

  /** A burst within the allowance of the current window is admitted entirely. */
  lemma {:induction false} BurstIsAdmitted(ops: seq<Op>, requests: int, window: real, key: string, now: real,
                                           from: real, count: int, start: real, n: nat)
    requires Lookup(Run(ops, requests, window), key) == Known(Client(count, start))
    requires now - start <= window && count + n <= requests && from < now <= from + window
    ensures Lookup(Run(ops + Burst(key, now, n), requests, window), key) == Known(Client(count + n, start))
    ensures Slid(Admitted(ops + Burst(key, now, n), requests, window, key), from, window)
            == Slid(Admitted(ops, requests, window, key), from, window) + n
  {
    hide Admitted;
    hide Run;
    hide Slid;
    if n == 0 {
      assert ops + Burst(key, now, n) == ops;
    } else {
      var before := ops + Burst(key, now, n - 1);
      BurstIsAdmitted(ops, requests, window, key, now, from, count, start, n - 1);
      OneMore(before, requests, window, key, now, from, count + n - 1, start);
      assert ops + Burst(key, now, n) == before + [Ask(key, now)];
    }
  }

  /** One ask, the rest of its window in a burst at its end, and the whole next window half a length later. */
  function TwoBursts(key: string, requests: nat, window: real): seq<Op>
    requires requests >= 1
  {
    [Ask(key, 0.0)] + Burst(key, window, requests - 1) + [Ask(key, window * 1.5)]
      + Burst(key, window * 1.5, requests - 1)
  }

  /** The bound is reached, for every limit: 2 * requests - 1 admissions in a half-open interval of one length. */
  lemma BoundIsReached(key: string, requests: int, window: real)
    requires requests >= 1 && window > 0.0
    ensures InOrder(TwoBursts(key, requests, window))
    ensures Slid(Admitted(TwoBursts(key, requests, window), requests, window, key), window * 0.75, window)
            == 2 * requests - 1
  {
    hide Burst;
    hide Admitted;
    hide Run;
    hide Slid;
    hide InOrder;
    var from, later := window * 0.75, window * 1.5;
    var one := [Ask(key, 0.0)];
    var two := one + Burst(key, window, requests - 1);
    var three := two + [Ask(key, later)];
    Opening(key, requests, window);
    BurstInOrder(one, key, window, requests - 1);
    BurstIsAdmitted(one, requests, window, key, window, from, 1, 0.0, requests - 1);
    Snoc(two, requests, window, key, later);
    SlidSnoc(Admitted(two, requests, window, key), Entry(later, later), from, window);
    AppendInOrder(two, Ask(key, later));
    BurstInOrder(three, key, later, requests - 1);
    BurstIsAdmitted(three, requests, window, key, later, from, 1, later, requests - 1);
  }

  lemma Opening(key: string, requests: int, window: real)
    requires window > 0.0
    ensures InOrder([Ask(key, 0.0)])
    ensures Lookup(Run([Ask(key, 0.0)], requests, window), key) == Known(Client(1, 0.0))
    ensures Slid(Admitted([Ask(key, 0.0)], requests, window, key), window * 0.75, window) == 0
  {
    assert [Ask(key, 0.0)][..0] == [];
    assert Admitted([Ask(key, 0.0)], requests, window, key) == [Entry(0.0, 0.0)];
    SlidSnoc([], Entry(0.0, 0.0), window * 0.75, window);
    assert [] + [Entry(0.0, 0.0)] == [Entry(0.0, 0.0)];
  }

  /** In no run in time order does a half-open interval of one window length hold more than the bound. */
  ghost predicate NeverAbove(requests: int, window: real, key: string, bound: int) {
    forall ops, from :: InOrder(ops) ==> Slid(Admitted(ops, requests, window, key), from, window) <= bound
  }

  /**
   The limiter keeps the bound of a sliding window with the same limit if and only if it admits
   one request per window: a higher limit is exceeded by two bursts, and a limit that is not
   positive by the first request.
   */
  lemma SlidingIff(requests: int, window: real, key: string)
    requires window > 0.0
    ensures NeverAbove(requests, window, key, SlidingLimiter.Allowance(requests)) <==> requests == 1
    ensures NeverAbove(requests, window, key, Cap(requests)) <==> requests <= 1
  {
    hide Slid;
    hide Admitted;
    if requests <= 1 {
      forall ops, from | InOrder(ops) ensures Slid(Admitted(ops, requests, window, key), from, window) <= 1 {
        LimiterIsSound(ops, requests, window, key, from);
        SlidBelow(Admitted(ops, requests, window, key), from, window);
      }
    } else {
      BoundIsReached(key, requests, window);
    }
    if requests <= 0 {
      FirstIsFree(key, 1.0, requests, window);
      assert InOrder([Ask(key, 1.0)]);
    }
  }

  /**
   The limiters still decide differently with a limit of one: a request exactly one window length
   after the first is admitted by the sliding window only.
   */
  lemma EdgeDiffers(key: string, window: real)
    requires window > 0.0
    ensures var ops := [Ask(key, 0.0), Ask(key, window)];
            && Admitted(ops, 1, window, key) == [Entry(0.0, 0.0)]
            && SlidingLimiter.Admitted(ops, 1, window, key) == [0.0, window]
  {
    var ops := [Ask(key, 0.0), Ask(key, window)];
    FirstIsFree(key, 0.0, 1, window);
    Opening(key, 1, window);
    assert ops == [Ask(key, 0.0)] + [Ask(key, window)];
    Snoc([Ask(key, 0.0)], 1, window, key, window);
    assert [Entry(0.0, 0.0)] + [] == [Entry(0.0, 0.0)];
    SlidingLimiter.FirstTwo(key, window);
  }

  /** The first request of a client is admitted whatever the limit, so a limit of zero does not close the door. */
  lemma FirstIsFree(key: string, now: real, requests: int, window: real)
    ensures Admitted([Ask(key, now)], requests, window, key) == [Entry(now, now)]
    ensures InWindow(Admitted([Ask(key, now)], requests, window, key), now, window) == if window >= 0.0 then 1 else 0
    ensures Slid(Admitted([Ask(key, now)], requests, window, key), now - window, window)
         == if window > 0.0 then 1 else 0
  {
    assert [Ask(key, now)][..0] == [] && [Entry(now, now)][..0] == [];
    SlidSnoc([], Entry(now, now), now - window, window);
    assert [] + [Entry(now, now)] == [Entry(now, now)];
  }

  // ---------------------------------------------------------------- the object

  class RateLimiter {
    var clients: Clients
    const requests: int
    const window: real

    constructor (requests: int, window: real)
      ensures clients == map[] && this.requests == requests && this.window == window
    {
      clients := map[];
      this.requests, this.window := requests, window;
    }

    method Allow(key: string, now: real) returns (ok: bool)
      modifies this
      ensures ok == Admits(Lookup(old(clients), key), requests, window, now)
      ensures clients == Step(old(clients), requests, window, Ask(key, now))
    {
      if key !in clients {
        clients := clients[key := Client(1, now)];
        return true;
      }
      var client := clients[key];
      if now - client.start > window {
        clients := clients[key := Client(1, now)];
        return true;
      }
      if client.count >= requests { return false; }
      clients := clients[key := client.(count := client.count + 1)];
      return true;
    }

    method Cleanup(now: real)
      modifies this
      ensures clients == Step(old(clients), requests, window, Clean(now))
      ensures forall k :: k in clients <==> k in old(clients) && now - old(clients)[k].start <= window + window
    {
      var rest := clients.Keys;
      while rest != {}
        invariant rest <= clients.Keys <= old(clients).Keys
        invariant forall k :: k in clients <==>
                    k in old(clients) && (k in rest || now - old(clients)[k].start <= window * 2.0)
        invariant forall k :: k in clients ==> clients[k] == old(clients)[k]
        decreases rest
      {
        var k :| k in rest;
        rest := rest - {k};
        if now - clients[k].start > window * 2.0 { clients := clients - {k}; }
      }
    }
  }
}
