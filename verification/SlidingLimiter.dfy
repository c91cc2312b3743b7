/**
 The sliding-window limiter of the authentication endpoints: per key, the times of the
 admitted requests that are still inside the window.
 */
module SlidingLimiter {
  import opened LimiterRuns

  type Requests = map<string, seq<real>>

  /** The times later than the cutoff, in order. */
  function Recent(ts: seq<real>, cutoff: real): (r: seq<real>)
    ensures |r| <= |ts|
  {
    if ts == [] then []
    else
      var n := |ts| - 1;
      Recent(ts[..n], cutoff) + (if ts[n] > cutoff then [ts[n]] else [])
  }

  function Stored(rs: Requests, key: string): seq<real> {
    if key in rs then rs[key] else []
  }

  predicate Admits(rs: Requests, limit: int, window: real, key: string, now: real) {
    |Recent(Stored(rs, key), now - window)| < limit
  }

  function Step(rs: Requests, limit: int, window: real, op: Op): Requests {
    match op
    case Ask(key, now) =>
      if Admits(rs, limit, window, key, now) then rs[key := Recent(Stored(rs, key), now - window) + [now]] else rs
    case Clean(now) =>
      map key | key in rs && Recent(rs[key], now - window) != [] :: Recent(rs[key], now - window)
  }

  function Run(ops: seq<Op>, limit: int, window: real): Requests {
    if ops == [] then map[] else Step(Run(ops[..|ops| - 1], limit, window), limit, window, ops[|ops| - 1])
  }

  /** The admission times of a key over a run of the limiter. */
  function Admitted(ops: seq<Op>, limit: int, window: real, key: string): seq<real> {
    if ops == [] then []
    else
      var n := |ops| - 1;
      var op := ops[n];
      Admitted(ops[..n], limit, window, key)
      + (if op.Ask? && op.key == key && Admits(Run(ops[..n], limit, window), limit, window, key, op.now) then [op.now]
         else [])
  }

  /** The same, decided from the complete admission history; clean-ups play no part. */
  function Reference(ops: seq<Op>, limit: int, window: real, key: string): seq<real> {
    if ops == [] then []
    else
      var n := |ops| - 1;
      var before, op := Reference(ops[..n], limit, window, key), ops[n];
      before + (if op.Ask? && op.key == key && |Recent(before, op.now - window)| < limit then [op.now] else [])
  }

  // ---------------------------------------------------------------- filtering

  lemma RecentSnoc(ts: seq<real>, t: real, c: real)
    ensures Recent(ts + [t], c) == Recent(ts, c) + (if t > c then [t] else [])
  {
  }

  lemma {:induction false} RecentTwice(ts: seq<real>, c: real, c': real)
    requires c <= c'
    ensures Recent(Recent(ts, c), c') == Recent(ts, c')
  {
    if ts != [] {
      var n := |ts| - 1;
      RecentTwice(ts[..n], c, c');
      var front := Recent(ts[..n], c);
      if ts[n] > c {
        RecentSnoc(front, ts[n], c');
      } else {
        assert front + [] == front && Recent(front, c') + [] == Recent(front, c');
      }
    }
  }

  // ---------------------------------------------------------------- the stored times suffice

  /** From now on, the stored times answer every question as the full history does. */
  ghost predicate Faithful(stored: seq<real>, history: seq<real>, window: real, clock: real) {
    forall c :: c >= clock - window ==> Recent(stored, c) == Recent(history, c)
  }

  lemma FaithfulRefilter(stored: seq<real>, history: seq<real>, window: real, clock: real, now: real)
    requires Faithful(stored, history, window, clock) && now >= clock
    ensures Faithful(Recent(stored, now - window), history, window, now)
  {
    forall c | c >= now - window ensures Recent(Recent(stored, now - window), c) == Recent(history, c) {
      RecentTwice(stored, now - window, c);
    }
  }

  lemma FaithfulSnoc(stored: seq<real>, history: seq<real>, window: real, clock: real, t: real)
    requires Faithful(stored, history, window, clock)
    ensures Faithful(stored + [t], history + [t], window, clock)
  {
  }

  lemma StepKeepsFaith(rs: Requests, limit: int, window: real, op: Op, key: string, history: seq<real>, clock: real)
    requires Faithful(Stored(rs, key), history, window, clock) && op.now >= clock
    ensures var admitted := op.Ask? && op.key == key && Admits(rs, limit, window, key, op.now);
            var next := if admitted then history + [op.now] else history;
            Faithful(Stored(Step(rs, limit, window, op), key), next, window, op.now)
  {
    hide Recent;
    FaithfulRefilter(Stored(rs, key), history, window, clock, op.now);
    if op.Ask? && op.key == key && Admits(rs, limit, window, key, op.now) {
      FaithfulSnoc(Recent(Stored(rs, key), op.now - window), history, window, op.now, op.now);
    } else if op.Clean? {
      CleanStored(rs, limit, window, op, key);
    }
  }

  lemma CleanStored(rs: Requests, limit: int, window: real, op: Op, key: string)
    requires op.Clean?
    ensures Stored(Step(rs, limit, window, op), key) == Recent(Stored(rs, key), op.now - window)
  {
  }

  lemma ReferenceSnoc(ops: seq<Op>, op: Op, limit: int, window: real, key: string)
    ensures var before := Reference(ops, limit, window, key);
            Reference(ops + [op], limit, window, key)
            == if op.Ask? && op.key == key && |Recent(before, op.now - window)| < limit then before + [op.now]
                else before
  {
  }

  lemma AdmittedSnoc(ops: seq<Op>, op: Op, limit: int, window: real, key: string)
    ensures var before := Admitted(ops, limit, window, key);
            Admitted(ops + [op], limit, window, key)
            == if op.Ask? && op.key == key && Admits(Run(ops, limit, window), limit, window, key, op.now)
               then before + [op.now] else before
    ensures Run(ops + [op], limit, window) == Step(Run(ops, limit, window), limit, window, op)
  {
  }

  /**
   In every run in time order the limiter decides exactly as the reference that remembers
   everything and never cleans up.
   */
  lemma {:induction false} LimiterMatchesReference(ops: seq<Op>, limit: int, window: real, key: string, clock: real)
    requires InOrder(ops) && forall op :: op in ops ==> op.now <= clock
    ensures Admitted(ops, limit, window, key) == Reference(ops, limit, window, key)
    ensures Faithful(Stored(Run(ops, limit, window), key), Admitted(ops, limit, window, key), window, clock)
  {
    if ops != [] {
      hide Recent;
      hide Step;
      hide Run;
      hide Admitted;
      hide Reference;
      var n := |ops| - 1;
      var prefix, op := ops[..n], ops[n];
      var rs, history := Run(prefix, limit, window), Admitted(prefix, limit, window, key);
      assert ops == prefix + [op] && op in ops;
      Earlier(ops);
      LimiterMatchesReference(prefix, limit, window, key, op.now);
      AdmittedSnoc(prefix, op, limit, window, key);
      ReferenceSnoc(prefix, op, limit, window, key);
      StepKeepsFaith(rs, limit, window, op, key, history, op.now);
      assert Recent(Stored(rs, key), op.now - window) == Recent(history, op.now - window);
      FaithfulLater(Stored(Run(ops, limit, window), key), Admitted(ops, limit, window, key), window, op.now, clock);
    }
  }

  lemma FaithfulLater(stored: seq<real>, history: seq<real>, window: real, clock: real, now: real)
    requires Faithful(stored, history, window, clock) && now >= clock
    ensures Faithful(stored, history, window, now)
  {
  }

  /** The reference is that of the asks alone. */
  lemma {:induction false} CleanupIsInvisible(ops: seq<Op>, limit: int, window: real, key: string)
    ensures Reference(Asks(ops), limit, window, key) == Reference(ops, limit, window, key)
  {
    hide Recent;
    hide Reference;
    hide Asks;
    if ops == [] {
      NoAsks();
    } else {
      var n := |ops| - 1;
      assert ops == ops[..n] + [ops[n]];
      CleanupIsInvisible(ops[..n], limit, window, key);
      AsksSnoc(ops[..n], ops[n]);
      ReferenceSnoc(ops[..n], ops[n], limit, window, key);
      if ops[n].Ask? { ReferenceSnoc(Asks(ops[..n]), ops[n], limit, window, key); }
    }
  }

  // ---------------------------------------------------------------- the bound

  /** Admissions in the half-open interval (start, start + window]. */
  function InWindow(ts: seq<real>, start: real, window: real): nat {
    if ts == [] then 0
    else InWindow(ts[..|ts| - 1], start, window) + (if start < ts[|ts| - 1] <= start + window then 1 else 0)
  }

  /** The bound of a sliding window: a limit that is not positive admits nothing. */
  function Allowance(limit: int): nat {
    if limit > 0 then limit else 0
  }

  lemma {:induction false} InWindowIsRecent(ts: seq<real>, start: real, window: real, cutoff: real)
    requires cutoff <= start
    ensures InWindow(ts, start, window) <= |Recent(ts, cutoff)|
  {
    if ts != [] { InWindowIsRecent(ts[..|ts| - 1], start, window, cutoff); }
  }

  /** No half-open interval of one window length ever holds more than limit admissions of a key. */
  lemma {:induction false} AtMostLimit(ops: seq<Op>, limit: int, window: real, key: string, start: real)
    ensures InWindow(Reference(ops, limit, window, key), start, window) <= Allowance(limit)
  {
    if ops != [] {
      var n := |ops| - 1;
      var before, after, op := Reference(ops[..n], limit, window, key), Reference(ops, limit, window, key), ops[n];
      AtMostLimit(ops[..n], limit, window, key, start);
      if after != before {
        assert after[..|before|] == before;
        if start < op.now <= start + window { InWindowIsRecent(before, start, window, op.now - window); }
      }
    }
  }

  /** In every run in time order: at most limit admissions per window, and the same ones without any clean-up. */
  lemma LimiterIsSound(ops: seq<Op>, limit: int, window: real, key: string, start: real)
    requires InOrder(ops)
    ensures InWindow(Admitted(ops, limit, window, key), start, window) <= Allowance(limit)
    ensures Admitted(Asks(ops), limit, window, key) == Admitted(ops, limit, window, key)
  {
    hide Admitted;
    hide Reference;
    hide Asks;
    var end := if ops == [] then 0.0 else ops[|ops| - 1].now;
    AsksInOrder(ops);
    LimiterMatchesReference(ops, limit, window, key, end);
    LimiterMatchesReference(Asks(ops), limit, window, key, end);
    CleanupIsInvisible(ops, limit, window, key);
    AtMostLimit(ops, limit, window, key, start);
  }

  lemma RecentOne(t: real, cutoff: real)
    ensures Recent([], cutoff) == [] && Recent([t], cutoff) == if t > cutoff then [t] else []
  {
    assert [t][..0] == [];
  }

  lemma NoReference(limit: int, window: real, key: string)
    ensures Reference([], limit, window, key) == []
  {
  }

  /** A limit of one admits two requests exactly one window length apart. */
  lemma FirstTwo(key: string, window: real)
    requires window > 0.0
    ensures Admitted([Ask(key, 0.0), Ask(key, window)], 1, window, key) == [0.0, window]
  {
    hide Recent;
    hide Reference;
    hide Admitted;
    hide Run;
    hide Faithful;
    var one, two := [Ask(key, 0.0)], [Ask(key, 0.0), Ask(key, window)];
    assert [] + [Ask(key, 0.0)] == one && one + [Ask(key, window)] == two;
    NoReference(1, window, key);
    ReferenceSnoc([], Ask(key, 0.0), 1, window, key);
    ReferenceSnoc(one, Ask(key, window), 1, window, key);
    RecentOne(0.0, 0.0 - window);
    assert Reference(one, 1, window, key) == [0.0];
    RecentOne(0.0, window - window);
    assert Reference(two, 1, window, key) == [0.0, window];
    assert InOrder(two);
    LimiterMatchesReference(two, 1, window, key, window);
  }

  // ---------------------------------------------------------------- the object

  class RateLimiter {
    var requests: Requests
    const limit: int
    const window: real

    constructor (limit: int, window: real)
      ensures requests == map[] && this.limit == limit && this.window == window
    {
      requests := map[];
      this.limit, this.window := limit, window;
    }

    method Filter(ts: seq<real>, cutoff: real) returns (recent: seq<real>)
      ensures recent == Recent(ts, cutoff)
    {
      recent := [];
      for i := 0 to |ts|
        invariant recent == Recent(ts[..i], cutoff)
      {
        assert ts[..i + 1][..i] == ts[..i];
        if ts[i] > cutoff { recent := recent + [ts[i]]; }
      }
      assert ts[..|ts|] == ts;
    }

    method Allow(key: string, now: real) returns (ok: bool)
      modifies this
      ensures ok == Admits(old(requests), limit, window, key, now)
      ensures requests == Step(old(requests), limit, window, Ask(key, now))
    {
      var cutoff := now - window;
      var recent := Filter(if key in requests then requests[key] else [], cutoff);
      if |recent| >= limit { return false; }
      requests := requests[key := recent + [now]];
      return true;
    }

    method Cleanup(now: real)
      modifies this
      ensures requests == Step(old(requests), limit, window, Clean(now))
    {
      hide Recent;
      var cutoff := now - window;
      var rest := requests.Keys;
      while rest != {}
        invariant rest <= old(requests).Keys
        invariant forall k :: k in rest ==> k in requests && requests[k] == old(requests)[k]
        invariant forall k :: k in requests && k !in rest <==>
                    k in old(requests) && k !in rest && Recent(old(requests)[k], cutoff) != []
        invariant forall k :: k in requests && k !in rest ==> requests[k] == Recent(old(requests)[k], cutoff)
        decreases rest
      {
        var k :| k in rest;
        rest := rest - {k};
        var recent := Filter(requests[k], cutoff);
        if recent == [] { requests := requests - {k}; } else { requests := requests[k := recent]; }
      }
    }
  }
}
