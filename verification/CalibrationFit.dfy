/**
 The reference powers the calibrator serves are values cached at the last recorded point.
 They are compared with a fit over the points that are fresh when the value is served.
 */
module CalibrationFit {
  import opened RealMath
  import opened Sequences
  import Median
  import opened CalibrationWindow

  function Newest(log: seq<Point>): Point
    requires log != []
  {
    log[|log| - 1]
  }

  /** The fit over the last 200 points of a log at the time of its newest point. */
  function Cached(log: seq<Point>): real
    requires log != []
  {
    Fit(Last(log, MAX_POINTS), Newest(log).time)
  }

  // ---------------------------------------------------------------- what is served

  /** Every value that may be served is the fit at the newest point of its log. */
  ghost predicate FitsFollow(c: Cal, log: seq<Point>) {
    && (|c.points| >= MIN_POINTS ==> log != [] && c.live == Cached(log))
    && forall tap :: |TapWindow(c, tap)| >= MIN_POINTS ==>
         tap in c.fits && OfTap(log, tap) != [] && c.fits[tap] == Cached(OfTap(log, tap))
  }

  /** Fitting a window is fitting the end of its log. */
  lemma FitOfWindow(w: seq<Point>, log: seq<Point>, clock: real, now: real)
    requires WindowOf(w, log, clock) && now >= clock
    ensures Fit(w, now) == Fit(Last(log, MAX_POINTS), now)
  {
    hide WindowOf;
    WindowEqualsRecomputation(w, log, clock, now);
  }

  lemma NewestOfSnoc(log: seq<Point>, p: Point)
    ensures Newest(log + [p]) == p
  {
  }

  lemma RecordKeepsFits(c: Cal, log: seq<Point>, clock: real, p: Point)
    requires Tracks(c, log, clock) && FitsFollow(c, log) && p.time >= clock
    ensures FitsFollow(Record(c, p), log + [p])
  {
    hide WindowOf;
    hide OfTap;
    hide Last;
    hide Fit;
    hide Newest;
    var after := Record(c, p);
    RecordKeepsTracks(c, log, clock, p);
    NewestOfSnoc(log, p);
    FitOfWindow(after.points, log + [p], p.time, p.time);
    forall tap | |TapWindow(after, tap)| >= MIN_POINTS
      ensures tap in after.fits && OfTap(log + [p], tap) != [] && after.fits[tap] == Cached(OfTap(log + [p], tap))
    {
      OfTapSnoc(log, p, tap);
      if tap == p.tap {
        NewestOfSnoc(OfTap(log, tap), p);
        FitOfWindow(TapWindow(after, tap), OfTap(log + [p], tap), p.time, p.time);
      } else {
        assert OfTap(log, tap) + [] == OfTap(log, tap);
      }
    }
  }

  lemma PruneKeepsFits(ms: Models, model: string, log: seq<Point>, now: real)
    requires FitsFollow(CalOf(ms, model), log)
    ensures FitsFollow(CalOf(Prune(ms, now), model), log)
  {
    hide Cached;
    hide OfTap;
    hide FreshOnly;
    if model in Prune(ms, now) {
      var c := ms[model];
      forall tap ensures TapWindow(PruneCal(c, now), tap) == FreshOnly(TapWindow(c, tap), now) {
        PrunedTapWindow(c, tap, now);
      }
    }
  }

  lemma {:induction false} RunKeepsFits(events: seq<Event>, model: string, now: real)
    requires InOrder(events) && forall e :: e in events ==> TimeOf(e) <= now
    ensures FitsFollow(CalOf(Run(events), model), LogOf(events, model))
  {
    hide Tracks;
    hide Record;
    hide Prune;
    hide FitsFollow;
    if events == [] {
      NothingFitted();
    } else {
      hide Run;
      hide LogOf;
      var n := |events| - 1;
      var prefix, e := events[..n], events[n];
      var ms, log := Run(prefix), LogOf(prefix, model);
      assert e in events;
      forall x | x in prefix ensures TimeOf(x) <= TimeOf(e) {
        var i :| 0 <= i < n && prefix[i] == x;
      }
      RunKeepsFits(prefix, model, TimeOf(e));
      RunKeepsWindows(prefix, model, TimeOf(e));
      RunStep(events, model);
      if e.Pruned? {
        PruneKeepsFits(ms, model, log, e.now);
      } else if e.model == model {
        RecordKeepsFits(CalOf(ms, model), log, e.point.time, e.point);
      }
    }
  }

  lemma NothingFitted()
    ensures FitsFollow(NEW_MODEL, [])
  {
  }

  /**
   After any run in time order a caller is served, by priority: the fit over the tap's last 200 points at the time of
   the newest of them if the tap's window has five points, the same over all taps, the static value of the model, or
   the generic one.
   */
  lemma ServedIsCached(events: seq<Event>, model: string, tap: string, offsets: map<string, real>, now: real)
    requires InOrder(events) && forall e :: e in events ==> TimeOf(e) <= now
    ensures var c, log := CalOf(Run(events), model), LogOf(events, model);
            var served := Served(Run(events), model, tap, offsets);
            if model != "" && tap != "" && |TapWindow(c, tap)| >= MIN_POINTS
            then OfTap(log, tap) != [] && served == (Cached(OfTap(log, tap)), "live_tap")
            else if model != "" && |c.points| >= MIN_POINTS then log != [] && served == (Cached(log), "live_all")
            else if model != "" && model in offsets then served == (offsets[model] + 18.4, "static_model")
            else served == (17.0, "generic")
  {
    hide Run;
    hide LogOf;
    hide Cached;
    hide OfTap;
    RunKeepsFits(events, model, now);
  }

  // ---------------------------------------------------------------- when that is the current fit

  /** No point that was fresh at the newest one has become stale. */
  ghost predicate NothingExpired(log: seq<Point>, now: real)
    requires log != []
  {
    forall p :: p in Last(log, MAX_POINTS) && Fresh(p, Newest(log).time) ==> Fresh(p, now)
  }

  lemma {:induction false} SameFresh(s: seq<Point>, t: real, now: real)
    requires t <= now && forall p :: p in s && Fresh(p, t) ==> Fresh(p, now)
    ensures FreshOnly(s, t) == FreshOnly(s, now)
  {
    if s != [] { SameFresh(s[1..], t, now); }
  }

  /** If nothing has expired, the served value is the fit over the points that are fresh now. */
  lemma CacheIsCurrent(log: seq<Point>, now: real)
    requires log != [] && now >= Newest(log).time && NothingExpired(log, now)
    ensures Cached(log) == Fit(Last(log, MAX_POINTS), now)
  {
    SameFresh(Last(log, MAX_POINTS), Newest(log).time, now);
  }

  /** The same points with readings that rise by step from one point of the window to the next. */
  function Rising(log: seq<Point>, base: real, step: real): (r: seq<Point>)
    ensures |r| == |log|
    ensures forall i :: 0 <= i < |log| ==> r[i] == log[i].(rssi0 := base + Times(step, Place(log, i) as real))
  {
    seq(|log|, i requires 0 <= i < |log| => log[i].(rssi0 := base + Times(step, Place(log, i) as real)))
  }

  /** The place of a point in the window; the points before it have place 0. */
  function Place(log: seq<Point>, i: nat): (k: nat)
    requires i < |log|
    ensures k < MAX_POINTS
  {
    if i + MAX_POINTS < |log| then 0 else if |log| <= MAX_POINTS then i else i - (|log| - MAX_POINTS)
  }

  ghost predicate SameTimes(log: seq<Point>, other: seq<Point>) {
    |other| == |log| && forall i :: 0 <= i < |log| ==> other[i].time == log[i].time && other[i].tap == log[i].tap
  }

  /** All readings lie between lo and hi. */
  ghost predicate InBand(log: seq<Point>, lo: real, hi: real) {
    forall p :: p in log ==> lo <= p.rssi0 <= hi
  }

  ghost predicate RisesFrom(r: seq<Point>, base: real, step: real) {
    forall i :: 0 <= i < |r| ==> r[i].rssi0 == base + Times(step, i as real)
  }

  lemma RiseIsMonotone(step: real, x: real, y: real)
    requires step >= 0.0 && x <= y
    ensures Times(step, x) <= Times(step, y)
  {
    TimesMonotone(x, y, step);
    TimesCommutes(x, step);
    TimesCommutes(y, step);
  }

  lemma RiseHalf(step: real, x: real)
    ensures (Times(step, x - 0.5) + Times(step, x + 0.5)) / 2.0 == Times(step, x)
  {
  }

  /** The median of the last k rising readings, k > 0. */
  lemma RisingMedian(r: seq<Point>, base: real, step: real, k: nat)
    requires 0 < k <= |r| && RisesFrom(r, base, step) && step >= 0.0
    ensures Median.MedianOf(Values(r[|r| - k..])) == base + Times(step, |r| as real - (k as real + 1.0) / 2.0)
  {
    hide Times;
    var vs := Values(r[|r| - k..]);
    forall i | 0 <= i < k ensures vs[i] == base + Times(step, (|r| - k + i) as real) {
      assert r[|r| - k..][i] == r[|r| - k + i];
    }
    forall i, j | 0 <= i <= j < k ensures vs[i] <= vs[j] {
      RiseIsMonotone(step, (|r| - k + i) as real, (|r| - k + j) as real);
    }
    Median.MedianOfSorted(vs);
    Halves(k);
    var mid := |r| as real - (k as real + 1.0) / 2.0;
    if k % 2 == 0 {
      RiseHalf(step, mid);
      assert (|r| - k + (k / 2 - 1)) as real == mid - 0.5;
      assert (|r| - k + k / 2) as real == mid + 0.5;
    } else {
      assert (|r| - k + k / 2) as real == mid;
    }
  }

  lemma Halves(k: nat)
    ensures k % 2 == 0 ==> (k / 2) as real == k as real / 2.0
    ensures k % 2 == 1 ==> (k / 2) as real == (k as real - 1.0) / 2.0
  {
    assert k == 2 * (k / 2) + k % 2;
  }

  lemma FreshSuffixOf(r: seq<Point>, now: real)
    requires Chronological(r)
    ensures var f := FreshOnly(r, now);
            |f| <= |r| && f == r[|r| - |f|..]
  {
    FreshIsSuffix(r, now);
  }

  /** The fit of rising readings tells how many of them are fresh. */
  lemma RisingFit(r: seq<Point>, base: real, step: real, now: real)
    requires Chronological(r) && RisesFrom(r, base, step) && step >= 0.0
    ensures var k := |FreshOnly(r, now)|;
            Fit(r, now)
            == if k == 0 then GENERIC_RSSI0 else base + Times(step, |r| as real - (k as real + 1.0) / 2.0)
  {
    hide Times;
    hide FreshOnly;
    hide RisesFrom;
    hide Chronological;
    hide Median.MedianOf;
    FreshSuffixOf(r, now);
    var f := FreshOnly(r, now);
    if f != [] {
      RisingMedian(r, base, step, |f|);
      assert Fit(r, now) == Median.MedianOf(Values(f));
    }
  }

  /** When a point expires, fewer are fresh. */
  lemma FewerFresh(r: seq<Point>, t: real, now: real, p: Point)
    requires Chronological(r) && t <= now && p in r && Fresh(p, t) && !Fresh(p, now)
    ensures |FreshOnly(r, now)| < |FreshOnly(r, t)|
  {
    FreshIsSuffix(r, t);
    FreshIsSuffix(r, now);
    var a, b := |FreshOnly(r, t)|, |FreshOnly(r, now)|;
    var i :| 0 <= i < |r| && r[i] == p;
    assert i >= |r| - a;
    assert p in FreshOnly(r, t) && p !in FreshOnly(r, now);
  }

  lemma WindowOfRising(log: seq<Point>, base: real, step: real)
    ensures RisesFrom(Last(Rising(log, base, step), MAX_POINTS), base, step)
  {
    hide Times;
    var r := Rising(log, base, step);
    var w := Last(r, MAX_POINTS);
    forall i | 0 <= i < |w| ensures w[i].rssi0 == base + Times(step, i as real) {
      var j := |r| - |w| + i;
      assert w[i] == r[j];
      assert Place(log, j) == i;
    }
  }

  lemma RisingInBand(log: seq<Point>, lo: real, hi: real)
    requires lo < hi
    ensures InBand(Rising(log, lo, (hi - lo) / 200.0), lo, hi)
  {
    hide Times;
    hide Place;
    var step := (hi - lo) / 200.0;
    var r := Rising(log, lo, step);
    forall p | p in r ensures lo <= p.rssi0 <= hi {
      var i :| 0 <= i < |r| && r[i] == p;
      StepInBand(lo, hi, Place(log, i) as real);
    }
  }

  lemma StepInBand(lo: real, hi: real, x: real)
    requires lo < hi && 0.0 <= x <= 200.0
    ensures lo <= lo + Times((hi - lo) / 200.0, x) <= hi
  {
    var step := (hi - lo) / 200.0;
    RiseIsMonotone(step, 0.0, x);
    RiseIsMonotone(step, x, 200.0);
  }

  /** Whatever was read at these times within the band, the cached fit is the current one. */
  ghost predicate AlwaysCurrent(log: seq<Point>, now: real, lo: real, hi: real)
    requires log != []
  {
    forall other :: SameTimes(log, other) && InBand(other, lo, hi) ==>
      other != [] && Cached(other) == Fit(Last(other, MAX_POINTS), now)
  }

  /** A point of the window that has expired, and its rising counterpart. */
  lemma ExpiredRising(log: seq<Point>, now: real, base: real, step: real) returns (q: Point)
    requires log != [] && !NothingExpired(log, now)
    ensures q in Last(Rising(log, base, step), MAX_POINTS) && Fresh(q, Newest(log).time) && !Fresh(q, now)
  {
    hide Times;
    var w, rw := Last(log, MAX_POINTS), Last(Rising(log, base, step), MAX_POINTS);
    var p :| p in w && Fresh(p, Newest(log).time) && !Fresh(p, now);
    var i :| 0 <= i < |w| && w[i] == p;
    q := rw[i];
  }

  lemma RisingChronological(log: seq<Point>, base: real, step: real)
    requires Chronological(log)
    ensures Chronological(Last(Rising(log, base, step), MAX_POINTS))
    ensures log != [] ==> Newest(Rising(log, base, step)).time == Newest(log).time
  {
    hide Times;
    hide Place;
  }

  lemma RiseIsStrict(step: real, n: nat, k: nat, j: nat)
    requires step > 0.0 && j < k
    ensures Times(step, n as real - (k as real + 1.0) / 2.0) < Times(step, n as real - (j as real + 1.0) / 2.0)
  {
    var x, y := n as real - (k as real + 1.0) / 2.0, n as real - (j as real + 1.0) / 2.0;
    MulStrictlyMonotone(x, y, step);
  }

  /** Rising readings in a band without the generic value give an expired point away. */
  lemma RisingDiffers(log: seq<Point>, now: real, lo: real, hi: real)
    requires log != [] && Chronological(log) && now >= Newest(log).time && !NothingExpired(log, now)
    requires lo < hi && !(lo <= GENERIC_RSSI0 <= hi)
    ensures var r := Rising(log, lo, (hi - lo) / 200.0);
            Cached(r) != Fit(Last(r, MAX_POINTS), now)
  {
    hide Fit;
    hide FreshOnly;
    hide Last;
    hide Newest;
    hide NothingExpired;
    hide Chronological;
    hide RisesFrom;
    hide Times;
    var step := (hi - lo) / 200.0;
    var t, rw := Newest(log).time, Last(Rising(log, lo, step), MAX_POINTS);
    var q := ExpiredRising(log, now, lo, step);
    RisingChronological(log, lo, step);
    WindowOfRising(log, lo, step);
    RisingFit(rw, lo, step, t);
    RisingFit(rw, lo, step, now);
    FewerFresh(rw, t, now, q);
    var n, k, j := |rw|, |FreshOnly(rw, t)|, |FreshOnly(rw, now)|;
    RiseIsStrict(step, n, k, j);
    StepInBand(lo, hi, n as real - (k as real + 1.0) / 2.0);
  }

  /** Every band holds one without the generic value. */
  lemma SubBand(lo: real, hi: real) returns (l: real, h: real)
    requires lo < hi
    ensures lo <= l < h <= hi && !(l <= GENERIC_RSSI0 <= h)
  {
    var mid := (lo + hi) / 2.0;
    if mid > GENERIC_RSSI0 { l, h := mid, hi; } else { l, h := lo, (lo + mid) / 2.0; }
  }

  /**
   The cached fit is surely the fit over the points that are fresh now if and only if no point that was
   fresh at the newest one has expired since; this holds however narrow the band of readings is.
   */
  lemma CacheIsCurrentIff(log: seq<Point>, now: real, lo: real, hi: real)
    requires log != [] && Chronological(log) && now >= Newest(log).time && lo < hi
    ensures AlwaysCurrent(log, now, lo, hi) <==> NothingExpired(log, now)
  {
    hide Cached;
    hide Fit;
    hide Times;
    if NothingExpired(log, now) {
      forall other | SameTimes(log, other) && InBand(other, lo, hi)
        ensures other != [] && Cached(other) == Fit(Last(other, MAX_POINTS), now)
      {
        SameExpiry(log, other, now);
        CacheIsCurrent(other, now);
      }
    } else {
      var l, h := SubBand(lo, hi);
      RisingDiffers(log, now, l, h);
      RisingInBand(log, l, h);
      var r := Rising(log, l, (h - l) / 200.0);
      assert SameTimes(log, r) && InBand(r, lo, hi);
    }
  }

  lemma SameExpiry(log: seq<Point>, other: seq<Point>, now: real)
    requires log != [] && SameTimes(log, other) && NothingExpired(log, now)
    ensures other != [] && Newest(other).time == Newest(log).time && NothingExpired(other, now)
  {
    var w, v := Last(log, MAX_POINTS), Last(other, MAX_POINTS);
    forall p | p in v && Fresh(p, Newest(other).time) ensures Fresh(p, now) {
      var i :| 0 <= i < |v| && v[i] == p;
      assert w[i] in w && w[i].time == p.time;
    }
  }

  // ---------------------------------------------------------------- a stale value is served

  /** One point at the start, five more ten seconds later, and a prune when the first one is too old. */
  function StaleRun(): seq<Event> {
    [Recorded("m", Point(20.0, "t", 0.0)), Recorded("m", Point(21.0, "t", 10.0)), Recorded("m", Point(22.0, "t", 10.0)),
     Recorded("m", Point(23.0, "t", 10.0)), Recorded("m", Point(24.0, "t", 10.0)),
     Recorded("m", Point(25.0, "t", 10.0)), Pruned(86405.0)]
  }

  function StaleLog(): seq<Point> {
    [Point(20.0, "t", 0.0), Point(21.0, "t", 10.0), Point(22.0, "t", 10.0),
     Point(23.0, "t", 10.0), Point(24.0, "t", 10.0), Point(25.0, "t", 10.0)]
  }

  lemma {:induction false} LogOfRecords(events: seq<Event>, model: string, log: seq<Point>)
    requires |events| == |log| && forall i :: 0 <= i < |log| ==> events[i] == Recorded(model, log[i])
    ensures LogOf(events, model) == log
  {
    if events != [] {
      var n := |log| - 1;
      LogOfRecords(events[..n], model, log[..n]);
      assert log == log[..n] + [log[n]];
    }
  }

  lemma {:induction false} OfTapAll(log: seq<Point>, tap: string)
    requires forall p :: p in log ==> p.tap == tap
    ensures OfTap(log, tap) == log
  {
    if log != [] { OfTapAll(log[1..], tap); }
  }

  lemma StaleLogs()
    ensures LogOf(StaleRun(), "m") == StaleLog() == OfTap(StaleLog(), "t")
  {
    var events, log := StaleRun(), StaleLog();
    LogOfRecords(events[..6], "m", log);
    assert LogOf(events, "m") == log + [];
    OfTapAll(log, "t");
  }

  lemma FreshButFirst(log: seq<Point>, now: real)
    requires log != [] && !Fresh(log[0], now) && forall i :: 1 <= i < |log| ==> Fresh(log[i], now)
    ensures FreshOnly(log, now) == log[1..]
  {
    FreshAll(log[1..], now);
  }

  /** Six rising readings, the first of which expires. */
  lemma SixRising(log: seq<Point>, base: real, t: real, now: real)
    requires Chronological(log) && RisesFrom(log, base, 1.0) && |log| == 6 && Newest(log).time == t <= now
    requires Fresh(log[0], t) && !Fresh(log[0], now) && forall i :: 1 <= i < |log| ==> Fresh(log[i], now)
    ensures Cached(log) == base + 2.5 && Fit(Last(log, MAX_POINTS), now) == base + 3.0
  {
    hide Fit;
    hide FreshOnly;
    assert Last(log, MAX_POINTS) == log;
    RisingFit(log, base, 1.0, t);
    RisingFit(log, base, 1.0, now);
    FreshAll(log, t);
    FreshButFirst(log, now);
  }

  /** A run whose log of one tap has lost at most its first point serves the cached fit of the whole log. */
  lemma ServedAfterLoss(events: seq<Event>, log: seq<Point>, model: string, tap: string, offsets: map<string, real>,
                        now: real)
    requires InOrder(events) && (forall e :: e in events ==> TimeOf(e) <= now) && model != "" && tap != ""
    requires OfTap(LogOf(events, model), tap) == log && |log| == 6 && forall i :: 1 <= i < |log| ==> Fresh(log[i], now)
    ensures Served(Run(events), model, tap, offsets) == (Cached(log), "live_tap")
    ensures Fit(TapWindow(CalOf(Run(events), model), tap), now) == Fit(Last(log, MAX_POINTS), now)
  {
    hide Run;
    hide LogOf;
    hide Fit;
    hide Cached;
    hide OfTap;
    hide Served;
    var c := CalOf(Run(events), model);
    RunKeepsWindows(events, model, now);
    var w := TapWindow(c, tap);
    assert WindowOf(w, log, now);
    EnoughLeft(w, log, now);
    FitOfWindow(w, log, now, now);
    ServedIsCached(events, model, tap, offsets, now);
  }

  lemma EnoughLeft(w: seq<Point>, log: seq<Point>, now: real)
    requires WindowOf(w, log, now) && |log| == 6 && forall i :: 1 <= i < |log| ==> Fresh(log[i], now)
    ensures |w| >= MIN_POINTS
  {
    assert Fresh(log[1], now);
  }

  lemma StaleTimes()
    ensures InOrder(StaleRun()) && forall e :: e in StaleRun() ==> TimeOf(e) <= 86405.0
  {
  }

  lemma StaleShape()
    ensures Chronological(StaleLog()) && RisesFrom(StaleLog(), 20.0, 1.0) && |StaleLog()| == 6
            && Newest(StaleLog()).time == 10.0
    ensures Fresh(StaleLog()[0], 10.0) && !Fresh(StaleLog()[0], 86405.0)
    ensures forall i :: 1 <= i < 6 ==> Fresh(StaleLog()[i], 86405.0)
  {
  }

  /** After a record-then-prune run the served value is the old fit, not the one over the points that are left. */
  lemma StaleFitServed(offsets: map<string, real>)
    ensures InOrder(StaleRun())
    ensures Served(Run(StaleRun()), "m", "t", offsets) == (22.5, "live_tap")
    ensures Fit(TapWindow(CalOf(Run(StaleRun()), "m"), "t"), 86405.0) == 23.0
  {
    hide Run;
    hide LogOf;
    hide Fit;
    hide Cached;
    hide OfTap;
    hide Served;
    hide StaleRun;
    hide StaleLog;
    StaleTimes();
    StaleShape();
    StaleLogs();
    SixRising(StaleLog(), 20.0, 10.0, 86405.0);
    ServedAfterLoss(StaleRun(), StaleLog(), "m", "t", offsets, 86405.0);
  }
}
