/**
 Live calibration windows: per model a sliding window of the last 200 points and one such
 window per tap, pruned by age, and the reference powers fitted to them. The windows are
 compared with the complete log of points.
 */
module CalibrationWindow {
  import opened Sequences
  import Median

  const MAX_POINTS := 200
  const MAX_AGE_SEC := 86400.0
  const MIN_POINTS := 5
  const GENERIC_RSSI0 := 17.0
  const BASE_RSSI0 := 18.4

  datatype Point = Point(rssi0: real, tap: string, time: real)

  /** One model: the global window and the window of each tap, and the values last fitted to them. */
  datatype Cal = Cal(points: seq<Point>, taps: map<string, seq<Point>>, live: real, fits: map<string, real>)

  const NEW_MODEL := Cal([], map[], 0.0, map[])

  type Models = map<string, Cal>

  // ---------------------------------------------------------------- one window

  predicate Fresh(p: Point, now: real) {
    now - p.time <= MAX_AGE_SEC
  }

  function FreshOnly(s: seq<Point>, now: real): (r: seq<Point>)
    ensures |r| <= |s|
    ensures forall p :: p in r <==> p in s && Fresh(p, now)
  {
    if s == [] then []
    else if Fresh(s[0], now) then [s[0]] + FreshOnly(s[1..], now)
    else FreshOnly(s[1..], now)
  }

  function OfTap(s: seq<Point>, tap: string): (r: seq<Point>)
    ensures |r| <= |s|
    ensures forall p :: p in r <==> p in s && p.tap == tap
  {
    if s == [] then []
    else if s[0].tap == tap then [s[0]] + OfTap(s[1..], tap)
    else OfTap(s[1..], tap)
  }

  ghost predicate IsSuffix(s: seq<Point>, t: seq<Point>) {
    |s| <= |t| && s == t[|t| - |s|..]
  }

  ghost predicate Chronological(s: seq<Point>) {
    forall i, j :: 0 <= i <= j < |s| ==> s[i].time <= s[j].time
  }

  /**
   The window of a log at a clock: a suffix of at most 200 points, and every point of the
   last 200 that it lacks is stale.
   */
  ghost predicate WindowOf(w: seq<Point>, log: seq<Point>, clock: real) {
    && IsSuffix(w, log) && |w| <= MAX_POINTS
    && forall i :: 0 <= i < |log| - |w| && |log| - MAX_POINTS <= i ==> !Fresh(log[i], clock)
  }

  lemma AppendKeepsWindow(w: seq<Point>, log: seq<Point>, clock: real, p: Point)
    requires WindowOf(w, log, clock) && p.time >= clock
    ensures WindowOf(Last(w + [p], MAX_POINTS), log + [p], p.time)
  {
  }

  /** In chronological order the stale points come first. */
  lemma {:induction false} FreshIsSuffix(s: seq<Point>, now: real)
    requires Chronological(s)
    ensures IsSuffix(FreshOnly(s, now), s)
    ensures forall i :: 0 <= i < |s| - |FreshOnly(s, now)| ==> !Fresh(s[i], now)
  {
    if s != [] {
      FreshIsSuffix(s[1..], now);
      var f := FreshOnly(s[1..], now);
      if Fresh(s[0], now) {
        AllFresh(s, now);
      } else {
        forall i | 0 <= i < |s| - |f| ensures !Fresh(s[i], now) {
          if i > 0 { assert !Fresh(s[1..][i - 1], now); }
        }
      }
    }
  }

  lemma {:induction false} AllFresh(s: seq<Point>, now: real)
    requires forall i :: 0 <= i < |s| ==> s[0].time <= s[i].time
    requires s != [] ==> Fresh(s[0], now)
    ensures FreshOnly(s, now) == s
  {
    if s != [] { FreshAll(s, now); }
  }

  lemma {:induction false} FreshAll(s: seq<Point>, now: real)
    requires forall i :: 0 <= i < |s| ==> Fresh(s[i], now)
    ensures FreshOnly(s, now) == s
  {
    if s != [] { FreshAll(s[1..], now); }
  }

  lemma {:induction false} FreshNone(s: seq<Point>, now: real)
    requires forall i :: 0 <= i < |s| ==> !Fresh(s[i], now)
    ensures FreshOnly(s, now) == []
  {
    if s != [] { FreshNone(s[1..], now); }
  }

  lemma {:induction false} FreshAppends(s: seq<Point>, t: seq<Point>, now: real)
    ensures FreshOnly(s + t, now) == FreshOnly(s, now) + FreshOnly(t, now)
  {
    if s == [] {
      assert s + t == t;
    } else {
      assert (s + t)[1..] == s[1..] + t;
      FreshAppends(s[1..], t, now);
    }
  }

  lemma PruneKeepsWindow(w: seq<Point>, log: seq<Point>, clock: real, now: real)
    requires WindowOf(w, log, clock) && Chronological(log) && now >= clock
    ensures WindowOf(FreshOnly(w, now), log, now)
  {
    assert Chronological(w);
    FreshIsSuffix(w, now);
    var f := FreshOnly(w, now);
    forall i | 0 <= i < |log| - |f| && |log| - MAX_POINTS <= i ensures !Fresh(log[i], now) {
      var k := |log| - |w|;
      if i >= k { assert log[i] == w[i - k]; } else { assert !Fresh(log[i], clock); }
    }
  }

  /** What a window holds that is still fresh is what recomputing from the last 200 logged points gives. */
  lemma WindowEqualsRecomputation(w: seq<Point>, log: seq<Point>, clock: real, now: real)
    requires WindowOf(w, log, clock) && now >= clock
    ensures FreshOnly(w, now) == FreshOnly(Last(log, MAX_POINTS), now)
  {
    var recent := Last(log, MAX_POINTS);
    var gone := recent[..|recent| - |w|];
    assert recent == gone + w;
    forall i | 0 <= i < |gone| ensures !Fresh(gone[i], now) {
      assert gone[i] == log[|log| - |recent| + i];
      assert !Fresh(log[|log| - |recent| + i], clock);
    }
    FreshNone(gone, now);
    FreshAppends(gone, w, now);
  }

  // ---------------------------------------------------------------- recording and pruning

  function TapWindow(c: Cal, tap: string): seq<Point> {
    if tap in c.taps then c.taps[tap] else []
  }

  function Values(s: seq<Point>): (vs: seq<real>)
    ensures |vs| == |s|
  {
    seq(|s|, i requires 0 <= i < |s| => s[i].rssi0)
  }

  /** The median reference power of the fresh points. */
  function Fit(s: seq<Point>, now: real): real {
    if FreshOnly(s, now) == [] then GENERIC_RSSI0 else Median.MedianOf(Values(FreshOnly(s, now)))
  }

  function Record(c: Cal, p: Point): Cal {
    var points, tapPoints := Last(c.points + [p], MAX_POINTS), Last(TapWindow(c, p.tap) + [p], MAX_POINTS);
    Cal(points, c.taps[p.tap := tapPoints],
        if |points| >= MIN_POINTS then Fit(points, p.time) else c.live,
        if |tapPoints| >= MIN_POINTS then c.fits[p.tap := Fit(tapPoints, p.time)] else c.fits)
  }

  /** Pruning refits nothing; only the value of a tap without points is forgotten. */
  function PruneCal(c: Cal, now: real): Cal {
    Cal(FreshOnly(c.points, now), PrunedTaps(c.taps, now), c.live, PrunedFits(c.taps, c.fits, now))
  }

  function PrunedTaps(taps: map<string, seq<Point>>, now: real): map<string, seq<Point>> {
    map tap | tap in taps && FreshOnly(taps[tap], now) != [] :: FreshOnly(taps[tap], now)
  }

  function PrunedFits(taps: map<string, seq<Point>>, fits: map<string, real>, now: real): map<string, real> {
    map tap | tap in fits && (tap in taps ==> FreshOnly(taps[tap], now) != []) :: fits[tap]
  }

  function CalOf(ms: Models, model: string): Cal {
    if model in ms then ms[model] else NEW_MODEL
  }

  function RecordIn(ms: Models, model: string, p: Point): Models {
    ms[model := Record(CalOf(ms, model), p)]
  }

  function Prune(ms: Models, now: real): Models {
    map model | model in ms && FreshOnly(ms[model].points, now) != [] :: PruneCal(ms[model], now)
  }

  datatype Event = Recorded(model: string, point: Point) | Pruned(now: real)

  function TimeOf(e: Event): real {
    if e.Recorded? then e.point.time else e.now
  }

  function Step(ms: Models, e: Event): Models {
    match e
    case Recorded(model, p) => RecordIn(ms, model, p)
    case Pruned(now) => Prune(ms, now)
  }

  function Run(events: seq<Event>): Models {
    if events == [] then map[] else Step(Run(events[..|events| - 1]), events[|events| - 1])
  }

  /** All points ever recorded for a model, oldest first. */
  function LogOf(events: seq<Event>, model: string): seq<Point> {
    if events == [] then []
    else
      var e := events[|events| - 1];
      LogOf(events[..|events| - 1], model) + (if e.Recorded? && e.model == model then [e.point] else [])
  }

  ghost predicate InOrder(events: seq<Event>) {
    forall i, j :: 0 <= i <= j < |events| ==> TimeOf(events[i]) <= TimeOf(events[j])
  }

  // ---------------------------------------------------------------- the invariant of a model

  lemma {:induction false} OfTapAppends(s: seq<Point>, t: seq<Point>, tap: string)
    ensures OfTap(s + t, tap) == OfTap(s, tap) + OfTap(t, tap)
  {
    if s == [] {
      assert s + t == t;
    } else {
      assert (s + t)[1..] == s[1..] + t;
      OfTapAppends(s[1..], t, tap);
    }
  }

  lemma {:induction false} OfTapChronological(s: seq<Point>, tap: string)
    requires Chronological(s)
    ensures Chronological(OfTap(s, tap))
  {
    if s != [] {
      OfTapChronological(s[1..], tap);
      forall p | p in OfTap(s[1..], tap) ensures s[0].time <= p.time {
        var i :| 0 <= i < |s[1..]| && s[1..][i] == p;
        assert s[0].time <= s[i + 1].time;
      }
    }
  }

  lemma {:induction false} FreshOfTap(s: seq<Point>, tap: string, now: real)
    ensures FreshOnly(OfTap(s, tap), now) == OfTap(FreshOnly(s, now), tap)
  {
    if s != [] { FreshOfTap(s[1..], tap, now); }
  }

  /** Every window of the model is the window of its own log at the clock. */
  ghost predicate Tracks(c: Cal, log: seq<Point>, clock: real) {
    && Chronological(log) && (forall p :: p in log ==> p.time <= clock)
    && WindowOf(c.points, log, clock)
    && (forall tap :: WindowOf(TapWindow(c, tap), OfTap(log, tap), clock))
    && (forall tap :: tap in c.taps ==> c.taps[tap] != [])
  }

  /** The part of the global window that belongs to a tap is the end of that tap's window. */
  ghost predicate Nested(c: Cal) {
    forall tap :: IsSuffix(OfTap(c.points, tap), TapWindow(c, tap))
  }

  lemma OfTapSnoc(s: seq<Point>, p: Point, tap: string)
    ensures OfTap(s + [p], tap) == OfTap(s, tap) + (if p.tap == tap then [p] else [])
  {
    OfTapAppends(s, [p], tap);
    assert [p][1..] == [];
  }

  /** Time passing only makes points staler. */
  lemma WindowLater(w: seq<Point>, log: seq<Point>, clock: real, now: real)
    requires WindowOf(w, log, clock) && now >= clock
    ensures WindowOf(w, log, now)
  {
  }

  lemma RecordKeepsTracks(c: Cal, log: seq<Point>, clock: real, p: Point)
    requires Tracks(c, log, clock) && p.time >= clock
    ensures Tracks(Record(c, p), log + [p], p.time)
  {
    hide WindowOf;
    hide OfTap;
    hide Last;
    hide Fit;
    var after := Record(c, p);
    AppendKeepsWindow(c.points, log, clock, p);
    forall tap ensures WindowOf(TapWindow(after, tap), OfTap(log + [p], tap), p.time) {
      OfTapSnoc(log, p, tap);
      if tap == p.tap {
        AppendKeepsWindow(TapWindow(c, tap), OfTap(log, tap), clock, p);
      } else {
        WindowLater(TapWindow(c, tap), OfTap(log, tap), clock, p.time);
        assert OfTap(log, tap) + [] == OfTap(log, tap);
      }
    }
    LastNotEmpty(TapWindow(c, p.tap), p);
  }

  lemma LastNotEmpty(s: seq<Point>, p: Point)
    ensures Last(s + [p], MAX_POINTS) != []
  {
  }

  /** A model whose global window is empty after a prune has no fresh point left anywhere. */
  lemma EmptyMeansAllStale(c: Cal, log: seq<Point>, clock: real, now: real)
    requires Tracks(c, log, clock) && now >= clock && FreshOnly(c.points, now) == []
    ensures forall p :: p in log ==> !Fresh(p, now)
  {
    WindowEqualsRecomputation(c.points, log, clock, now);
    if log != [] {
      var newest := log[|log| - 1];
      assert newest in Last(log, MAX_POINTS);
      assert !Fresh(newest, now);
      forall p | p in log ensures !Fresh(p, now) {
        var i :| 0 <= i < |log| && log[i] == p;
        assert p.time <= newest.time;
      }
    }
  }

  lemma PruneKeepsTracks(ms: Models, model: string, log: seq<Point>, clock: real, now: real)
    requires Tracks(CalOf(ms, model), log, clock) && now >= clock
    ensures Tracks(CalOf(Prune(ms, now), model), log, now)
  {
    var c, after := CalOf(ms, model), CalOf(Prune(ms, now), model);
    PruneKeepsWindow(c.points, log, clock, now);
    forall tap ensures WindowOf(TapWindow(after, tap), OfTap(log, tap), now) {
      OfTapChronological(log, tap);
      PruneKeepsWindow(TapWindow(c, tap), OfTap(log, tap), clock, now);
      if FreshOnly(c.points, now) == [] {
        EmptyMeansAllStale(c, log, clock, now);
        FreshNone(TapWindow(c, tap), now);
      }
    }
  }

  lemma OfTapSuffix(s: seq<Point>, t: seq<Point>, tap: string)
    requires IsSuffix(s, t)
    ensures IsSuffix(OfTap(s, tap), OfTap(t, tap))
  {
    var head := t[..|t| - |s|];
    assert t == head + s;
    OfTapAppends(head, s, tap);
  }

  lemma SuffixTransitive(a: seq<Point>, b: seq<Point>, c: seq<Point>)
    requires IsSuffix(a, b) && IsSuffix(b, c)
    ensures IsSuffix(a, c)
  {
  }

  lemma SuffixSnoc(a: seq<Point>, b: seq<Point>, p: Point)
    requires IsSuffix(a, b)
    ensures IsSuffix(a + [p], b + [p])
  {
  }

  lemma LastIsSuffix(s: seq<Point>, n: nat)
    ensures IsSuffix(Last(s, n), s)
  {
  }

  lemma RecordKeepsNested(c: Cal, p: Point)
    requires Nested(c)
    ensures Nested(Record(c, p))
  {
    hide OfTap;
    hide Last;
    hide IsSuffix;
    hide Fit;
    var after, all := Record(c, p), c.points + [p];
    forall tap ensures IsSuffix(OfTap(after.points, tap), TapWindow(after, tap)) {
      LastIsSuffix(all, MAX_POINTS);
      OfTapSuffix(after.points, all, tap);
      OfTapSnoc(c.points, p, tap);
      if tap == p.tap {
        SuffixSnoc(OfTap(c.points, tap), TapWindow(c, tap), p);
        SuffixTransitive(OfTap(after.points, tap), OfTap(all, tap), TapWindow(c, tap) + [p]);
        SuffixOfLast(OfTap(after.points, tap), TapWindow(c, tap) + [p]);
      } else {
        assert OfTap(c.points, tap) + [] == OfTap(c.points, tap);
        SuffixTransitive(OfTap(after.points, tap), OfTap(all, tap), TapWindow(c, tap));
      }
    }
  }

  lemma SuffixOfLast(s: seq<Point>, t: seq<Point>)
    requires IsSuffix(s, t) && |s| <= MAX_POINTS
    ensures IsSuffix(s, Last(t, MAX_POINTS))
  {
  }

  lemma PruneKeepsNested(c: Cal, now: real)
    requires Nested(c)
    ensures Nested(PruneCal(c, now))
  {
    hide IsSuffix;
    hide FreshOnly;
    hide OfTap;
    var after := PruneCal(c, now);
    forall tap ensures IsSuffix(OfTap(after.points, tap), TapWindow(after, tap)) {
      FreshOfTap(c.points, tap, now);
      FreshSuffix(OfTap(c.points, tap), TapWindow(c, tap), now);
      PrunedTapWindow(c, tap, now);
    }
  }

  lemma FreshSuffix(s: seq<Point>, t: seq<Point>, now: real)
    requires IsSuffix(s, t)
    ensures IsSuffix(FreshOnly(s, now), FreshOnly(t, now))
  {
    var head := t[..|t| - |s|];
    assert t == head + s;
    FreshAppends(head, s, now);
  }

  lemma PrunedTapWindow(c: Cal, tap: string, now: real)
    ensures TapWindow(PruneCal(c, now), tap) == FreshOnly(TapWindow(c, tap), now)
  {
  }

  lemma PruneKeepsNestedIn(ms: Models, model: string, now: real)
    requires Nested(CalOf(ms, model))
    ensures Nested(CalOf(Prune(ms, now), model))
  {
    if model in ms { PruneKeepsNested(ms[model], now); }
  }

  /**
   Over any run in time order: each window is the window of the model's (or the tap's) own
   log, so pruning never discards a fresh point, and the global window nests in the tap windows.
   */
  lemma {:induction false} RunKeepsWindows(events: seq<Event>, model: string, now: real)
    requires InOrder(events) && forall e :: e in events ==> TimeOf(e) <= now
    ensures Tracks(CalOf(Run(events), model), LogOf(events, model), now)
    ensures Nested(CalOf(Run(events), model))
  {
    hide Nested;
    hide Tracks;
    hide Record;
    hide Prune;
    if events == [] {
      EmptyModel(now);
    } else {
      hide Run;
      hide LogOf;
      var n := |events| - 1;
      var prefix, e := events[..n], events[n];
      var ms, log := Run(prefix), LogOf(prefix, model);
      assert e in events;
      forall x | x in prefix ensures TimeOf(x) <= TimeOf(e) {
        var i :| 0 <= i < n && prefix[i] == x;
      }
      RunKeepsWindows(prefix, model, TimeOf(e));
      RunStep(events, model);
      if e.Pruned? {
        PruneKeepsTracks(ms, model, log, e.now, e.now);
        PruneKeepsNestedIn(ms, model, e.now);
      } else if e.model == model {
        RecordKeepsTracks(CalOf(ms, model), log, e.point.time, e.point);
        RecordKeepsNested(CalOf(ms, model), e.point);
      }
      TracksLater(CalOf(Run(events), model), LogOf(events, model), TimeOf(e), now);
    }
  }

  lemma EmptyModel(now: real)
    ensures Tracks(NEW_MODEL, [], now) && Nested(NEW_MODEL)
  {
  }

  /** What the last event does to one model and to its log. */
  lemma RunStep(events: seq<Event>, model: string)
    requires events != []
    ensures var n := |events| - 1;
            var prefix, e := events[..n], events[n];
            var before, log := CalOf(Run(prefix), model), LogOf(prefix, model);
            if e.Recorded? && e.model == model
            then CalOf(Run(events), model) == Record(before, e.point) && LogOf(events, model) == log + [e.point]
            else LogOf(events, model) == log
                 && CalOf(Run(events), model) == if e.Recorded? then before else CalOf(Prune(Run(prefix), e.now), model)
  {
  }

  lemma TracksLater(c: Cal, log: seq<Point>, clock: real, now: real)
    requires Tracks(c, log, clock) && now >= clock
    ensures Tracks(c, log, now)
  {
  }

  /** At any time, the fresh points of a window are the fresh ones among the last 200 ever recorded. */
  lemma RunEqualsRecomputation(events: seq<Event>, model: string, tap: string, now: real)
    requires InOrder(events) && forall e :: e in events ==> TimeOf(e) <= now
    ensures var c, log := CalOf(Run(events), model), LogOf(events, model);
            && FreshOnly(c.points, now) == FreshOnly(Last(log, MAX_POINTS), now)
            && FreshOnly(TapWindow(c, tap), now) == FreshOnly(Last(OfTap(log, tap), MAX_POINTS), now)
  {
    var c, log := CalOf(Run(events), model), LogOf(events, model);
    RunKeepsWindows(events, model, now);
    WindowEqualsRecomputation(c.points, log, now, now);
    WindowEqualsRecomputation(TapWindow(c, tap), OfTap(log, tap), now, now);
  }

  // ---------------------------------------------------------------- the object

  const RSSI_PLACEHOLDER := -100.0

  /** What a caller is served, and from where. */
  function Served(ms: Models, model: string, tap: string, offsets: map<string, real>): (real, string) {
    var cal := CalOf(ms, model);
    if model != "" && tap != "" && tap in cal.fits && |TapWindow(cal, tap)| >= MIN_POINTS
    then (cal.fits[tap], "live_tap")
    else if model != "" && |cal.points| >= MIN_POINTS then (cal.live, "live_all")
    else if model != "" && model in offsets then (BASE_RSSI0 + offsets[model], "static_model")
    else (GENERIC_RSSI0, "generic")
  }

  class Calibrator {
    var models: Models

    constructor ()
      ensures models == map[]
    {
      models := map[];
    }

    /**
     rssi is the tap-calibrated reading, p carries the reference power derived from it. A point counts if model and
     tap are named, the reading is plausible and the distance outside the near field and above the noise floor.
     */
    method RecordCalibrationPoint(model: string, rssi: real, distanceM: real, p: Point)
      modifies this
      ensures models == if && model != "" && p.tap != "" && -120.0 <= rssi <= -25.0 && rssi != -100.0
                           && 50.0 <= distanceM <= 15000.0
                        then RecordIn(old(models), model, p) else old(models)
    {
      hide Record;
      if model == "" || p.tap == "" { return; }
      if rssi < -120.0 || rssi > -25.0 || rssi == RSSI_PLACEHOLDER { return; }
      if distanceM < 50.0 || distanceM > 15000.0 { return; }
      if model !in models { models := models[model := NEW_MODEL]; }
      var cal := Extend(models[model], p);
      models := models[model := cal];
    }

    /** Adds a point to both windows of a model and refits those with enough points. */
    method Extend(cal: Cal, p: Point) returns (after: Cal)
      ensures after == Record(cal, p)
    {
      hide Fit;
      hide Last;
      var points := Slide(cal.points, p);
      var tapPoints := Slide(if p.tap in cal.taps then cal.taps[p.tap] else [], p);
      var live, fits := cal.live, cal.fits;
      if |points| >= MIN_POINTS { live := FitRssi0(points, p.time); }
      if |tapPoints| >= MIN_POINTS {
        var fit := FitRssi0(tapPoints, p.time);
        fits := fits[p.tap := fit];
      }
      after := Cal(points, cal.taps[p.tap := tapPoints], live, fits);
    }

    method Slide(window: seq<Point>, p: Point) returns (w: seq<Point>)
      ensures w == Last(window + [p], MAX_POINTS)
    {
      w := window + [p];
      if |w| > MAX_POINTS { w := w[|w| - MAX_POINTS..]; }
    }

    /** The median over the fresh points, or the generic value when there is none. */
    method FitRssi0(points: seq<Point>, now: real) returns (v: real)
      ensures v == Fit(points, now)
    {
      hide FreshOnly;
      if |points| == 0 {
        FreshNone([], now);
        return GENERIC_RSSI0;
      }
      var fresh_ := FilterFresh(points, now);
      if |fresh_| == 0 { return GENERIC_RSSI0; }
      var m, _ := Median.ComputeMedian(Values(fresh_));
      return m;
    }

    /** The tap's own fit, else the fit over all taps, else the offset of the model, else the generic value. */
    method GetCalibratedRSSI0(model: string, tap: string, offsets: map<string, real>)
      returns (rssi0: real, source: string)
      ensures (rssi0, source) == Served(models, model, tap, offsets)
    {
      if model != "" && model in models {
        var cal := models[model];
        if tap != "" && tap in cal.fits {
          var n := if tap in cal.taps then |cal.taps[tap]| else 0;
          if n >= MIN_POINTS { return cal.fits[tap], "live_tap"; }
        }
        if |cal.points| >= MIN_POINTS { return cal.live, "live_all"; }
      }
      if model != "" && model in offsets { return BASE_RSSI0 + offsets[model], "static_model"; }
      return GENERIC_RSSI0, "generic";
    }

    method PruneStale(now: real)
      modifies this
      ensures models == Prune(old(models), now)
    {
      hide FreshOnly;
      var rest := models.Keys;
      while rest != {}
        invariant rest <= old(models).Keys
        invariant forall m :: m in rest ==> m in models && models[m] == old(models)[m]
        invariant forall m :: m in models && m !in rest <==>
                    m in old(models) && m !in rest && FreshOnly(old(models)[m].points, now) != []
        invariant forall m :: m in models && m !in rest ==> models[m] == PruneCal(old(models)[m], now)
        decreases rest
      {
        var m :| m in rest;
        rest := rest - {m};
        var cal := models[m];
        var points := FilterFresh(cal.points, now);
        var taps, fits := PruneTaps(cal.taps, cal.fits, now);
        models := models[m := Cal(points, taps, cal.live, fits)];
        if points == [] { models := models - {m}; }
      }
    }

    method PruneTaps(taps: map<string, seq<Point>>, fits: map<string, real>, now: real)
      returns (pruned: map<string, seq<Point>>, kept: map<string, real>)
      ensures pruned == PrunedTaps(taps, now) && kept == PrunedFits(taps, fits, now)
    {
      hide FreshOnly;
      pruned, kept := taps, fits;
      var rest := taps.Keys;
      while rest != {}
        invariant rest <= taps.Keys
        invariant forall t :: t in rest ==> t in pruned && pruned[t] == taps[t]
        invariant forall t :: t in pruned && t !in rest <==> t in taps && t !in rest && FreshOnly(taps[t], now) != []
        invariant forall t :: t in pruned && t !in rest ==> pruned[t] == FreshOnly(taps[t], now)
        invariant forall t :: t in kept <==> t in fits && (t in taps && t !in rest ==> FreshOnly(taps[t], now) != [])
        invariant forall t :: t in kept ==> kept[t] == fits[t]
        decreases rest
      {
        var t :| t in rest;
        rest := rest - {t};
        var fresh_ := FilterFresh(taps[t], now);
        if fresh_ == [] {
          pruned := pruned - {t};
          kept := kept - {t};
        } else {
          pruned := pruned[t := fresh_];
        }
      }
    }

    method FilterFresh(s: seq<Point>, now: real) returns (r: seq<Point>)
      ensures r == FreshOnly(s, now)
    {
      hide FreshOnly;
      r := [];
      FreshNone([], now);
      for i := 0 to |s|
        invariant r == FreshOnly(s[..i], now)
      {
        FreshSnoc(s[..i], s[i], now);
        assert s[..i + 1] == s[..i] + [s[i]];
        if Fresh(s[i], now) { r := r + [s[i]]; }
      }
      assert s[..|s|] == s;
    }
  }

  lemma FreshSnoc(s: seq<Point>, p: Point, now: real)
    ensures FreshOnly(s + [p], now) == if Fresh(p, now) then FreshOnly(s, now) + [p] else FreshOnly(s, now)
  {
    FreshAppends(s, [p], now);
    assert [p][1..] == [];
  }
}
