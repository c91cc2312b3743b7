/**
 Multi-tap correlation of suspect transmitters: one window per MAC that is reset when it
 goes stale and swept when old, and the promotion decision taken on every observation.
 The window is compared with the complete log of observations.
 */
module SuspectCorrelator {
  import opened RealMath

  /** Tap -> time of its latest observation, and the time of the latest observation by any tap. */
  datatype Window = Window(taps: map<string, real>, lastSeen: real)

  type Windows = map<string, Window>

  datatype Event =
    | Seen(time: real, mac: string, tap: string)
    | Swept(time: real, maxAge: real)

  // ---------------------------------------------------------------- operations

  function Observe(ws: Windows, span: real, now: real, mac: string, tap: string): Windows {
    var kept := if mac in ws && now - ws[mac].lastSeen <= span then ws[mac].taps else map[];
    ws[mac := Window(kept[tap := now], now)]
  }

  function Sweep(ws: Windows, now: real, maxAge: real): Windows {
    map mac | mac in ws && now - ws[mac].lastSeen <= maxAge :: ws[mac]
  }

  function Step(ws: Windows, span: real, e: Event): Windows {
    match e
    case Seen(now, mac, tap) => Observe(ws, span, now, mac, tap)
    case Swept(now, maxAge) => Sweep(ws, now, maxAge)
  }

  function Run(log: seq<Event>, span: real): Windows {
    if log == [] then map[] else Step(Run(log[..|log| - 1], span), span, log[|log| - 1])
  }

  /** The taps that the window counts at a given time. */
  function Counted(ws: Windows, span: real, mac: string, now: real): set<string> {
    if mac in ws then set tap | tap in ws[mac].taps && now - ws[mac].taps[tap] <= span else {}
  }

  // ---------------------------------------------------------------- the full log

  predicate Recent(e: Event, span: real, mac: string, now: real) {
    e.Seen? && e.mac == mac && now - e.time <= span
  }

  /** The taps that observed the MAC within the last span, from the log alone. */
  function Witnesses(log: seq<Event>, span: real, mac: string, now: real): set<string> {
    set e | e in log && Recent(e, span, mac, now) :: e.tap
  }

  ghost predicate Chronological(log: seq<Event>) {
    forall i, j :: 0 <= i <= j < |log| ==> log[i].time <= log[j].time
  }

  ghost predicate SlowSweeps(log: seq<Event>, span: real) {
    forall e :: e in log && e.Swept? ==> e.maxAge >= span
  }

  /** The windows answer every later question as the log would. */
  ghost predicate Faithful(ws: Windows, log: seq<Event>, span: real, from: real) {
    forall mac, now :: now >= from ==> Counted(ws, span, mac, now) == Witnesses(log, span, mac, now)
  }

  /** Each window remembers when its MAC was last observed. */
  ghost predicate LastSeenInv(ws: Windows, log: seq<Event>) {
    && (forall mac, e :: mac in ws && e in log && e.Seen? && e.mac == mac ==> e.time <= ws[mac].lastSeen)
    && (forall mac :: mac in ws ==> exists e :: e in log && e.Seen? && e.mac == mac && e.time == ws[mac].lastSeen)
  }

  ghost predicate NotBefore(log: seq<Event>, time: real) {
    forall e :: e in log ==> e.time <= time
  }

  lemma WitnessesGrow(log: seq<Event>, e: Event, span: real, mac: string, now: real)
    ensures Witnesses(log + [e], span, mac, now)
         == Witnesses(log, span, mac, now) + (if Recent(e, span, mac, now) then {e.tap} else {})
  {
  }

  /** A MAC last observed more than a span ago has no witnesses any more. */
  lemma StaleHasNoWitnesses(ws: Windows, log: seq<Event>, span: real, mac: string, now: real)
    requires LastSeenInv(ws, log) && mac in ws && now - ws[mac].lastSeen > span
    ensures Witnesses(log, span, mac, now) == {}
  {
  }

  lemma ObserveKeepsFaith(ws: Windows, log: seq<Event>, span: real, from: real, e: Event)
    requires Faithful(ws, log, span, from) && LastSeenInv(ws, log) && NotBefore(log, e.time)
    requires e.Seen? && e.time >= from
    ensures Faithful(Observe(ws, span, e.time, e.mac, e.tap), log + [e], span, e.time)
  {
    var after := Observe(ws, span, e.time, e.mac, e.tap);
    forall mac, now | now >= e.time
      ensures Counted(after, span, mac, now) == Witnesses(log + [e], span, mac, now)
    {
      WitnessesGrow(log, e, span, mac, now);
      assert Counted(ws, span, mac, now) == Witnesses(log, span, mac, now);
      if mac == e.mac {
        if mac in ws && e.time - ws[mac].lastSeen > span { StaleHasNoWitnesses(ws, log, span, mac, now); }
        TapTimesInPast(ws, log, span, from, e, now);
      }
    }
  }

  /** Overwriting a tap's time with a later one never removes it from the count. */
  lemma TapTimesInPast(ws: Windows, log: seq<Event>, span: real, from: real, e: Event, now: real)
    requires e.Seen? && now >= e.time
    requires Counted(ws, span, e.mac, now) == Witnesses(log, span, e.mac, now) && NotBefore(log, e.time)
    ensures e.tap in Counted(ws, span, e.mac, now) ==> now - e.time <= span
  {
  }

  lemma ObserveKeepsLastSeen(ws: Windows, log: seq<Event>, span: real, e: Event)
    requires LastSeenInv(ws, log) && NotBefore(log, e.time) && e.Seen?
    ensures LastSeenInv(Observe(ws, span, e.time, e.mac, e.tap), log + [e])
  {
  }

  /**
   A sweep loses nothing that still counts if and only if every window it drops has been
   silent for longer than the span.
   */
  lemma SweepKeepsFaithIff(ws: Windows, log: seq<Event>, span: real, from: real, e: Event)
    requires Faithful(ws, log, span, from) && LastSeenInv(ws, log) && NotBefore(log, e.time)
    requires e.Swept? && e.time >= from
    ensures Faithful(Sweep(ws, e.time, e.maxAge), log + [e], span, e.time)
       <==> forall mac :: mac in ws && e.time - ws[mac].lastSeen > e.maxAge ==> e.time - ws[mac].lastSeen > span
  {
    var after := Sweep(ws, e.time, e.maxAge);
    if forall mac :: mac in ws && e.time - ws[mac].lastSeen > e.maxAge ==> e.time - ws[mac].lastSeen > span {
      forall mac, now | now >= e.time
        ensures Counted(after, span, mac, now) == Witnesses(log + [e], span, mac, now)
      {
        WitnessesGrow(log, e, span, mac, now);
        assert Counted(ws, span, mac, now) == Witnesses(log, span, mac, now);
        if mac in ws && mac !in after { StaleHasNoWitnesses(ws, log, span, mac, now); }
      }
    } else {
      var mac :| mac in ws && e.time - ws[mac].lastSeen > e.maxAge && e.time - ws[mac].lastSeen <= span;
      var x :| x in log && x.Seen? && x.mac == mac && x.time == ws[mac].lastSeen;
      assert Recent(x, span, mac, e.time) && x in log + [e];
      assert x.tap in Witnesses(log + [e], span, mac, e.time) && x.tap !in Counted(after, span, mac, e.time);
    }
  }

  lemma SweepKeepsLastSeen(ws: Windows, log: seq<Event>, e: Event)
    requires LastSeenInv(ws, log) && e.Swept?
    ensures LastSeenInv(Sweep(ws, e.time, e.maxAge), log + [e])
  {
  }

  /** Over any chronological run with sweeps not faster than the span, the windows count exactly the recent taps. */
  lemma {:induction false} RunIsFaithful(log: seq<Event>, span: real, from: real)
    requires Chronological(log) && SlowSweeps(log, span) && NotBefore(log, from)
    ensures Faithful(Run(log, span), log, span, from) && LastSeenInv(Run(log, span), log)
  {
    if log != [] {
      var n := |log| - 1;
      var prefix, e := log[..n], log[n];
      var ws := Run(prefix, span);
      assert log == prefix + [e] && e in log;
      assert NotBefore(prefix, e.time) by {
        forall x | x in prefix ensures x.time <= e.time { var i :| 0 <= i < n && prefix[i] == x; }
      }
      RunIsFaithful(prefix, span, e.time);
      match e
      case Seen(_, _, _) =>
        ObserveKeepsFaith(ws, prefix, span, e.time, e);
        ObserveKeepsLastSeen(ws, prefix, span, e);
      case Swept(_, _) =>
        SweepKeepsFaithIff(ws, prefix, span, e.time, e);
        SweepKeepsLastSeen(ws, prefix, e);
    }
  }

  /** The taps that observed the MAC since it was last silent for longer than the span, from the log alone. */
  function Burst(log: seq<Event>, span: real, mac: string): set<string> {
    if log == [] then {}
    else
      var before, e := log[..|log| - 1], log[|log| - 1];
      if !(e.Seen? && e.mac == mac) then Burst(before, span, mac)
      else (if Witnesses(before, span, mac, e.time) == {} then {} else Burst(before, span, mac)) + {e.tap}
  }

  /** A MAC whose window is not stale has a witness: the one that was seen last. */
  lemma LastIsWitness(ws: Windows, log: seq<Event>, span: real, mac: string, now: real)
    requires LastSeenInv(ws, log) && mac in ws && now - ws[mac].lastSeen <= span
    ensures Witnesses(log, span, mac, now) != {}
  {
    var e :| e in log && e.Seen? && e.mac == mac && e.time == ws[mac].lastSeen;
    assert Recent(e, span, mac, now);
    assert e.tap in Witnesses(log, span, mac, now);
  }

  lemma ObserveKeepsBurst(ws: Windows, log: seq<Event>, span: real, e: Event, mac: string)
    requires e.Seen? && LastSeenInv(ws, log) && Faithful(ws, log, span, e.time)
    requires mac in ws ==> ws[mac].taps.Keys == Burst(log, span, mac)
    ensures var after := Observe(ws, span, e.time, e.mac, e.tap);
            mac in after ==> after[mac].taps.Keys == Burst(log + [e], span, mac)
  {
    assert (log + [e])[..|log|] == log;
    if mac == e.mac {
      if mac in ws {
        if e.time - ws[mac].lastSeen > span {
          StaleHasNoWitnesses(ws, log, span, mac, e.time);
        } else {
          LastIsWitness(ws, log, span, mac, e.time);
        }
      } else {
        assert Counted(ws, span, mac, e.time) == Witnesses(log, span, mac, e.time);
      }
    }
  }

  /** Over any such run a window holds exactly the taps of the current burst of its MAC. */
  lemma {:induction false} WindowIsBurst(log: seq<Event>, span: real, mac: string)
    requires Chronological(log) && SlowSweeps(log, span)
    ensures mac in Run(log, span) ==> Run(log, span)[mac].taps.Keys == Burst(log, span, mac)
  {
    if log != [] {
      var n := |log| - 1;
      var prefix, e := log[..n], log[n];
      assert log == prefix + [e];
      assert NotBefore(prefix, e.time) by {
        forall x | x in prefix ensures x.time <= e.time { var i :| 0 <= i < n && prefix[i] == x; }
      }
      WindowIsBurst(prefix, span, mac);
      RunIsFaithful(prefix, span, e.time);
      hide Observe;
      hide Faithful;
      hide LastSeenInv;
      if e.Seen? { ObserveKeepsBurst(Run(prefix, span), prefix, span, e, mac); }
    }
  }

  // ---------------------------------------------------------------- the promotion decision

  datatype Reason = NotPromoted | MultiTap | OperatorConfirmed | SingleTapMobility | SingleTapObservation

  datatype Suspect = NoSuspect | Suspect(observations: int, timeSpan: real, mobility: real, likelyMobile: bool,
                                         confirmed: bool, rssiVariance: real)

  /** Thresholds after the zero-value defaults are applied. */
  datatype Limits = Limits(minTaps: int, boost: real, singleTap: bool, minObs: int, minSpan: real, minMobility: real)

  /** Thresholds as configured; a value that is not positive means the default. */
  datatype Config = Config(minObs: int, minSpanSec: int, minMobility: real)

  function WithDefaults(minTaps: int, boost: real, singleTap: bool, cfg: Config): (l: Limits)
    ensures l.minObs > 0 && l.minSpan > 0.0 && l.minMobility > 0.0
  {
    Limits(minTaps, boost, singleTap,
           if cfg.minObs <= 0 then 5 else cfg.minObs,
           if cfg.minSpanSec <= 0 then 30.0 else cfg.minSpanSec as real,
           if cfg.minMobility <= 0.0 then 0.6 else cfg.minMobility)
  }

  /** Values that are not positive become 5 observations, 30 s and a mobility of 0.6; the others stay. */
  lemma DefaultsApply(minTaps: int, boost: real, singleTap: bool, cfg: Config)
    ensures var l := WithDefaults(minTaps, boost, singleTap, cfg);
            && (cfg.minObs <= 0 ==> l.minObs == 5) && (cfg.minObs > 0 ==> l.minObs == cfg.minObs)
            && (cfg.minSpanSec <= 0 ==> l.minSpan == 30.0)
            && (cfg.minSpanSec > 0 ==> l.minSpan == cfg.minSpanSec as real)
            && (cfg.minMobility <= 0.0 ==> l.minMobility == 0.6)
            && (cfg.minMobility > 0.0 ==> l.minMobility == cfg.minMobility)
            && l.minTaps == minTaps && l.boost == boost && l.singleTap == singleTap
  {
  }

  datatype Verdict = Verdict(confirmed: bool, taps: nat, confidence: real, reason: Reason, eligible: bool)

  function Decide(taps: nat, base: real, c: Suspect, l: Limits): Verdict {
    if taps >= l.minTaps then
      Verdict(true, taps, Min(base + (taps as real - 1.0) * l.boost, 0.95), MultiTap, false)
    else if !l.singleTap || c.NoSuspect? then Verdict(false, taps, base, NotPromoted, false)
    else if c.confirmed then Verdict(true, taps, 0.85, OperatorConfirmed, false)
    else if c.likelyMobile && c.mobility >= l.minMobility && c.observations >= 3 then
      Verdict(true, taps, Min(base + c.mobility * 0.25, 0.80), SingleTapMobility, false)
    else if c.observations >= l.minObs && c.timeSpan >= l.minSpan && (c.mobility >= 0.3 || c.rssiVariance >= 8.0) then
      Verdict(true, taps, Min(base + Min(c.observations as real / 20.0, 0.3), 0.75), SingleTapObservation, false)
    else
      Verdict(false, taps, base, NotPromoted,
              c.observations >= Half(l.minObs) || (c.timeSpan >= l.minSpan / 2.0 && c.mobility >= 0.3))
  }

  /** Integer division by two, truncated toward zero. */
  function Half(n: int): int {
    if n >= 0 then n / 2 else -(-n / 2)
  }

  /** Multi-tap confirmation is the tap count; a lone tap needs single-tap mode and evidence of movement. */
  lemma VerdictMeaning(taps: nat, base: real, c: Suspect, l: Limits)
    ensures var v := Decide(taps, base, c, l);
            && (v.reason == MultiTap <==> taps >= l.minTaps)
            && (v.confirmed <==> v.reason != NotPromoted)
            && (v.confirmed ==> v.confidence <= 0.95)
            && (v.confirmed && v.reason != MultiTap ==>
                  && l.singleTap && c.Suspect?
                  && (c.confirmed || c.mobility >= Min(l.minMobility, 0.3) || c.rssiVariance >= 8.0))
            && (v.eligible ==> !v.confirmed)
  {
  }

  /** The pathways of a lone tap, each with its exact condition, and what counts as close to one. */
  lemma PathwayIff(taps: nat, base: real, c: Suspect, l: Limits)
    requires l.minObs > 0
    ensures var v, lone := Decide(taps, base, c, l), taps < l.minTaps && l.singleTap && c.Suspect?;
            && (v.reason == OperatorConfirmed <==> lone && c.confirmed)
            && (v.reason == SingleTapMobility <==>
                  lone && !c.confirmed && c.likelyMobile && c.mobility >= l.minMobility && c.observations >= 3)
            && (v.reason == SingleTapObservation <==>
                  && lone && !c.confirmed && !(c.likelyMobile && c.mobility >= l.minMobility && c.observations >= 3)
                  && c.observations >= l.minObs && c.timeSpan >= l.minSpan
                  && (c.mobility >= 0.3 || c.rssiVariance >= 8.0))
            && (v.eligible <==>
                  && lone && v.reason == NotPromoted
                  && (2 * c.observations >= l.minObs - 1 || (2.0 * c.timeSpan >= l.minSpan && c.mobility >= 0.3)))
  {
  }

  /** The confidence of a verdict: base plus one boost per further tap, or plus evidence, up to a cap of its kind. */
  lemma ConfidenceOf(taps: nat, base: real, c: Suspect, l: Limits)
    ensures var v := Decide(taps, base, c, l);
            match v.reason
            case NotPromoted => v.confidence == base
            case MultiTap => Capped(v.confidence, base + Times(taps as real - 1.0, l.boost), 0.95)
            case OperatorConfirmed => v.confidence == 0.85
            case SingleTapMobility => Capped(v.confidence, base + c.mobility / 4.0, 0.80)
            case SingleTapObservation =>
              if c.observations >= 6 then Capped(v.confidence, base + 0.3, 0.75)
              else Capped(v.confidence, base + c.observations as real / 20.0, 0.75)
  {
  }

  ghost predicate Capped(x: real, uncapped: real, cap: real) {
    x <= uncapped && x <= cap && (x == uncapped || x == cap)
  }

  /** Each further tap adds one boost, until the cap of 0.95. */
  lemma BoostPerTap(taps: nat, base: real, c: Suspect, l: Limits)
    requires taps >= l.minTaps && l.boost >= 0.0
    ensures Decide(taps + 1, base, c, l).confidence == Min(0.95, Decide(taps, base, c, l).confidence + l.boost)
  {
    var t := taps as real - 1.0;
    assert (taps + 1) as real - 1.0 == t + 1.0;
    assert (t + 1.0) * l.boost == t * l.boost + l.boost;
  }

  /** At least as much evidence in every respect. */
  ghost predicate Stronger(more: Suspect, less: Suspect) {
    less.Suspect? ==>
      && more.Suspect? && more.observations >= less.observations && more.timeSpan >= less.timeSpan
      && more.mobility >= less.mobility && more.rssiVariance >= less.rssiVariance
      && (less.likelyMobile ==> more.likelyMobile) && (less.confirmed ==> more.confirmed)
  }

  /** More evidence never withdraws a confirmation: a suspect that was promoted stays promoted. */
  lemma ConfirmationIsMonotone(taps: nat, base: real, c: Suspect, taps': nat, base': real, c': Suspect, l: Limits)
    requires Decide(taps, base, c, l).confirmed && taps' >= taps && Stronger(c', c)
    ensures Decide(taps', base', c', l).confirmed
  {
  }

  // ---------------------------------------------------------------- the object

  class Correlator {
    var windows: Windows
    const span: real
    const minTaps: int
    const boost: real
    const singleTap: bool

    constructor (windowSec: int, minTaps: int, boost: real, singleTap: bool)
      ensures windows == map[] && span > 0.0 && this.minTaps > 0 && this.boost > 0.0 && this.singleTap == singleTap
      ensures span == if windowSec <= 0 then 5.0 else windowSec as real
      ensures minTaps > 0 ==> this.minTaps == minTaps
      ensures minTaps <= 0 ==> this.minTaps == 2
      ensures this.boost == if boost <= 0.0 then 0.30 else boost
    {
      windows := map[];
      span := if windowSec <= 0 then 5.0 else windowSec as real;
      this.minTaps := if minTaps <= 0 then 2 else minTaps;
      this.boost := if boost <= 0.0 then 0.30 else boost;
      this.singleTap := singleTap;
    }

    method AddObservation(now: real, mac: string, tap: string, base: real, c: Suspect, cfg: Config) returns (v: Verdict)
      modifies this
      ensures windows == Observe(old(windows), span, now, mac, tap)
      ensures v == Decide(|Counted(windows, span, mac, now)|, base, c, WithDefaults(minTaps, boost, singleTap, cfg))
    {
      if mac !in windows {
        windows := windows[mac := Window(map[], now)];
      } else {
        var w := windows[mac];
        var taps := w.taps;
        if now - w.lastSeen > span { taps := map[]; }
        windows := windows[mac := Window(taps, now)];
      }
      windows := windows[mac := windows[mac].(taps := windows[mac].taps[tap := now])];
      var active := CountActive(windows[mac], now);
      v := Decide(active, base, c, WithDefaults(minTaps, boost, singleTap, cfg));
    }

    method CountActive(w: Window, now: real) returns (count: nat)
      ensures count == |set tap | tap in w.taps && now - w.taps[tap] <= span|
    {
      count := 0;
      var rest := w.taps.Keys;
      ghost var done: set<string> := {};
      while rest != {}
        invariant rest <= w.taps.Keys
        invariant done == set tap | tap in w.taps && tap !in rest && now - w.taps[tap] <= span
        invariant count == |done|
        decreases rest
      {
        var tap :| tap in rest;
        rest := rest - {tap};
        if now - w.taps[tap] <= span {
          count := count + 1;
          done := done + {tap};
        }
      }
      assert done == set tap | tap in w.taps && now - w.taps[tap] <= span;
    }

    method Cleanup(now: real, maxAge: real) returns (removed: nat)
      modifies this
      ensures windows == Sweep(old(windows), now, maxAge)
      ensures removed == |old(windows)| - |windows|
    {
      removed := 0;
      var rest := windows.Keys;
      while rest != {}
        invariant rest <= windows.Keys <= old(windows).Keys
        invariant forall mac :: mac in windows <==>
                    mac in old(windows) && (mac in rest || now - old(windows)[mac].lastSeen <= maxAge)
        invariant forall mac :: mac in windows ==> windows[mac] == old(windows)[mac]
        invariant removed == |old(windows)| - |windows|
        decreases rest
      {
        var mac :| mac in rest;
        rest := rest - {mac};
        if now - windows[mac].lastSeen > maxAge {
          assert (windows - {mac}).Keys == windows.Keys - {mac};
          windows := windows - {mac};
          removed := removed + 1;
        }
      }
    }
  }

  /** After any run, an observation is confirmed by correlation exactly when enough taps saw the MAC recently. */
  lemma ConfirmationIsExact(log: seq<Event>, span: real, e: Event, base: real, c: Suspect, l: Limits)
    requires e.Seen? && Chronological(log + [e]) && SlowSweeps(log, span)
    ensures var ws := Observe(Run(log, span), span, e.time, e.mac, e.tap);
            var v := Decide(|Counted(ws, span, e.mac, e.time)|, base, c, l);
            && v.taps == |Witnesses(log + [e], span, e.mac, e.time)|
            && (v.reason == MultiTap <==> |Witnesses(log + [e], span, e.mac, e.time)| >= l.minTaps)
  {
    var whole := log + [e];
    assert whole[..|whole| - 1] == log;
    assert NotBefore(whole, e.time) by {
      forall x | x in whole ensures x.time <= e.time {
        var i :| 0 <= i < |whole| && whole[i] == x;
        assert whole[i].time <= whole[|whole| - 1].time;
      }
    }
    assert SlowSweeps(whole, span);
    hide Decide;
    RunIsFaithful(whole, span, e.time);
    VerdictMeaning(|Witnesses(whole, span, e.mac, e.time)|, base, c, l);
  }
}
