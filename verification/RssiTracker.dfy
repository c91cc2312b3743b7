/**
 The signal tracker: per drone a trimmed history of readings and a movement state that
 follows the trend of the last ten. The state is compared with the complete log of readings.
 */
module RssiTracker {
  import opened RssiStats
  import opened Sequences

  const TREND_WINDOW: nat := 10
  const DEFAULT_HISTORY: nat := 50

  datatype Track = Track(samples: seq<real>, movement: Movement)

  const NEW_TRACK := Track([], Steady)

  /** One reading: append, trim, and move on with the trend of the last samples. */
  function Observed(t: Track, rssi: real, history: nat): Track {
    var samples := Last(t.samples + [rssi], history);
    Track(samples, NextMovement(t.movement, Slope(Last(samples, TREND_WINDOW))))
  }

  datatype Reading = Reading(id: string, rssi: real)

  function TrackOf(tracks: map<string, Track>, id: string): Track {
    if id in tracks then tracks[id] else NEW_TRACK
  }

  function Run(log: seq<Reading>, history: nat): map<string, Track> {
    if log == [] then map[]
    else
      var before, r := Run(log[..|log| - 1], history), log[|log| - 1];
      before[r.id := Observed(TrackOf(before, r.id), r.rssi, history)]
  }

  // ---------------------------------------------------------------- the log of one drone

  function ReadingsOf(log: seq<Reading>, id: string): seq<real> {
    if log == [] then []
    else ReadingsOf(log[..|log| - 1], id) + (if log[|log| - 1].id == id then [log[|log| - 1].rssi] else [])
  }

  /** The trend after each reading, over the last width of them. */
  function Trends(ys: seq<real>, width: nat): seq<real> {
    if ys == [] then [] else Trends(ys[..|ys| - 1], width) + [Slope(Last(ys, width))]
  }

  function Width(history: nat): nat {
    if history < TREND_WINDOW then history else TREND_WINDOW
  }

  /** The track of a log: its trimmed end, and the movement state of all its trends. */
  ghost predicate Follows(t: Track, ys: seq<real>, history: nat) {
    t.samples == Last(ys, history) && t.movement == MovementAfter(Trends(ys, Width(history)))
  }

  lemma LastOfLast(ys: seq<real>, y: real, history: nat)
    ensures Last(Last(ys, history) + [y], history) == Last(ys + [y], history)
    ensures Last(Last(ys, history), TREND_WINDOW) == Last(ys, Width(history))
  {
  }

  lemma TrendsSnoc(ys: seq<real>, y: real, width: nat)
    ensures Trends(ys + [y], width) == Trends(ys, width) + [Slope(Last(ys + [y], width))]
    ensures MovementAfter(Trends(ys + [y], width))
            == NextMovement(MovementAfter(Trends(ys, width)), Slope(Last(ys + [y], width)))
  {
    hide Slope;
    hide NextMovement;
    assert (ys + [y])[..|ys|] == ys;
    var ts, t := Trends(ys, width), Slope(Last(ys + [y], width));
    assert (ts + [t])[..|ts|] == ts;
  }

  lemma ObservedFollows(t: Track, ys: seq<real>, y: real, history: nat)
    requires Follows(t, ys, history)
    ensures Follows(Observed(t, y, history), ys + [y], history)
  {
    hide Slope;
    hide NextMovement;
    hide Last;
    hide MovementAfter;
    LastOfLast(ys, y, history);
    LastOfLast(ys + [y], y, history);
    TrendsSnoc(ys, y, Width(history));
  }

  /** The track of one drone alone. */
  function Alone(ys: seq<real>, history: nat): Track {
    if ys == [] then NEW_TRACK else Observed(Alone(ys[..|ys| - 1], history), ys[|ys| - 1], history)
  }

  lemma AloneSnoc(ys: seq<real>, y: real, history: nat)
    ensures Alone(ys + [y], history) == Observed(Alone(ys, history), y, history)
  {
    hide Observed;
    assert (ys + [y])[..|ys|] == ys;
  }

  /** In every run over many drones each one is tracked as if it were alone. */
  lemma {:induction false} RunSeparates(log: seq<Reading>, history: nat, id: string)
    ensures TrackOf(Run(log, history), id) == Alone(ReadingsOf(log, id), history)
  {
    if log != [] {
      hide Observed;
      hide Alone;
      var n := |log| - 1;
      RunSeparates(log[..n], history, id);
      if log[n].id == id {
        AloneSnoc(ReadingsOf(log[..n], id), log[n].rssi, history);
      } else {
        assert ReadingsOf(log[..n], id) + [] == ReadingsOf(log[..n], id);
      }
    }
  }

  /** A drone holds the trimmed end of its readings and the movement state of all its trends. */
  lemma {:induction false} AloneFollows(ys: seq<real>, history: nat)
    ensures Follows(Alone(ys, history), ys, history)
  {
    hide Follows;
    hide Observed;
    if ys == [] {
      NewFollows(history);
    } else {
      var n := |ys| - 1;
      AloneFollows(ys[..n], history);
      ObservedFollows(Alone(ys[..n], history), ys[..n], ys[n], history);
      assert ys[..n] + [ys[n]] == ys;
    }
  }

  lemma NewFollows(history: nat)
    ensures Follows(NEW_TRACK, [], history)
  {
  }

  /**
   With a history of ten samples or more, trimming is invisible: a drone is approaching exactly when the
   slope over its last ten readings once exceeded 0.5 and has not been below 0.15 since; departing likewise.
   */
  lemma MovementOfLog(log: seq<Reading>, history: nat, id: string)
    requires history >= TREND_WINDOW
    ensures var movement, trends := TrackOf(Run(log, history), id).movement, Trends(ReadingsOf(log, id), TREND_WINDOW);
            && (movement == Approaching <==> Risen(trends))
            && (movement == Departing <==> Fallen(trends))
  {
    hide Risen;
    hide Fallen;
    hide Trends;
    hide MovementAfter;
    hide Run;
    hide ReadingsOf;
    hide Alone;
    RunSeparates(log, history, id);
    AloneFollows(ReadingsOf(log, id), history);
    var trends := Trends(ReadingsOf(log, id), TREND_WINDOW);
    assert TrackOf(Run(log, history), id).movement == MovementAfter(trends);
    MovementIff(trends);
  }

  // ---------------------------------------------------------------- the object

  class Tracker {
    var tracks: map<string, Track>
    var approachEvents: nat
    var departEvents: nat
    const history: nat

    constructor (historySize: int)
      ensures tracks == map[] && approachEvents == departEvents == 0
      ensures history == if historySize <= 0 then DEFAULT_HISTORY else historySize
    {
      tracks, approachEvents, departEvents := map[], 0, 0;
      history := if historySize <= 0 then DEFAULT_HISTORY else historySize;
    }

    method Observe(id: string, rssi: real) returns (trend: real, movement: Movement)
      modifies this
      ensures tracks == old(tracks)[id := Observed(TrackOf(old(tracks), id), rssi, history)]
      ensures movement == tracks[id].movement && trend == Slope(Last(tracks[id].samples, TREND_WINDOW))
      ensures var was := TrackOf(old(tracks), id).movement;
              && approachEvents == old(approachEvents)
                  + (if was != Approaching && movement == Approaching then 1 else 0)
              && departEvents == old(departEvents) + (if was != Departing && movement == Departing then 1 else 0)
    {
      hide Slope;
      hide NextMovement;
      var track := if id in tracks then tracks[id] else NEW_TRACK;
      var samples := Trimmed(track.samples + [rssi], history);
      var trendSamples := Trimmed(samples, TREND_WINDOW);
      trend := ComputeTrend(trendSamples);
      movement := Switch(track.movement, trend);
      tracks := tracks[id := Track(samples, movement)];
    }

    method Trimmed(s: seq<real>, n: nat) returns (r: seq<real>)
      ensures r == Last(s, n)
    {
      r := s;
      if |r| > n { r := r[|r| - n..]; }
    }

    /** The hysteresis, with its event counters. */
    method Switch(was: Movement, trend: real) returns (movement: Movement)
      modifies this`approachEvents, this`departEvents
      ensures movement == NextMovement(was, trend)
      ensures approachEvents == old(approachEvents) + (if was != Approaching && movement == Approaching then 1 else 0)
      ensures departEvents == old(departEvents) + (if was != Departing && movement == Departing then 1 else 0)
    {
      match was {
        case Approaching =>
          if trend < 0.15 {
            if trend < -0.5 {
              movement := Departing;
              departEvents := departEvents + 1;
            } else {
              movement := Steady;
            }
          } else {
            movement := Approaching;
          }
        case Departing =>
          if trend > -0.15 {
            if trend > 0.5 {
              movement := Approaching;
              approachEvents := approachEvents + 1;
            } else {
              movement := Steady;
            }
          } else {
            movement := Departing;
          }
        case Steady =>
          if trend > 0.5 {
            movement := Approaching;
            approachEvents := approachEvents + 1;
          } else if trend < -0.5 {
            movement := Departing;
            departEvents := departEvents + 1;
          } else {
            movement := Steady;
          }
      }
    }
  }
}
