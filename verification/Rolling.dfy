/**
 The rolling event log: an alternating on/off history per proxy, capped in length, and the two
 algorithms that read it. UptimePercent sweeps the events; IncidentStats pairs them into outage
 intervals and clips those to the window. Both are refined here to one pointwise definition:
 the seconds of the window whose latest event is offline.

 Times are whole Unix seconds, windows and durations are nanoseconds as in Go.
 */
module Rolling {

  const SECOND: int := 1_000_000_000
  const DAY: int := 86_400

  datatype Event = Event(ts: int, online: bool)
  datatype Interval = Interval(start: int, end: int)
  datatype IncidentSummary = IncidentSummary(mtbf: int, mttr: int, incidents: nat)

  type History = seq<Event>

  // ---------------------------------------------------------------- the log

  /** One history after recording a state: repeated states are dropped, the oldest events fall off. */
  function Push(evs: History, online: bool, ts: int, maxSize: nat): History
    requires maxSize > 0
  {
    if evs != [] && evs[|evs| - 1].online == online then evs
    else
      var longer := evs + [Event(ts, online)];
      if |longer| > maxSize then longer[|longer| - maxSize..] else longer
  }

  /** The history left by a whole run of Record calls. */
  function Recorded(calls: seq<Event>, maxSize: nat): History
    requires maxSize > 0
  {
    if calls == [] then []
    else
      var last := calls[|calls| - 1];
      Push(Recorded(calls[..|calls| - 1], maxSize), last.online, last.ts, maxSize)
  }

  ghost predicate Sorted(evs: History) {
    forall i, j | 0 <= i < j < |evs| :: evs[i].ts <= evs[j].ts
  }

  ghost predicate Alternating(evs: History) {
    forall i | 0 < i < |evs| :: evs[i].online != evs[i - 1].online
  }

  ghost predicate NonNegative(evs: History) {
    forall i | 0 <= i < |evs| :: evs[i].ts >= 0
  }

  // ---------------------------------------------------------------- the pointwise meaning

  /** The latest event at or before second s exists and is offline. */
  ghost predicate OfflineAt(evs: History, s: int) {
    exists i | 0 <= i < |evs| :: IsLatest(evs, i, s) && !evs[i].online
  }

  ghost predicate IsLatest(evs: History, i: int, s: int)
    requires 0 <= i < |evs|
  {
    evs[i].ts <= s && forall j | i < j < |evs| :: evs[j].ts > s
  }

  /** How many of the seconds a, a+1, ..., b-1 are offline. */
  ghost function OfflineSeconds(evs: History, a: int, b: int): (n: nat)
    ensures a <= b ==> n <= b - a
    decreases b - a
  {
    if b <= a then 0
    else OfflineSeconds(evs, a, b - 1) + if OfflineAt(evs, b - 1) then 1 else 0
  }

  lemma {:induction false} OfflineSplit(evs: History, a: int, b: int, c: int)
    requires a <= b <= c
    ensures OfflineSeconds(evs, a, c) == OfflineSeconds(evs, a, b) + OfflineSeconds(evs, b, c)
    decreases c - b
  {
    if b < c { OfflineSplit(evs, a, b, c - 1); }
  }

  lemma {:induction false} OfflineUniform(evs: History, a: int, b: int, offline: bool)
    requires a <= b
    requires forall s | a <= s < b :: OfflineAt(evs, s) == offline
    ensures OfflineSeconds(evs, a, b) == if offline then b - a else 0
    decreases b - a
  {
    if a < b { OfflineUniform(evs, a, b - 1, offline); }
  }

  /** Between event i-1 and event i of a sorted history the state is that of event i-1. */
  lemma StateBetween(evs: History, i: nat, s: int)
    requires Sorted(evs) && i <= |evs|
    requires i > 0 ==> evs[i - 1].ts <= s
    requires i < |evs| ==> s < evs[i].ts
    ensures OfflineAt(evs, s) <==> i > 0 && !evs[i - 1].online
  {
    if i > 0 {
      assert IsLatest(evs, i - 1, s);
    }
    forall k | 0 <= k < |evs| && k != i - 1 ensures !IsLatest(evs, k, s) {
      if k < i { assert evs[i - 1].ts <= s; } else { assert evs[i].ts <= evs[k].ts; }
    }
  }

  // ---------------------------------------------------------------- windows

  /** int64(window.Seconds()), with the one-day default for a window under a second. */
  function WindowSeconds(window: int): (w: int)
    ensures w > 0
  {
    if window < SECOND then DAY else window / SECOND
  }

  function ActualStart(evs: History, windowStart: int): int
    requires evs != []
  {
    if evs[0].ts > windowStart then evs[0].ts else windowStart
  }

  // ---------------------------------------------------------------- the sweep of UptimePercent

  function StartStateFrom(evs: History, i: nat, start: int, state: bool): bool
    requires i <= |evs|
    decreases |evs| - i
  {
    if i == |evs| || evs[i].ts > start then state
    else StartStateFrom(evs, i + 1, start, evs[i].online)
  }

  function SweepFrom(evs: History, i: nat, start: int, now: int, online: bool, last: int): int
    requires i <= |evs|
    decreases |evs| - i
  {
    if i == |evs| || (evs[i].ts > start && evs[i].ts > now) then
      if !online && now > last then now - last else 0
    else if evs[i].ts <= start then SweepFrom(evs, i + 1, start, now, online, last)
    else
      (if online then 0 else evs[i].ts - last)
      + SweepFrom(evs, i + 1, start, now, evs[i].online, evs[i].ts)
  }

  function SweepDowntime(evs: History, start: int, now: int): int {
    SweepFrom(evs, 0, start, now, StartStateFrom(evs, 0, start, true), start)
  }

  function UptimeOf(evs: History, window: int, now: int): real {
    if evs == [] then 100.0
    else
      var start := ActualStart(evs, now - WindowSeconds(window));
      var span := now - start;
      if span <= 0 then if evs[|evs| - 1].online then 100.0 else 0.0
      else
        var down := SweepDowntime(evs, start, now);
        var clamped := if down > span then span else down;
        ((span - clamped) as real / span as real) * 100.0
  }

  // ---------------------------------------------------------------- the intervals of IncidentStats

  /** Outages still to be listed when the scan stands at event i; open is the pending start or -1. */
  function IntervalsFrom(evs: History, i: nat, open: int, now: int): seq<Interval>
    requires i <= |evs|
    decreases |evs| - i
  {
    if i == |evs| then if open != -1 then [Interval(open, now)] else []
    else if !evs[i].online && open == -1 then IntervalsFrom(evs, i + 1, evs[i].ts, now)
    else if evs[i].online && open != -1 then
      [Interval(open, evs[i].ts)] + IntervalsFrom(evs, i + 1, -1, now)
    else IntervalsFrom(evs, i + 1, open, now)
  }

  function Clip(iv: Interval, windowStart: int, now: int): nat {
    if iv.end <= windowStart || iv.start >= now then 0
    else
      var a := if iv.start < windowStart then windowStart else iv.start;
      var b := if iv.end > now then now else iv.end;
      if b > a then b - a else 0
  }

  function ClippedTotal(ivs: seq<Interval>, windowStart: int, now: int): nat {
    if ivs == [] then 0 else Clip(ivs[0], windowStart, now) + ClippedTotal(ivs[1..], windowStart, now)
  }

  function ClippedCount(ivs: seq<Interval>, windowStart: int, now: int): nat {
    if ivs == [] then 0
    else (if Clip(ivs[0], windowStart, now) > 0 then 1 else 0) + ClippedCount(ivs[1..], windowStart, now)
  }

  function SummaryOf(evs: History, window: int, now: int): IncidentSummary {
    if evs == [] then IncidentSummary(0, 0, 0)
    else
      var w := WindowSeconds(window);
      var ivs := IntervalsFrom(evs, 0, -1, now);
      var down := ClippedTotal(ivs, now - w, now);
      var n := ClippedCount(ivs, now - w, now);
      if n == 0 then IncidentSummary(window, 0, 0)
      else
        var up := if w - down < 0 then 0 else w - down;
        IncidentSummary(up * SECOND / n, down * SECOND / n, n)
  }

  function FlapsFrom(evs: History, i: nat, now: int): nat
    requires i <= |evs|
    decreases |evs| - i
  {
    if i == |evs| then 0
    else (if now - DAY <= evs[i].ts <= now && !evs[i].online then 1 else 0) + FlapsFrom(evs, i + 1, now)
  }

  function FlapsOf(evs: History, now: int): nat {
    FlapsFrom(evs, 0, now)
  }

  // ---------------------------------------------------------------- the object

  class RollingStats {
    var events: map<string, History>
    const maxSize: nat

    ghost predicate Valid()
      reads this
    {
      maxSize > 0 && forall id | id in events :: events[id] != []
    }

    constructor (maxSize: int)
      ensures Valid() && events == map[]
      ensures this.maxSize == if maxSize <= 0 then 1000 else maxSize
    {
      this.maxSize := if maxSize <= 0 then 1000 else maxSize;
      events := map[];
    }

    function HistoryOf(id: string): History
      reads this
    {
      if id in events then events[id] else []
    }

    method Record(id: string, online: bool, ts: int)
      requires Valid()
      modifies this
      ensures Valid()
      ensures events == old(events)[id := Push(old(HistoryOf(id)), online, ts, maxSize)]
    {
      var evs := HistoryOf(id);
      if |evs| > 0 && evs[|evs| - 1].online == online { return; }
      evs := evs + [Event(ts, online)];
      if |evs| > maxSize {
        evs := evs[|evs| - maxSize..];
      }
      events := events[id := evs];
    }

    method UptimePercent(id: string, window: int, now: int) returns (percent: real)
      ensures percent == UptimeOf(HistoryOf(id), window, now)
    {
      var evs := HistoryOf(id);
      if |evs| == 0 { return 100.0; }
      var windowSec := WindowSeconds(window);
      var actualStart := now - windowSec;
      if evs[0].ts > actualStart { actualStart := evs[0].ts; }
      var span := now - actualStart;
      if span <= 0 {
        return if evs[|evs| - 1].online then 100.0 else 0.0;
      }

      var stateAtStart := true;
      var k := 0;
      while k < |evs| && evs[k].ts <= actualStart
        invariant 0 <= k <= |evs|
        invariant StartStateFrom(evs, 0, actualStart, true) == StartStateFrom(evs, k, actualStart, stateAtStart)
      {
        stateAtStart := evs[k].online;
        k := k + 1;
      }

      var downtime, online, last := 0, stateAtStart, actualStart;
      var i := 0;
      while i < |evs| && !(evs[i].ts > actualStart && evs[i].ts > now)
        invariant 0 <= i <= |evs|
        invariant downtime + SweepFrom(evs, i, actualStart, now, online, last)
               == SweepDowntime(evs, actualStart, now)
      {
        if evs[i].ts > actualStart {
          if !online { downtime := downtime + (evs[i].ts - last); }
          online, last := evs[i].online, evs[i].ts;
        }
        i := i + 1;
      }
      if !online && now > last { downtime := downtime + (now - last); }
      if downtime > span { downtime := span; }
      percent := ((span - downtime) as real / span as real) * 100.0;
    }

    method FlapCount24h(id: string, now: int) returns (flaps: nat)
      ensures flaps == FlapsOf(HistoryOf(id), now)
    {
      var evs := HistoryOf(id);
      flaps := 0;
      for i := 0 to |evs|
        invariant flaps + FlapsFrom(evs, i, now) == FlapsOf(evs, now)
      {
        if evs[i].ts >= now - DAY && evs[i].ts <= now && !evs[i].online { flaps := flaps + 1; }
      }
    }

    /** First half of IncidentStats: pair the events up into outages. */
    static method Outages(evs: History, now: int) returns (intervals: seq<Interval>)
      ensures intervals == IntervalsFrom(evs, 0, -1, now)
    {
      intervals := [];
      var open := -1;
      for i := 0 to |evs|
        invariant intervals + IntervalsFrom(evs, i, open, now) == IntervalsFrom(evs, 0, -1, now)
      {
        if !evs[i].online && open == -1 {
          open := evs[i].ts;
        } else if evs[i].online && open != -1 {
          intervals := intervals + [Interval(open, evs[i].ts)];
          open := -1;
        }
      }
      if open != -1 {
        intervals := intervals + [Interval(open, now)];
      }
    }

    /** Second half: clip them to the window, add them up and count them. */
    static method ClipAll(intervals: seq<Interval>, windowStart: int, now: int) returns (down: nat, n: nat)
      ensures down == ClippedTotal(intervals, windowStart, now)
      ensures n == ClippedCount(intervals, windowStart, now)
    {
      down, n := 0, 0;
      for i := 0 to |intervals|
        invariant down + ClippedTotal(intervals[i..], windowStart, now) == ClippedTotal(intervals, windowStart, now)
        invariant n + ClippedCount(intervals[i..], windowStart, now) == ClippedCount(intervals, windowStart, now)
      {
        assert intervals[i..][1..] == intervals[i + 1..];
        var iv := intervals[i];
        if iv.end <= windowStart || iv.start >= now { continue; }
        var a := if iv.start < windowStart then windowStart else iv.start;
        var b := if iv.end > now then now else iv.end;
        if b > a { down, n := down + (b - a), n + 1; }
      }
    }

    method IncidentStats(id: string, window: int, now: int) returns (r: IncidentSummary)
      ensures r == SummaryOf(HistoryOf(id), window, now)
    {
      var evs := HistoryOf(id);
      if |evs| == 0 { return IncidentSummary(0, 0, 0); }
      var windowSec := WindowSeconds(window);
      var intervals := Outages(evs, now);
      var down, n := ClipAll(intervals, now - windowSec, now);
      if n == 0 { return IncidentSummary(window, 0, 0); }
      var up := windowSec - down;
      if up < 0 { up := 0; }
      r := IncidentSummary(up * SECOND / n, down * SECOND / n, n);
    }
  }
}
