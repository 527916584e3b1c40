/** What the readings of the rolling log mean, for every history the log can hold. */
module RollingProofs {
  import opened Rolling

  // ---------------------------------------------------------------- what Record keeps

  lemma {:induction false} RecordedShape(calls: seq<Event>, maxSize: nat)
    requires maxSize > 0
    ensures |Recorded(calls, maxSize)| <= maxSize
    ensures Alternating(Recorded(calls, maxSize))
    ensures calls != [] ==> Recorded(calls, maxSize) != []
    ensures calls != [] ==> var h := Recorded(calls, maxSize); h[|h| - 1].online == calls[|calls| - 1].online
  {
    if calls != [] {
      var last := calls[|calls| - 1];
      RecordedShape(calls[..|calls| - 1], maxSize);
      PushShape(Recorded(calls[..|calls| - 1], maxSize), last.online, last.ts, maxSize);
    }
  }

  lemma PushShape(evs: History, online: bool, ts: int, maxSize: nat)
    requires maxSize > 0 && |evs| <= maxSize && Alternating(evs)
    ensures var h := Push(evs, online, ts, maxSize);
            0 < |h| <= maxSize && Alternating(h) && h[|h| - 1].online == online
  {
  }

  lemma PushSorted(evs: History, online: bool, ts: int, maxSize: nat)
    requires maxSize > 0 && Sorted(evs) && forall e | e in evs :: e.ts <= ts
    ensures var h := Push(evs, online, ts, maxSize);
            Sorted(h) && forall e | e in h :: e in evs || e == Event(ts, online)
  {
    var longer := evs + [Event(ts, online)];
    forall i, j | 0 <= i < j < |longer| ensures longer[i].ts <= longer[j].ts {
      if j == |evs| { assert evs[i] in evs; }
    }
    var h := Push(evs, online, ts, maxSize);
    if h != evs {
      var d := |longer| - |h|;
      assert h == longer[d..];
      forall i | 0 <= i < |h| ensures h[i] == longer[i + d] {}
    }
  }

  lemma {:induction false} RecordedSorted(calls: seq<Event>, maxSize: nat)
    requires maxSize > 0 && Sorted(calls)
    ensures Sorted(Recorded(calls, maxSize))
    ensures forall e | e in Recorded(calls, maxSize) :: e in calls
  {
    if calls != [] {
      var before, last := calls[..|calls| - 1], calls[|calls| - 1];
      RecordedSorted(before, maxSize);
      forall e | e in Recorded(before, maxSize) ensures e.ts <= last.ts && e in calls { assert e in before; }
      PushSorted(Recorded(before, maxSize), last.online, last.ts, maxSize);
    }
  }

  /** The capped log is the newest part of the log that would be kept without a cap. */
  lemma {:induction false} CappedIsSuffix(calls: seq<Event>, maxSize: nat, unbounded: nat)
    requires 0 < maxSize && |calls| < unbounded
    ensures |Recorded(calls, unbounded)| <= |calls|
    ensures Recorded(calls, maxSize) == [] ==> calls == []
    ensures var full, cut := Recorded(calls, unbounded), Recorded(calls, maxSize);
            |cut| <= |full| && cut == full[|full| - |cut|..]
  {
    hide Push, Alternating;
    if calls != [] {
      var before, last := calls[..|calls| - 1], calls[|calls| - 1];
      CappedIsSuffix(before, maxSize, unbounded);
      RecordedShape(before, maxSize);
      RecordedShape(calls, maxSize);
      PushKeepsSuffix(Recorded(before, unbounded), Recorded(before, maxSize), last, maxSize, unbounded);
    }
  }

  lemma PushKeepsSuffix(full: History, cut: History, e: Event, maxSize: nat, unbounded: nat)
    requires 0 < maxSize && |full| < unbounded && |cut| <= |full| && cut == full[|full| - |cut|..]
    requires cut == [] ==> full == []
    ensures var full', cut' := Push(full, e.online, e.ts, unbounded), Push(cut, e.online, e.ts, maxSize);
            |full'| <= |full| + 1 && |cut'| <= |full'| && cut' == full'[|full'| - |cut'|..]
  {
    var longer, longest := cut + [Event(e.ts, e.online)], full + [Event(e.ts, e.online)];
    assert longer == longest[|longest| - |longer|..];
    if |longer| > maxSize {
      assert longer[|longer| - maxSize..] == longest[|longest| - maxSize..];
    }
  }

  // ---------------------------------------------------------------- the sweep counts offline seconds

  lemma {:induction false} StartState(evs: History, i: nat, start: int)
    requires Sorted(evs) && i <= |evs|
    requires i > 0 ==> evs[i - 1].ts <= start
    ensures StartStateFrom(evs, i, start, i == 0 || evs[i - 1].online) <==> !OfflineAt(evs, start)
    decreases |evs| - i
  {
    if i == |evs| || evs[i].ts > start {
      StateBetween(evs, i, start);
    } else {
      StartState(evs, i + 1, start);
    }
  }

  /** Events up to the window start are passed over. */
  lemma {:induction false} SkipEarly(evs: History, i: nat, start: int, now: int, online: bool) returns (k: nat)
    requires Sorted(evs) && i <= |evs| && start < now
    requires i > 0 ==> evs[i - 1].ts <= start
    ensures i <= k <= |evs|
    ensures (k > 0 ==> evs[k - 1].ts <= start) && (k < |evs| ==> evs[k].ts > start)
    ensures SweepFrom(evs, i, start, now, online, start) == SweepFrom(evs, k, start, now, online, start)
    decreases |evs| - i
  {
    if i == |evs| || evs[i].ts > start {
      k := i;
    } else {
      k := SkipEarly(evs, i + 1, start, now, online);
    }
  }

  lemma {:induction false} SweepCounts(evs: History, i: nat, start: int, now: int, online: bool, last: int)
    requires Sorted(evs) && i <= |evs|
    requires start <= last <= now
    requires i > 0 ==> evs[i - 1].ts <= last
    requires i < |evs| ==> evs[i].ts > start && evs[i].ts >= last
    requires online == (i == 0 || evs[i - 1].online)
    ensures SweepFrom(evs, i, start, now, online, last) == OfflineSeconds(evs, last, now)
    decreases |evs| - i
  {
    var next := if i < |evs| && evs[i].ts <= now then evs[i].ts else now;
    forall s | last <= s < next ensures OfflineAt(evs, s) == !online {
      StateBetween(evs, i, s);
    }
    OfflineUniform(evs, last, next, !online);
    if i < |evs| && evs[i].ts <= now {
      SweepCounts(evs, i + 1, start, now, evs[i].online, evs[i].ts);
      OfflineSplit(evs, last, next, now);
    }
  }

  lemma SweepIsOfflineSeconds(evs: History, start: int, now: int)
    requires Sorted(evs) && start < now
    ensures SweepDowntime(evs, start, now) == OfflineSeconds(evs, start, now)
  {
    StartState(evs, 0, start);
    var online := StartStateFrom(evs, 0, start, true);
    var k := SkipEarly(evs, 0, start, now, online);
    StateBetween(evs, k, start);
    SweepCounts(evs, k, start, now, online, start);
  }

  // ---------------------------------------------------------------- the clipped intervals do too

  /** Where the seconds not yet accounted for begin: at the pending outage, or at the next event. */
  function Frontier(evs: History, i: nat, open: int, now: int): int
    requires i <= |evs|
  {
    if open != -1 then open else if i < |evs| then evs[i].ts else now
  }

  function Max(a: int, b: int): int { if a < b then b else a }

  lemma {:induction false} ClippedCounts(evs: History, i: nat, open: int, windowStart: int, now: int)
    requires Sorted(evs) && NonNegative(evs) && i <= |evs| && windowStart < now
    requires (open != -1) <==> (i > 0 && !evs[i - 1].online)
    requires open != -1 ==> 0 <= open <= evs[i - 1].ts
    requires open != -1 ==> forall s | open <= s && (i < |evs| ==> s < evs[i].ts) :: OfflineAt(evs, s)
    ensures ClippedTotal(IntervalsFrom(evs, i, open, now), windowStart, now)
         == OfflineSeconds(evs, Max(windowStart, Frontier(evs, i, open, now)), now)
    decreases |evs| - i
  {
    var from := Max(windowStart, Frontier(evs, i, open, now));
    if i == |evs| {
      if open != -1 && from < now { OfflineUniform(evs, from, now, true); }
    } else {
      var open' := if evs[i].online then -1 else if open == -1 then evs[i].ts else open;
      forall s | open' != -1 && open' <= s && (i + 1 < |evs| ==> s < evs[i + 1].ts) ensures OfflineAt(evs, s) {
        if s >= evs[i].ts { StateBetween(evs, i + 1, s); }
      }
      ClippedCounts(evs, i + 1, open', windowStart, now);
      var from' := Max(windowStart, Frontier(evs, i + 1, open', now));
      if evs[i].online {
        StepOverOnline(evs, i, open, windowStart, now, from, from');
      }
    }
  }

  /** Event i ends any pending outage; from there to the next event every second is online. */
  lemma StepOverOnline(evs: History, i: nat, open: int, windowStart: int, now: int, from: int, from': int)
    requires Sorted(evs) && i < |evs| && evs[i].online && windowStart < now
    requires open != -1 ==> open <= evs[i].ts && forall s | open <= s < evs[i].ts :: OfflineAt(evs, s)
    requires from == Max(windowStart, Frontier(evs, i, open, now))
    requires from' == Max(windowStart, Frontier(evs, i + 1, -1, now))
    ensures OfflineSeconds(evs, from, now)
         == (if open != -1 then Clip(Interval(open, evs[i].ts), windowStart, now) else 0)
            + OfflineSeconds(evs, from', now)
  {
    var mid := Max(windowStart, evs[i].ts);
    if mid < now {
      var stop := if from' < now then from' else now;
      if mid <= stop {
        forall s | mid <= s < stop ensures !OfflineAt(evs, s) { StateBetween(evs, i + 1, s); }
        OfflineUniform(evs, mid, stop, false);
        OfflineSplit(evs, mid, stop, now);
      }
      OfflineUniform(evs, from, mid, true);
      OfflineSplit(evs, from, mid, now);
    } else if from < now {
      OfflineUniform(evs, from, now, true);
    }
  }

  /** Before the first event nothing is offline. */
  lemma NothingBeforeFirst(evs: History, a: int, b: int)
    requires Sorted(evs) && a <= b && (a == b || evs == [] || b <= evs[0].ts)
    ensures OfflineSeconds(evs, a, b) == 0
  {
    forall s | a <= s < b ensures !OfflineAt(evs, s) { StateBetween(evs, 0, s); }
    OfflineUniform(evs, a, b, false);
  }

  /**
   Both algorithms compute the same downtime, which is the number of offline seconds in the window,
   and neither result ever exceeds the span it is clamped to.
   */
  lemma DowntimeAgrees(evs: History, window: int, now: int)
    requires evs != [] && Sorted(evs) && NonNegative(evs)
    requires ActualStart(evs, now - WindowSeconds(window)) < now
    ensures var w := WindowSeconds(window);
            var start := ActualStart(evs, now - w);
            && SweepDowntime(evs, start, now) == OfflineSeconds(evs, now - w, now)
            && ClippedTotal(IntervalsFrom(evs, 0, -1, now), now - w, now) == OfflineSeconds(evs, now - w, now)
            && OfflineSeconds(evs, now - w, now) <= now - start <= w
  {
    var w := WindowSeconds(window);
    var start := ActualStart(evs, now - w);
    SweepIsOfflineSeconds(evs, start, now);
    ClippedCounts(evs, 0, -1, now - w, now);
    NothingBeforeFirst(evs, now - w, start);
    OfflineSplit(evs, now - w, start, now);
  }

  /** UptimePercent is exactly the share of online seconds in the observed part of the window. */
  lemma UptimeIsOnlineShare(evs: History, window: int, now: int)
    requires evs != [] && Sorted(evs)
    requires ActualStart(evs, now - WindowSeconds(window)) < now
    ensures var start := ActualStart(evs, now - WindowSeconds(window));
            var share := (now - start - OfflineSeconds(evs, start, now)) as real / (now - start) as real;
            UptimeOf(evs, window, now) == share * 100.0 && 0.0 <= UptimeOf(evs, window, now) <= 100.0
  {
    var start := ActualStart(evs, now - WindowSeconds(window));
    SweepIsOfflineSeconds(evs, start, now);
    var up, span := (now - start - OfflineSeconds(evs, start, now)) as real, (now - start) as real;
    assert 0.0 <= up / span <= 1.0 by { Share(up, span); }
  }

  lemma Share(up: real, span: real)
    requires 0.0 <= up <= span && span > 0.0
    ensures 0.0 <= up / span <= 1.0
  {
    assert 0.0 / span <= up / span <= span / span;
  }

  /** The same for the log left by any run of Record calls with nondecreasing, nonnegative times. */
  lemma DowntimeAgreesOnEveryRun(calls: seq<Event>, maxSize: nat, window: int, now: int)
    requires maxSize > 0 && Sorted(calls) && NonNegative(calls) && calls != []
    requires ActualStartOfRun(calls, maxSize, now - WindowSeconds(window)) < now
    ensures var evs := Recorded(calls, maxSize);
            var w := WindowSeconds(window);
            var start := ActualStartOfRun(calls, maxSize, now - w);
            && SweepDowntime(evs, start, now) == ClippedTotal(IntervalsFrom(evs, 0, -1, now), now - w, now)
            && SweepDowntime(evs, start, now) == OfflineSeconds(evs, now - w, now) <= now - start
  {
    RecordedSorted(calls, maxSize);
    RecordedShape(calls, maxSize);
    var evs := Recorded(calls, maxSize);
    forall i | 0 <= i < |evs| ensures evs[i].ts >= 0 { assert evs[i] in calls; }
    DowntimeAgrees(evs, window, now);
  }

  function ActualStartOfRun(calls: seq<Event>, maxSize: nat, windowStart: int): int
    requires maxSize > 0 && calls != []
  {
    RecordedShape(calls, maxSize);
    ActualStart(Recorded(calls, maxSize), windowStart)
  }

  /**
   A clock that steps back breaks the agreement: an outage recorded at 50 that "ends" at 20 is
   negative downtime for the sweep, which then reports more than 100 percent.
   */
  lemma SteppedBackClock()
    ensures var evs := [Event(0, true), Event(50, false), Event(20, true)];
            && Recorded(evs, 1000) == evs
            && SweepDowntime(evs, 0, 100) == -30
            && ClippedTotal(IntervalsFrom(evs, 0, -1, 100), 0, 100) == 0
            && UptimeOf(evs, 100 * SECOND, 100) == 130.0
  {
    var e0, e1, e2 := Event(0, true), Event(50, false), Event(20, true);
    var evs := [e0, e1, e2];
    assert evs[..2] == [e0, e1] && [e0, e1][..1] == [e0] && [e0][..0] == [];
    assert Recorded([], 1000) == [];
    assert Recorded([e0], 1000) == [e0];
    assert Recorded([e0, e1], 1000) == [e0, e1];
    assert SweepFrom(evs, 3, 0, 100, true, 20) == 0;
    assert SweepFrom(evs, 2, 0, 100, false, 50) == -30;
    assert SweepFrom(evs, 1, 0, 100, true, 0) == -30;
    assert StartStateFrom(evs, 1, 0, true) == true;
    assert SweepDowntime(evs, 0, 100) == -30;
    assert IntervalsFrom(evs, 3, -1, 100) == [];
    assert IntervalsFrom(evs, 2, 50, 100) == [Interval(50, 20)];
    assert IntervalsFrom(evs, 1, -1, 100) == [Interval(50, 20)];
    assert IntervalsFrom(evs, 0, -1, 100) == [Interval(50, 20)];
  }

  // ---------------------------------------------------------------- the cap is harmless inside the window

  /** From the oldest retained event on, the capped log and the full one agree on every second. */
  lemma SuffixAgrees(full: History, cut: History, s: int)
    requires |cut| <= |full| && cut == full[|full| - |cut|..]
    requires cut != [] && cut[0].ts <= s
    ensures OfflineAt(cut, s) <==> OfflineAt(full, s)
  {
    var d := |full| - |cut|;
    forall i | 0 <= i < |cut| ensures IsLatest(cut, i, s) <==> IsLatest(full, i + d, s) {
      if IsLatest(cut, i, s) {
        forall j | i + d < j < |full| ensures full[j].ts > s { assert cut[j - d].ts > s; }
      }
      if IsLatest(full, i + d, s) {
        forall j | i < j < |cut| ensures cut[j].ts > s { assert full[j + d].ts > s; }
      }
    }
    assert full[d] == cut[0];
    forall i | 0 <= i < d ensures !IsLatest(full, i, s) { assert full[d].ts <= s; }
    if OfflineAt(full, s) {
      var i :| 0 <= i < |full| && IsLatest(full, i, s) && !full[i].online;
      assert IsLatest(cut, i - d, s);
    }
  }

  lemma {:induction false} SuffixCountsAlike(full: History, cut: History, a: int, b: int)
    requires |cut| <= |full| && cut == full[|full| - |cut|..]
    requires cut != [] && cut[0].ts <= a
    ensures OfflineSeconds(cut, a, b) == OfflineSeconds(full, a, b)
    decreases b - a
  {
    if a < b {
      SuffixAgrees(full, cut, b - 1);
      SuffixCountsAlike(full, cut, a, b - 1);
    }
  }

  /** If the oldest retained event is not inside the window, dropping older ones changed neither reading. */
  lemma TruncationHarmless(calls: seq<Event>, maxSize: nat, unbounded: nat, window: int, now: int)
    requires 0 < maxSize && |calls| < unbounded && Sorted(calls)
    requires Recorded(calls, maxSize) != [] ==> Recorded(calls, maxSize)[0].ts <= now - WindowSeconds(window)
    ensures UptimeOf(Recorded(calls, maxSize), window, now) == UptimeOf(Recorded(calls, unbounded), window, now)
    ensures NonNegative(calls) ==>
              SummaryOf(Recorded(calls, maxSize), window, now) == SummaryOf(Recorded(calls, unbounded), window, now)
  {
    hide UptimeOf, SummaryOf;
    var full, cut := Recorded(calls, unbounded), Recorded(calls, maxSize);
    CappedIsSuffix(calls, maxSize, unbounded);
    RecordedSorted(calls, maxSize);
    RecordedSorted(calls, unbounded);
    if cut != [] {
      SuffixUptime(full, cut, window, now);
      if NonNegative(calls) {
        RecordedShape(calls, unbounded);
        assert NonNegative(full) by { forall i | 0 <= i < |full| ensures full[i].ts >= 0 { assert full[i] in calls; } }
        SuffixSummary(full, cut, window, now);
      }
    } else {
      assert full == [];
    }
  }

  lemma SuffixSummary(full: History, cut: History, window: int, now: int)
    requires Sorted(full) && Alternating(full) && NonNegative(full)
    requires 0 < |cut| <= |full| && cut == full[|full| - |cut|..]
    requires cut[0].ts <= now - WindowSeconds(window)
    ensures SummaryOf(cut, window, now) == SummaryOf(full, window, now)
  {
    hide ClippedTotal, ClippedCount, IntervalsFrom;
    SkipOutside(full, cut, 0, -1, now - WindowSeconds(window), now);
  }

  /** The same events give the same outages. */
  lemma {:induction false} ShiftedIntervals(full: History, cut: History, i: nat, open: int, now: int)
    requires |cut| <= |full| && cut == full[|full| - |cut|..] && i <= |cut|
    ensures IntervalsFrom(full, i + |full| - |cut|, open, now) == IntervalsFrom(cut, i, open, now)
    decreases |cut| - i
  {
    if i < |cut| {
      assert full[i + |full| - |cut|] == cut[i];
      var open' := if cut[i].online then -1 else if open == -1 then cut[i].ts else open;
      ShiftedIntervals(full, cut, i + 1, open', now);
    }
  }

  /** Outages that end before the window add nothing to it. */
  lemma EndedOutside(iv: Interval, rest: seq<Interval>, windowStart: int, now: int)
    requires iv.end <= windowStart
    ensures ClippedTotal([iv] + rest, windowStart, now) == ClippedTotal(rest, windowStart, now)
    ensures ClippedCount([iv] + rest, windowStart, now) == ClippedCount(rest, windowStart, now)
  {
    assert ([iv] + rest)[1..] == rest;
  }

  lemma {:induction false} SkipOutside(full: History, cut: History, i: nat, open: int, windowStart: int, now: int)
    requires Sorted(full) && Alternating(full) && NonNegative(full)
    requires 0 < |cut| <= |full| && cut == full[|full| - |cut|..] && cut[0].ts <= windowStart && i <= |full| - |cut|
    requires (open != -1) <==> (i > 0 && !full[i - 1].online)
    ensures var a, b := IntervalsFrom(full, i, open, now), IntervalsFrom(cut, 0, -1, now);
            && ClippedTotal(a, windowStart, now) == ClippedTotal(b, windowStart, now)
            && ClippedCount(a, windowStart, now) == ClippedCount(b, windowStart, now)
    decreases |full| - |cut| - i
  {
    hide ClippedTotal, ClippedCount;
    var d := |full| - |cut|;
    assert full[d] == cut[0] && full[i].ts <= windowStart;
    if i > 0 { assert full[i].online != full[i - 1].online; }
    if i < d {
      if full[i].online && open != -1 {
        SkipOutside(full, cut, i + 1, -1, windowStart, now);
        EndedOutside(Interval(open, full[i].ts), IntervalsFrom(full, i + 1, -1, now), windowStart, now);
      } else {
        SkipOutside(full, cut, i + 1, if full[i].online then -1 else full[i].ts, windowStart, now);
      }
    } else if open != -1 {
      ShiftedIntervals(full, cut, 1, -1, now);
      EndedOutside(Interval(open, full[i].ts), IntervalsFrom(full, i + 1, -1, now), windowStart, now);
    } else {
      ShiftedIntervals(full, cut, 0, -1, now);
    }
  }

  lemma SuffixUptime(full: History, cut: History, window: int, now: int)
    requires Sorted(full) && Sorted(cut)
    requires 0 < |cut| <= |full| && cut == full[|full| - |cut|..]
    requires cut[0].ts <= now - WindowSeconds(window)
    ensures UptimeOf(cut, window, now) == UptimeOf(full, window, now)
  {
    hide SweepDowntime, OfflineSeconds;
    var start := now - WindowSeconds(window);
    assert full[|full| - |cut|] == cut[0];
    assert ActualStart(full, start) == start == ActualStart(cut, start);
    SweepIsOfflineSeconds(cut, start, now);
    SweepIsOfflineSeconds(full, start, now);
    SuffixCountsAlike(full, cut, start, now);
  }

  // ---------------------------------------------------------------- incident counts and mean times

  lemma {:induction false} NoneAfterNow(evs: History, i: nat, open: int, windowStart: int, now: int)
    requires Sorted(evs) && i <= |evs|
    requires open != -1 ==> open >= now
    requires i < |evs| ==> evs[i].ts >= now
    ensures ClippedCount(IntervalsFrom(evs, i, open, now), windowStart, now) == 0
    decreases |evs| - i
  {
    if i < |evs| {
      var open' := if evs[i].online then -1 else if open == -1 then evs[i].ts else open;
      NoneAfterNow(evs, i + 1, open', windowStart, now);
    }
  }

  lemma {:induction false} IncidentsFromFlaps(evs: History, i: nat, open: int, now: int)
    requires Sorted(evs) && NonNegative(evs) && i <= |evs|
    requires open != -1 ==> i > 0 && 0 <= open <= evs[i - 1].ts
    ensures var n := ClippedCount(IntervalsFrom(evs, i, open, now), now - DAY, now);
            && n <= FlapsFrom(evs, i, now) + 1
            && (open == -1 && (i == |evs| || evs[i].ts >= now - DAY) ==> n <= FlapsFrom(evs, i, now))
    decreases |evs| - i
  {
    if i < |evs| {
      var open' := if evs[i].online then -1 else if open == -1 then evs[i].ts else open;
      IncidentsFromFlaps(evs, i + 1, open', now);
      if open == -1 && !evs[i].online && evs[i].ts > now {
        NoneAfterNow(evs, i + 1, open', now - DAY, now);
      }
    }
  }

  /** At most one incident of the last day began before it; the others are all counted as flaps. */
  lemma IncidentsAtMostFlapsPlusOne(evs: History, now: int)
    requires Sorted(evs) && NonNegative(evs)
    ensures SummaryOf(evs, DAY * SECOND, now).incidents <= FlapsOf(evs, now) + 1
  {
    assert WindowSeconds(DAY * SECOND) == DAY;
    IncidentsFromFlaps(evs, 0, -1, now);
  }

  lemma DivisionLoss(x: int, n: int)
    requires n > 0
    ensures x - (n - 1) <= n * (x / n) <= x
  {
  }

  /**
   MTTR and MTBF share out the offline and the online part of the window, up to the nanoseconds lost in each division.
   */
  lemma MeanTimesCoverWindow(evs: History, window: int, now: int)
    requires Sorted(evs) && NonNegative(evs) && window > 0 && window % SECOND == 0
    requires SummaryOf(evs, window, now).incidents > 0
    ensures var r, off := SummaryOf(evs, window, now), OfflineSeconds(evs, now - window / SECOND, now) * SECOND;
            && off - (r.incidents - 1) <= r.incidents * r.mttr <= off
            && window - off - (r.incidents - 1) <= r.incidents * r.mtbf <= window - off
  {
    SummaryParts(evs, window, now);
    hide SummaryOf;
    var r, off := SummaryOf(evs, window, now), OfflineSeconds(evs, now - window / SECOND, now);
    assert WindowSeconds(window) == window / SECOND;
    DivisionLoss(off * SECOND, r.incidents);
    DivisionLoss((window / SECOND - off) * SECOND, r.incidents);
  }

  lemma SummaryParts(evs: History, window: int, now: int)
    requires Sorted(evs) && NonNegative(evs) && SummaryOf(evs, window, now).incidents > 0
    ensures var r, w := SummaryOf(evs, window, now), WindowSeconds(window);
            var down := OfflineSeconds(evs, now - w, now);
            down <= w && r.mttr == down * SECOND / r.incidents && r.mtbf == (w - down) * SECOND / r.incidents
  {
    var w := WindowSeconds(window);
    ClippedCounts(evs, 0, -1, now - w, now);
    AllOffline(evs, now - w, now);
  }

  /** Offline seconds before the first event do not exist. */
  lemma AllOffline(evs: History, a: int, now: int)
    requires Sorted(evs) && evs != [] && a < now
    ensures OfflineSeconds(evs, a, now) == OfflineSeconds(evs, Max(a, Frontier(evs, 0, -1, now)), now)
  {
    var from := Max(a, evs[0].ts);
    if from <= now {
      NothingBeforeFirst(evs, a, from);
      OfflineSplit(evs, a, from, now);
    } else {
      NothingBeforeFirst(evs, a, now);
    }
  }
}
