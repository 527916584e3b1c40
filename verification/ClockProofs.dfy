/** How far the clock must behave: exactly when the two downtime readings of the rolling log agree. */
module ClockProofs {
  import opened Rolling
  import opened RollingProofs

  /** For one window and one instant with a positive span, sweep and clipped intervals give one number. */
  ghost predicate AgreeAt(evs: History, window: int, now: int)
    requires evs != []
  {
    var w := WindowSeconds(window);
    ActualStart(evs, now - w) < now ==>
      SweepDowntime(evs, ActualStart(evs, now - w), now) == ClippedTotal(IntervalsFrom(evs, 0, -1, now), now - w, now)
  }

  ghost predicate ReadingsAgree(evs: History) {
    evs != [] ==> forall window, now :: AgreeAt(evs, window, now)
  }

  // ---------------------------------------------------------------- one event more

  lemma {:induction false} TotalConcat(a: seq<Interval>, b: seq<Interval>, windowStart: int, now: int)
    ensures ClippedTotal(a + b, windowStart, now)
              == ClippedTotal(a, windowStart, now) + ClippedTotal(b, windowStart, now)
  {
    hide Clip;
    if a == [] {
      assert a + b == b;
    } else {
      assert (a + b)[1..] == a[1..] + b;
      TotalConcat(a[1..], b, windowStart, now);
    }
  }

  /** The outages of h with one more event: it opens one at its time, or ends the pending one there. */
  lemma {:induction false} MoreIntervals(h: History, e: Event, i: nat, open: int, now: int) returns (x: seq<Interval>)
    requires h != [] && Alternating(h) && NonNegative(h) && h[|h| - 1].online != e.online && e.ts >= 0 && i <= |h|
    requires (open != -1) <==> (i > 0 && !h[i - 1].online)
    requires open != -1 ==> open == h[i - 1].ts
    ensures var t := h[|h| - 1].ts;
            && IntervalsFrom(h, i, open, now) == x + (if e.online then [Interval(t, now)] else [])
            && IntervalsFrom(h + [e], i, open, now) == x + [if e.online then Interval(t, e.ts) else Interval(e.ts, now)]
    decreases |h| - i
  {
    var more := h + [e];
    if i == |h| {
      assert more[i] == e;
      x := [];
    } else {
      assert more[i] == h[i];
      if i > 0 { assert h[i].online != h[i - 1].online; }
      if h[i].online && open != -1 {
        x := MoreIntervals(h, e, i + 1, -1, now);
        x := [Interval(open, h[i].ts)] + x;
      } else {
        x := MoreIntervals(h, e, i + 1, if h[i].online then -1 else h[i].ts, now);
      }
    }
  }

  /** What one event more does to the clipped downtime. */
  lemma ClippedMore(h: History, e: Event, windowStart: int, now: int)
    requires h != [] && Alternating(h) && NonNegative(h) && h[|h| - 1].online != e.online && e.ts >= 0
    ensures var t := h[|h| - 1].ts;
            ClippedTotal(IntervalsFrom(h + [e], 0, -1, now), windowStart, now)
            == ClippedTotal(IntervalsFrom(h, 0, -1, now), windowStart, now)
               + (if e.online then Clip(Interval(t, e.ts), windowStart, now) - Clip(Interval(t, now), windowStart, now)
                  else Clip(Interval(e.ts, now), windowStart, now))
  {
    hide Clip, IntervalsFrom;
    var x := MoreIntervals(h, e, 0, -1, now);
    var t := h[|h| - 1].ts;
    var last := if e.online then Interval(t, e.ts) else Interval(e.ts, now);
    TotalConcat(x, [last], windowStart, now);
    TotalConcat(x, [Interval(t, now)], windowStart, now);
    assert x + [] == x && [last][1..] == [] && [Interval(t, now)][1..] == [];
    OneClipped(last, windowStart, now);
    OneClipped(Interval(t, now), windowStart, now);
  }

  lemma OneClipped(iv: Interval, windowStart: int, now: int)
    ensures ClippedTotal([iv], windowStart, now) == Clip(iv, windowStart, now)
  {
    hide Clip;
  }

  /** An event before the start of the sweep, after events that are not, is never looked at. */
  lemma {:induction false} SweepPassesOver(h: History, e: Event, i: nat, start: int, now: int, online: bool, last: int)
    requires i <= |h| && e.ts <= start
    ensures SweepFrom(h + [e], i, start, now, online, last) == SweepFrom(h, i, start, now, online, last)
    decreases |h| - i
  {
    var more := h + [e];
    if i < |h| {
      assert more[i] == h[i];
      if !(h[i].ts > start && h[i].ts > now) {
        if h[i].ts <= start {
          SweepPassesOver(h, e, i + 1, start, now, online, last);
        } else {
          SweepPassesOver(h, e, i + 1, start, now, h[i].online, h[i].ts);
        }
      }
    } else {
      assert more[i] == e;
      assert SweepFrom(more, i + 1, start, now, online, last) == if !online && now > last then now - last else 0;
    }
  }

  lemma {:induction false} StartPassesOver(h: History, e: Event, i: nat, start: int, state: bool)
    requires i < |h| && h[|h| - 1].ts > start
    ensures StartStateFrom(h + [e], i, start, state) == StartStateFrom(h, i, start, state)
    decreases |h| - i
  {
    assert (h + [e])[i] == h[i];
    if h[i].ts <= start { StartPassesOver(h, e, i + 1, start, h[i].online); }
  }

  /** If every event is at or before the start, the start state is that of the last one. */
  lemma {:induction false} StartIsLast(evs: History, i: nat, start: int, state: bool)
    requires i <= |evs| && forall k | 0 <= k < |evs| :: evs[k].ts <= start
    ensures StartStateFrom(evs, i, start, state) == if i == |evs| then state else evs[|evs| - 1].online
    ensures forall now, online, last ::
              SweepFrom(evs, i, start, now, online, last) == if !online && now > last then now - last else 0
    decreases |evs| - i
  {
    if i < |evs| { StartIsLast(evs, i + 1, start, evs[i].online); }
  }

  // ---------------------------------------------------------------- when they agree

  lemma SortedAgrees(evs: History)
    requires evs != [] && Sorted(evs) && NonNegative(evs)
    ensures ReadingsAgree(evs)
  {
    hide SweepDowntime, ClippedTotal, IntervalsFrom;
    forall window, now ensures AgreeAt(evs, window, now) {
      if ActualStart(evs, now - WindowSeconds(window)) < now { DowntimeAgrees(evs, window, now); }
    }
  }

  /** All earlier events fall on one second and the outage that begins there ends before it. */
  lemma EndedBeforeItBegan(h: History, e: Event)
    requires Regular(h, e) && e.online && h[0].ts == h[|h| - 1].ts && e.ts < h[0].ts
    ensures ReadingsAgree(h + [e])
  {
    hide IntervalsFrom, ClippedTotal, StartStateFrom, SweepFrom;
    var evs, t := h + [e], h[0].ts;
    forall window, now ensures AgreeAt(evs, window, now) {
      var w := WindowSeconds(window);
      var start := ActualStart(evs, now - w);
      if start < now {
        forall k | 0 <= k < |evs| ensures evs[k].ts <= start { assert k < |h| ==> h[k].ts == t && evs[k] == h[k]; }
        StartIsLast(evs, 0, start, true);
        ClippedMore(h, e, now - w, now);
        DowntimeAgrees(h, window, now);
        SweepOfOneSecond(h, ActualStart(h, now - w), now);
      }
    }
  }

  /** A log whose events all fall on one second, the last of them offline. */
  lemma SweepOfOneSecond(h: History, start: int, now: int)
    requires h != [] && !h[|h| - 1].online && start < now && forall k | 0 <= k < |h| :: h[k].ts <= start
    ensures SweepDowntime(h, start, now) == now - start
  {
    hide StartStateFrom, SweepFrom;
    StartIsLast(h, 0, start, true);
  }

  ghost predicate Regular(h: History, e: Event) {
    h != [] && Sorted(h) && Alternating(h) && NonNegative(h) && h[|h| - 1].online != e.online && e.ts >= 0
  }

  // ---------------------------------------------------------------- when they do not

  /** Over the two seconds around the last event the sweep overlooks the new one and the intervals do not. */
  lemma DisagreeAcross(h: History, e: Event)
    requires Regular(h, e) && h[0].ts < h[|h| - 1].ts && e.ts < h[|h| - 1].ts
    ensures !AgreeAt(h + [e], 2 * SECOND, h[|h| - 1].ts + 1)
  {
    hide IntervalsFrom, ClippedTotal, StartStateFrom, SweepFrom;
    var t := h[|h| - 1].ts;
    var evs, now, start := h + [e], t + 1, t - 1;
    assert WindowSeconds(2 * SECOND) == 2;
    assert ActualStart(evs, start) == start == ActualStart(h, start);
    StartPassesOver(h, e, 0, start, true);
    SweepPassesOver(h, e, 0, start, now, StartStateFrom(h, 0, start, true), start);
    assert SweepDowntime(evs, start, now) == SweepDowntime(h, start, now);
    DowntimeAgrees(h, 2 * SECOND, now);
    ClippedMore(h, e, start, now);
  }

  /** An outage that begins before everything else recorded: the sweep starts later than the intervals. */
  lemma DisagreeBefore(h: History, e: Event)
    requires Regular(h, e) && !e.online && h[0].ts == h[|h| - 1].ts && e.ts < h[0].ts
    ensures var t := h[0].ts; !AgreeAt(h + [e], (t + 1 - e.ts) * SECOND, t + 1)
  {
    hide IntervalsFrom, ClippedTotal, StartStateFrom, SweepFrom;
    var evs, t := h + [e], h[0].ts;
    var now, w := t + 1, t + 1 - e.ts;
    WholeSeconds(w);
    assert ActualStart(evs, now - w) == t;
    forall k | 0 <= k < |evs| ensures evs[k].ts <= t { assert k < |h| ==> h[k].ts == t && evs[k] == h[k]; }
    StartIsLast(evs, 0, t, true);
    ClippedMore(h, e, now - w, now);
  }

  lemma WholeSeconds(w: int)
    requires w > 0
    ensures WindowSeconds(w * SECOND) == w
  {
  }

  // ---------------------------------------------------------------- exactly

  /** The time of a new event does not go behind the log in a way that shows. */
  predicate ClockKept(h: History, e: Event) {
    h == [] || e.ts >= h[|h| - 1].ts || (e.online && h[0].ts == h[|h| - 1].ts)
  }

  lemma AgreeIffClockKept(h: History, e: Event)
    requires Regular(h, e)
    ensures ReadingsAgree(h + [e]) <==> ClockKept(h, e)
  {
    hide AgreeAt;
    var evs, t := h + [e], h[|h| - 1].ts;
    if e.ts >= t {
      assert Sorted(evs);
      SortedAgrees(evs);
    } else if h[0].ts < t {
      DisagreeAcross(h, e);
    } else if e.online {
      EndedBeforeItBegan(h, e);
    } else {
      DisagreeBefore(h, e);
    }
  }

  /** What of a full log survives a new event. */
  function Kept(h: History, maxSize: nat): History
    requires maxSize > 0 && |h| <= maxSize
  {
    if |h| == maxSize then h[1..] else h
  }

  /**
   From an ordered log, recording a change of state leaves a log on which the readings agree - for every
   window and every later question - if and only if its time is not before that of the last event kept, or
   it ends an outage in a log whose kept events all fall on one second.
   */
  lemma RecordAgreesIff(h: History, e: Event, maxSize: nat)
    requires maxSize > 0 && |h| <= maxSize && Regular(h, e)
    ensures ReadingsAgree(Push(h, e.online, e.ts, maxSize)) <==> ClockKept(Kept(h, maxSize), e)
  {
    hide ReadingsAgree, Regular, ClockKept, Push, Kept;
    var kept := Kept(h, maxSize);
    PushIsKept(h, e, maxSize);
    if kept == [] {
      SortedAgrees([e]);
      assert kept + [e] == [e];
    } else {
      AgreeIffClockKept(kept, e);
    }
    NothingKept(e);
  }

  lemma NothingKept(e: Event)
    ensures ClockKept([], e)
  {
  }

  lemma PushIsKept(h: History, e: Event, maxSize: nat)
    requires maxSize > 0 && |h| <= maxSize && Regular(h, e)
    ensures var kept := Kept(h, maxSize);
            Push(h, e.online, e.ts, maxSize) == kept + [e] && e.ts >= 0 && (kept != [] ==> Regular(kept, e))
  {
    assert e.ts >= 0 && h[|h| - 1].online != e.online;
    hide Sorted, Alternating, NonNegative;
    if |h| == maxSize {
      assert (h + [e])[1..] == h[1..] + [e];
      if h[1..] != [] { TailRegular(h, e); }
    }
  }

  lemma TailRegular(h: History, e: Event)
    requires Regular(h, e) && |h| > 1
    ensures Regular(h[1..], e)
  {
    var t := h[1..];
    assert forall i | 0 <= i < |t| :: t[i] == h[i + 1];
    assert Sorted(t) && NonNegative(t);
    forall i | 0 < i < |t| ensures t[i].online != t[i - 1].online { assert h[i + 1].online != h[i].online; }
  }
}
