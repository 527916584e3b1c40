/** The readings of the rolling log in plain terms: what is counted, and over which seconds. */
module SummaryProofs {
  import opened Rolling
  import opened RollingProofs

  // ---------------------------------------------------------------- what Record keeps

  predicate IsChange(calls: seq<Event>, i: nat)
    requires i < |calls|
  {
    i == 0 || calls[i].online != calls[i - 1].online
  }

  /** The first n calls without those that repeat the state before them. */
  function ChangesIn(calls: seq<Event>, n: nat): seq<Event>
    requires n <= |calls|
  {
    if n == 0 then [] else ChangesIn(calls, n - 1) + (if IsChange(calls, n - 1) then [calls[n - 1]] else [])
  }

  function Newest(s: seq<Event>, n: nat): seq<Event> {
    if |s| <= n then s else s[|s| - n..]
  }

  lemma {:induction false} ChangesOfPrefix(calls: seq<Event>, m: nat, n: nat)
    requires n <= m <= |calls|
    ensures ChangesIn(calls[..m], n) == ChangesIn(calls, n)
  {
    if n > 0 { ChangesOfPrefix(calls, m, n - 1); }
  }

  lemma NewestSnoc(s: seq<Event>, e: Event, n: nat)
    requires n > 0
    ensures Newest(s + [e], n) == Newest(Newest(s, n) + [e], n)
  {
  }

  lemma NewestNone(n: nat)
    ensures Newest([], n) == []
  {
  }

  /** The log is the newest of all changes of state, each with its time. */
  lemma {:induction false} RecordedAreChanges(calls: seq<Event>, maxSize: nat)
    requires maxSize > 0
    ensures Recorded(calls, maxSize) == Newest(ChangesIn(calls, |calls|), maxSize)
  {
    hide Push, Newest, Alternating;
    if calls == [] {
      NewestNone(maxSize);
    } else {
      var n := |calls| - 1;
      RecordedAreChanges(calls[..n], maxSize);
      ChangesOfPrefix(calls, n, n);
      RecordedShape(calls[..n], maxSize);
      NewestSnoc(ChangesIn(calls, n), calls[n], maxSize);
      PushIsNewest(Recorded(calls[..n], maxSize), calls[n], maxSize);
      assert n > 0 ==> calls[..n][n - 1] == calls[n - 1];
      assert ChangesIn(calls, n) + [] == ChangesIn(calls, n);
    }
  }

  lemma PushIsNewest(evs: History, e: Event, maxSize: nat)
    requires maxSize > 0
    ensures Push(evs, e.online, e.ts, maxSize)
         == if evs != [] && evs[|evs| - 1].online == e.online then evs else Newest(evs + [e], maxSize)
  {
  }

  // ---------------------------------------------------------------- flaps

  /** The offline events of the last 86400 seconds. */
  ghost function OfflineLately(evs: History, now: int): set<int> {
    set i | 0 <= i < |evs| && !evs[i].online && now - 86_400 <= evs[i].ts <= now
  }

  ghost function LatelyFrom(evs: History, k: nat, now: int): set<int> {
    set i | k <= i < |evs| && !evs[i].online && now - 86_400 <= evs[i].ts <= now
  }

  lemma {:induction false} FlapsFromCounts(evs: History, k: nat, now: int)
    requires k <= |evs|
    ensures FlapsFrom(evs, k, now) == |LatelyFrom(evs, k, now)|
    decreases |evs| - k
  {
    if k < |evs| {
      FlapsFromCounts(evs, k + 1, now);
      assert LatelyFrom(evs, k, now)
          == LatelyFrom(evs, k + 1, now)
             + if !evs[k].online && now - 86_400 <= evs[k].ts <= now then {k} else {};
    }
  }

  lemma FlapsCount(evs: History, now: int)
    ensures FlapsOf(evs, now) == |OfflineLately(evs, now)|
  {
    FlapsFromCounts(evs, 0, now);
    assert LatelyFrom(evs, 0, now) == OfflineLately(evs, now);
  }

  // ---------------------------------------------------------------- incidents

  /** Event k begins an outage that lasts over some second from a to b - 1. */
  ghost predicate DownDuring(evs: History, k: int, a: int, b: int) {
    0 <= k < |evs| && !evs[k].online && exists s | a <= s < b :: IsLatest(evs, k, s)
  }

  ghost function OutagesFrom(evs: History, i: nat, a: int, b: int): set<int> {
    set k | i <= k < |evs| && DownDuring(evs, k, a, b)
  }

  /** The outages that meet the seconds from a to b - 1, each named by the event that begins it. */
  ghost function OutagesIn(evs: History, a: int, b: int): set<int> {
    set k | 0 <= k < |evs| && DownDuring(evs, k, a, b)
  }

  lemma OutagesFirst(evs: History, i: nat, a: int, b: int)
    requires i < |evs|
    ensures OutagesFrom(evs, i, a, b) == OutagesFrom(evs, i + 1, a, b) + if DownDuring(evs, i, a, b) then {i} else {}
  {
    hide DownDuring;
  }

  /** When the state that event k began is over. */
  function EndOf(evs: History, k: nat, now: int): int
    requires k < |evs|
  {
    if k + 1 < |evs| then evs[k + 1].ts else now
  }

  lemma ClipMeets(evs: History, k: nat, a: int, now: int)
    requires Sorted(evs) && k < |evs| && !evs[k].online && a < now
    ensures Clip(Interval(evs[k].ts, EndOf(evs, k, now)), a, now) > 0 <==> DownDuring(evs, k, a, now)
  {
    var from := Max(a, evs[k].ts);
    if Clip(Interval(evs[k].ts, EndOf(evs, k, now)), a, now) > 0 {
      forall j | k < j < |evs| ensures evs[j].ts > from { assert evs[k + 1].ts <= evs[j].ts; }
      assert IsLatest(evs, k, from);
    }
    if DownDuring(evs, k, a, now) {
      var s :| a <= s < now && IsLatest(evs, k, s);
      assert evs[k].ts <= s && (k + 1 < |evs| ==> evs[k + 1].ts > s);
    }
  }

  lemma {:induction false} IncidentsCounted(evs: History, i: nat, open: int, a: int, now: int)
    requires Sorted(evs) && NonNegative(evs) && Alternating(evs) && i <= |evs| && a < now
    requires (open != -1) <==> (i > 0 && !evs[i - 1].online)
    requires open != -1 ==> open == evs[i - 1].ts
    ensures ClippedCount(IntervalsFrom(evs, i, open, now), a, now)
         == |OutagesFrom(evs, if open != -1 then i - 1 else i, a, now)|
    decreases |evs| - i
  {
    hide DownDuring, Clip;
    if open != -1 {
      ClipMeets(evs, i - 1, a, now);
      OutagesFirst(evs, i - 1, a, now);
    }
    if i < |evs| {
      IncidentsCounted(evs, i + 1, if evs[i].online then -1 else evs[i].ts, a, now);
      OutagesFirst(evs, i, a, now);
      if evs[i].online {
        OnlineIsNoOutage(evs, i, a, now);
      }
    }
  }

  lemma OnlineIsNoOutage(evs: History, i: nat, a: int, b: int)
    requires i < |evs| && evs[i].online
    ensures !DownDuring(evs, i, a, b)
  {
  }

  /**
   IncidentStats over a window of w seconds: how many outages meet it, and the offline and the online seconds of the
   window shared out among them. Without one, the mean time between failures is the window as given.
   */
  lemma SummaryMeans(evs: History, window: int, now: int)
    requires Sorted(evs) && NonNegative(evs) && Alternating(evs)
    ensures var w := if window < 1_000_000_000 then 86_400 else window / 1_000_000_000;
            var r, n := SummaryOf(evs, window, now), |OutagesIn(evs, now - w, now)|;
            var off := OfflineSeconds(evs, now - w, now);
            && r.incidents == n && off <= w
            && (n > 0 ==> r.mttr == off * 1_000_000_000 / n && r.mtbf == (w - off) * 1_000_000_000 / n)
            && (n == 0 ==> r.mttr == 0 && r.mtbf == if evs == [] then 0 else window)
  {
    hide IntervalsFrom, ClippedTotal, ClippedCount, DownDuring;
    var w := WindowSeconds(window);
    assert OutagesFrom(evs, 0, now - w, now) == OutagesIn(evs, now - w, now);
    if evs != [] {
      ClippedCounts(evs, 0, -1, now - w, now);
      IncidentsCounted(evs, 0, -1, now - w, now);
      AllOffline(evs, now - w, now);
    }
  }

  // ---------------------------------------------------------------- uptime

  /**
   UptimePercent, every case: nothing recorded counts as up; a log that begins now or later gives its last state; any
   other the share of online seconds since the window or the log began, whichever is later.
   */
  lemma UptimeMeans(evs: History, window: int, now: int)
    requires Sorted(evs)
    ensures evs == [] ==> UptimeOf(evs, window, now) == 100.0
    ensures evs != [] ==>
              var w := if window < 1_000_000_000 then 86_400 else window / 1_000_000_000;
              var start := if evs[0].ts <= now - w then now - w else evs[0].ts;
              if now <= start then UptimeOf(evs, window, now) == if evs[|evs| - 1].online then 100.0 else 0.0
              else
                var share := (now - start - OfflineSeconds(evs, start, now)) as real / (now - start) as real;
                UptimeOf(evs, window, now) == share * 100.0 && 0.0 <= UptimeOf(evs, window, now) <= 100.0
  {
    if evs != [] && ActualStart(evs, now - WindowSeconds(window)) < now { UptimeIsOnlineShare(evs, window, now); }
  }
}
