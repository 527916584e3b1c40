/** What one call of ProcessSnapshot announces, which alerts stand after it, and what it records, proxy by proxy. */
module AlertOutcome {
  import opened Options
  import opened Text
  import opened Metrics
  import opened Rolling
  import opened Ledger
  import opened Alerts
  import opened AlertProofs
  import opened AlertTiming
  import opened SummaryProofs

  // ---------------------------------------------------------------- the outages announced

  /**
   An outage that goes to the chats: seen online before and offline now, outside quiet hours, of the master's own proxy
   or with node alerts on, and with at most ten offline events in a day, or fifteen minutes after the last announcement
   made with more.
   */
  ghost predicate Due(st: BotState, m: Metric, log: History, env: Env) {
    && !m.disabled && !m.online && m.id in st.lastSeen && st.lastSeen[m.id]
    && !env.quiet && (m.node == "" || env.nodeAlerts)
    && (|OfflineLately(log, env.now)| <= 10 || m.id !in st.lastFlap || env.now - st.lastFlap[m.id] >= 900)
  }

  lemma AnnouncedIsDue(st: BotState, m: Metric, env: Env)
    requires env.logSize > 0
    ensures Announced(st, m, env) <==> Due(st, m, LogOf(CheckedLedger(st, m, env), m.id), env)
  {
    hide CheckedLedger, FlapsOf, OfflineLately;
    FlapsCount(LogOf(CheckedLedger(st, m, env), m.id), env.now);
  }

  /** Log and totals of an enabled proxy after the call are those its own check left. */
  lemma CheckedAfter(st: BotState, snapshot: Snapshot, env: Env, m: Metric)
    requires env.logSize > 0 && UniqueIds(snapshot) && Coherent(st.alerts, env.targets) && st.seeded
    requires m in snapshot && !m.disabled
    ensures var own, after := CheckedLedger(st, m, env), Process(st, snapshot, env).st.ledger;
            LogOf(after, m.id) == LogOf(own, m.id) && Get(after.stats, m.id) == Get(own.stats, m.id)
  {
    hide Process, CheckedLedger, Announced, Resolved, Flapping;
    var k :| 0 <= k < |snapshot| && snapshot[k] == m;
    EnabledSlice(st, snapshot, env, k);
  }

  /** Exactly which outages a call announces, each once; the log is the one kept after the call. */
  lemma OutagesAnnounced(st: BotState, snapshot: Snapshot, env: Env, m: Metric)
    requires env.logSize > 0 && UniqueIds(snapshot) && Coherent(st.alerts, env.targets) && st.seeded
    ensures var after := Process(st, snapshot, env);
            && (m in after.outages <==> m in snapshot && Due(st, m, LogOf(after.st.ledger, m.id), env))
            && UniqueIds(after.outages)
  {
    hide DiffOne, Announced, CheckedLedger, OfflineLately;
    ScanOutages(st, snapshot, |snapshot|, env);
    OutagesUnique(st, snapshot, |snapshot|, env);
    assert snapshot[..|snapshot|] == snapshot;
    AnnouncedIsDue(st, m, env);
    if m in snapshot && !m.disabled { CheckedAfter(st, snapshot, env, m); }
  }

  lemma {:induction false} OutagesUnique(st: BotState, snapshot: Snapshot, i: nat, env: Env)
    requires env.logSize > 0 && i <= |snapshot| && UniqueIds(snapshot) && Coherent(st.alerts, env.targets)
    ensures UniqueIds(DiffUpTo(st, snapshot, i, env).outages)
  {
    hide Announced, CheckedLedger, Resolved, Flapping;
    if i > 0 {
      OutagesUnique(st, snapshot, i - 1, env);
      ScanOutages(st, snapshot, i - 1, env);
      var before := DiffUpTo(st, snapshot, i - 1, env).outages;
      forall k | 0 <= k < |before| ensures before[k].id != snapshot[i - 1].id {
        assert before[k] in snapshot[..i - 1];
        var j :| 0 <= j < i - 1 && snapshot[j] == before[k];
      }
    }
  }

  /** The first call announces nothing. */
  lemma FirstCallSilent(st: BotState, snapshot: Snapshot, env: Env)
    requires env.logSize > 0 && !st.seeded
    ensures Process(st, snapshot, env).outages == [] && Process(st, snapshot, env).st.seeded
  {
    hide SeedOne;
  }

  // ---------------------------------------------------------------- the alerts that stand afterwards

  function Standing(alerts: map<string, Alert>, t: Target, id: string): Option<Alert> {
    Get(alerts, AlertKey(t.chat, t.thread, id))
  }

  lemma KeyOfTarget(t: Target, id: string, t': Target, id': string)
    ensures AlertKey(t.chat, t.thread, id) == AlertKey(t'.chat, t'.thread, id') <==> t == t' && id == id'
  {
    hide AlertKey;
    if AlertKey(t.chat, t.thread, id) == AlertKey(t'.chat, t'.thread, id') {
      AlertKeyInjective(t.chat, t.thread, id, t'.chat, t'.thread, id');
    }
  }

  /** What sending makes of one chat's alert of the proxy announced. */
  function Sent(st: BotState, m: Metric, t: Target, asked: bool, env: Env): Option<Alert> {
    if asked && Standing(st.alerts, t, m.id) == None && env.send(t, m.id) != 0
        && !(m.id in st.lastSeen && st.lastSeen[m.id])
    then Some(Alert(t.chat, t.thread, env.send(t, m.id), m.id, m.name, env.now, m.reason))
    else Standing(st.alerts, t, m.id)
  }

  lemma {:induction false} SendToStanding(st: BotState, m: Metric, i: nat, env: Env, t: Target, id: string)
    requires i <= |env.targets|
    ensures var after := SendTo(st, m, i, env);
            && after.lastSeen == st.lastSeen
            && Standing(after.alerts, t, id) == if id == m.id then Sent(st, m, t, t in env.targets[..i], env)
                                                else Standing(st.alerts, t, id)
  {
    hide AlertKey;
    if i > 0 {
      SendToStanding(st, m, i - 1, env, t, id);
      KeyOfTarget(t, id, env.targets[i - 1], m.id);
      assert env.targets[..i] == env.targets[..i - 1] + [env.targets[i - 1]];
    }
  }

  lemma {:induction false} SendAllStanding(st: BotState, outages: seq<Metric>, i: nat, env: Env, t: Target, id: string)
    requires i <= |outages| && t in env.targets && UniqueIds(outages)
    ensures SendAll(st, outages, i, env).lastSeen == st.lastSeen
    ensures forall k | 0 <= k < i && outages[k].id == id ::
              Standing(SendAll(st, outages, i, env).alerts, t, id) == Sent(st, outages[k], t, true, env)
    ensures (forall k | 0 <= k < i :: outages[k].id != id) ==>
              Standing(SendAll(st, outages, i, env).alerts, t, id) == Standing(st.alerts, t, id)
  {
    hide SendTo, Standing;
    if i > 0 {
      SendAllStanding(st, outages, i - 1, env, t, id);
      SendToStanding(SendAll(st, outages, i - 1, env), outages[i - 1], |env.targets|, env, t, id);
      assert env.targets[..|env.targets|] == env.targets;
    }
  }

  lemma StandingInSlice(alerts: map<string, Alert>, targets: seq<Target>, t: Target, id: string)
    requires Coherent(alerts, targets)
    ensures Standing(alerts, t, id) == Standing(AlertsOf(alerts, id), t, id)
  {
    hide AlertKey;
    var key := AlertKey(t.chat, t.thread, id);
    if key in alerts {
      var a := alerts[key];
      AlertKeyInjective(t.chat, t.thread, id, a.chat, a.thread, a.id);
    }
  }

  /**
   The alert of one shown proxy in one configured chat after a call: a new one if its outage is announced, none stood
   and the message was sent; none if the proxy is disabled or came back; the one that stood otherwise.
   */
  lemma AlertAfterCall(st: BotState, snapshot: Snapshot, env: Env, m: Metric, t: Target)
    requires env.logSize > 0 && UniqueIds(snapshot) && Coherent(st.alerts, env.targets) && st.seeded
    requires m in snapshot && t in env.targets
    ensures var after := Process(st, snapshot, env);
            var key := AlertKey(t.chat, t.thread, m.id);
            var back := m.online && m.id in st.lastSeen && !st.lastSeen[m.id];
            Get(after.st.alerts, key) ==
              if m in after.outages && key !in st.alerts && env.send(t, m.id) != 0
              then Some(Alert(t.chat, t.thread, env.send(t, m.id), m.id, m.name, env.now, m.reason))
              else if m.disabled || back then None
              else Get(st.alerts, key)
  {
    hide DiffOne, AlertKey, Process, Announced;
    var k :| 0 <= k < |snapshot| && snapshot[k] == m;
    var w := DiffUpTo(st, snapshot, |snapshot|, env);
    ScanCoherent(st, snapshot, |snapshot|, env);
    SlicesAfterDiff(st, snapshot, env, k);
    StandingInSlice(st.alerts, env.targets, t, m.id);
    StandingInSlice(w.st.alerts, env.targets, t, m.id);
    AfterScan(st, snapshot, env, m, t);
    ScanOutages(st, snapshot, |snapshot|, env);
    assert snapshot[..|snapshot|] == snapshot;
    if m in w.outages { AnnouncedWentDown(st, m, env); }
  }

  lemma AnnouncedWentDown(st: BotState, m: Metric, env: Env)
    requires env.logSize > 0 && Announced(st, m, env)
    ensures !m.disabled && !m.online
  {
  }

  /** A call is the scan, the forgetting of what is gone, and the sending. */
  lemma CallParts(st: BotState, snapshot: Snapshot, env: Env)
    requires env.logSize > 0 && UniqueIds(snapshot) && Coherent(st.alerts, env.targets) && st.seeded
    ensures var w, after := DiffUpTo(st, snapshot, |snapshot|, env), Process(st, snapshot, env);
            var dropped := DropGone(w.st, EnabledIds(snapshot));
            && after.outages == w.outages && after.st == SendAll(dropped, w.outages, |w.outages|, env)
            && dropped.alerts == w.st.alerts && LastSeenIs(dropped, snapshot)
            && UniqueIds(w.outages)
            && forall m :: m in w.outages <==> m in snapshot && Announced(st, m, env)
  {
    hide DiffUpTo, Announced, SendAll, LastSeenIs, Pruned;
    ScanOutages(st, snapshot, |snapshot|, env);
    assert snapshot[..|snapshot|] == snapshot;
    OutagesUnique(st, snapshot, |snapshot|, env);
    LastSeenAfterDiff(st, snapshot, env);
  }

  lemma SeenOffline(st: BotState, snapshot: Snapshot, m: Metric)
    requires LastSeenIs(st, snapshot) && m in snapshot && !m.disabled && !m.online
    ensures m.id in st.lastSeen && !st.lastSeen[m.id]
  {
  }

  /** From the scan to the end of the call only sending touches alerts. */
  lemma AfterScan(st: BotState, snapshot: Snapshot, env: Env, m: Metric, t: Target)
    requires env.logSize > 0 && UniqueIds(snapshot) && Coherent(st.alerts, env.targets) && st.seeded
    requires m in snapshot && t in env.targets
    ensures var w, after := DiffUpTo(st, snapshot, |snapshot|, env), Process(st, snapshot, env);
            && after.outages == w.outages
            && Standing(after.st.alerts, t, m.id) ==
                if m in w.outages && Standing(w.st.alerts, t, m.id) == None && env.send(t, m.id) != 0
                then Some(Alert(t.chat, t.thread, env.send(t, m.id), m.id, m.name, env.now, m.reason))
                else Standing(w.st.alerts, t, m.id)
  {
    hide DiffUpTo, Process, DropGone, SendAll, Announced, LastSeenIs, EnabledIds, Coherent, Standing;
    var w := DiffUpTo(st, snapshot, |snapshot|, env);
    var dropped := DropGone(w.st, EnabledIds(snapshot));
    CallParts(st, snapshot, env);
    SendAllStanding(dropped, w.outages, |w.outages|, env, t, m.id);
    if m in w.outages {
      var i :| 0 <= i < |w.outages| && w.outages[i] == m;
      AnnouncedWentDown(st, m, env);
      SeenOffline(dropped, snapshot, m);
      StandingAlike(dropped.alerts, w.st.alerts, t, m.id);
    } else {
      forall i | 0 <= i < |w.outages| ensures w.outages[i].id != m.id {
        assert w.outages[i] in snapshot;
        if w.outages[i].id == m.id { SameMetric(snapshot, w.outages[i], m); }
      }
    }
  }

  lemma StandingAlike(a: map<string, Alert>, b: map<string, Alert>, t: Target, id: string)
    requires a == b
    ensures Standing(a, t, id) == Standing(b, t, id)
  {
  }

  lemma SameMetric(s: Snapshot, a: Metric, b: Metric)
    requires UniqueIds(s) && a in s && b in s && a.id == b.id
    ensures a == b
  {
    var i :| 0 <= i < |s| && s[i] == a;
    var j :| 0 <= j < |s| && s[j] == b;
  }

  // ---------------------------------------------------------------- the first call, and proxies that are gone

  /** One of the first i entries shows the proxy enabled and online. */
  ghost predicate FoundOnline(snapshot: Snapshot, i: nat, id: string)
    requires i <= |snapshot|
  {
    exists k | 0 <= k < i :: snapshot[k].id == id && !snapshot[k].disabled && snapshot[k].online
  }

  /** The first call takes away the alerts of the proxies it finds online, and no others, whatever was stored. */
  lemma {:induction false} FirstScanAlerts(st: BotState, snapshot: Snapshot, i: nat, env: Env, id: string, t: Target)
    requires env.logSize > 0 && i <= |snapshot| && Coherent(st.alerts, env.targets) && t in env.targets
    ensures Coherent(SeedUpTo(st, snapshot, i, env).alerts, env.targets)
    ensures Standing(SeedUpTo(st, snapshot, i, env).alerts, t, id)
         == if FoundOnline(snapshot, i, id) then None else Standing(st.alerts, t, id)
  {
    hide AlertKey, CheckRecorded, OnlineSynced, InitialDownRecorded, Resolved;
    if i > 0 {
      var before, m := SeedUpTo(st, snapshot, i - 1, env), snapshot[i - 1];
      FirstScanAlerts(st, snapshot, i - 1, env, id, t);
      ResolvedIsLocal(before.alerts, env.targets, m.id, id);
      StandingInSlice(Resolved(before.alerts, env.targets, m.id), env.targets, t, id);
      StandingInSlice(before.alerts, env.targets, t, id);
    }
  }

  lemma AlertAfterFirstCall(st: BotState, snapshot: Snapshot, env: Env, id: string, t: Target)
    requires env.logSize > 0 && !st.seeded && Coherent(st.alerts, env.targets) && t in env.targets
    ensures var key := AlertKey(t.chat, t.thread, id);
            Get(Process(st, snapshot, env).st.alerts, key) ==
              if FoundOnline(snapshot, |snapshot|, id) then None else Get(st.alerts, key)
  {
    hide SeedUpTo, AlertKey;
    FirstScanAlerts(st, snapshot, |snapshot|, env, id, t);
  }

  /** A proxy last seen that is missing altogether is forgotten: state, pause, and its totals if others are enabled. */
  lemma GoneIsForgotten(st: BotState, snapshot: Snapshot, env: Env, id: string)
    requires env.logSize > 0 && UniqueIds(snapshot) && Coherent(st.alerts, env.targets) && st.seeded
    requires id in st.lastSeen && !HasId(snapshot, id)
    ensures var after := Process(st, snapshot, env).st;
            && id !in after.lastSeen && id !in after.lastFlap
            && (EnabledIds(snapshot) != {} ==> id !in after.ledger.stats)
            && (EnabledIds(snapshot) == {} ==> Get(after.ledger.stats, id) == Get(st.ledger.stats, id))
            && LogOf(after.ledger, id) == LogOf(st.ledger, id)
  {
    hide DiffUpTo, Process, LastSeenIs, SendAll, Announced;
    var w := DiffUpTo(st, snapshot, |snapshot|, env);
    ScanLeaves(st, snapshot, |snapshot|, env, id);
    SameKnown(st.lastSeen, w.st.lastSeen, id);
    CallParts(st, snapshot, env);
    ScanCoherent(st, snapshot, |snapshot|, env);
    NotEnabled(snapshot, id);
    SendAllOnly(DropGone(w.st, EnabledIds(snapshot)), w.outages, |w.outages|, env);
  }

  lemma NotEnabled(snapshot: Snapshot, id: string)
    requires !HasId(snapshot, id)
    ensures id !in EnabledIds(snapshot)
  {
    forall m | m in snapshot ensures m.id != id {
      var k :| 0 <= k < |snapshot| && snapshot[k] == m;
    }
  }
}
