/** Runs of ProcessSnapshot: alerts stand only for proxies last seen down. */
module AlertProofs {
  import opened Options
  import opened Metrics
  import opened Rolling
  import opened Ledger
  import opened Alerts

  // ---------------------------------------------------------------- one proxy's share of the state

  function Get<T>(m: map<string, T>, id: string): Option<T> {
    if id in m then Some(m[id]) else None
  }

  /** Everything the state holds about one proxy, incidents aside. */
  datatype Slice = Slice(seen: Option<bool>, flap: Option<int>, alerts: map<string, Alert>,
                         stats: Option<ProxyStats>, log: History)

  function AlertsOf(alerts: map<string, Alert>, id: string): map<string, Alert> {
    map k | k in alerts && alerts[k].id == id :: alerts[k]
  }

  function SliceOf(st: BotState, id: string): Slice {
    Slice(Get(st.lastSeen, id), Get(st.lastFlap, id), AlertsOf(st.alerts, id),
          Get(st.ledger.stats, id), LogOf(st.ledger, id))
  }

  /** Alerts are filed under their own key and belong to a configured chat. */
  ghost predicate Coherent(alerts: map<string, Alert>, targets: seq<Target>) {
    forall k | k in alerts ::
      var a := alerts[k];
      k == AlertKey(a.chat, a.thread, a.id) && Target(a.chat, a.thread) in targets
  }

  lemma ResolvedIsLocal(alerts: map<string, Alert>, targets: seq<Target>, id: string, other: string)
    requires Coherent(alerts, targets)
    ensures Coherent(Resolved(alerts, targets, id), targets)
    ensures AlertsOf(Resolved(alerts, targets, id), id) == map[]
    ensures other != id ==> AlertsOf(Resolved(alerts, targets, id), other) == AlertsOf(alerts, other)
  {
    forall k | k in alerts ensures k in KeysOf(targets, id) <==> alerts[k].id == id {
      var a := alerts[k];
      if a.id == id {
        assert AlertKey(a.chat, a.thread, id) in KeysOf(targets, id);
      } else if k in KeysOf(targets, id) {
        var t :| t in targets && k == AlertKey(t.chat, t.thread, id);
        AlertKeyInjective(t.chat, t.thread, id, a.chat, a.thread, a.id);
      }
    }
  }

  // ---------------------------------------------------------------- the scan works proxy by proxy

  lemma DiffOneIsLocal(w: Work, m: Metric, env: Env, id: string)
    requires env.logSize > 0 && Coherent(w.st.alerts, env.targets)
    ensures Coherent(DiffOne(w, m, env).st.alerts, env.targets)
    ensures id != m.id ==> SliceOf(DiffOne(w, m, env).st, id) == SliceOf(w.st, id)
  {
    hide Announced, AlertKey, AddIncident, CloseOpen, Push, KeysOf;
    ResolvedIsLocal(w.st.alerts, env.targets, m.id, id);
  }

  /** What becomes of a proxy's share, and whether it is announced, depends on that share alone. */
  lemma DiffOneReadsOwnSlice(w: Work, w': Work, m: Metric, env: Env)
    requires env.logSize > 0 && Coherent(w.st.alerts, env.targets) && Coherent(w'.st.alerts, env.targets)
    requires SliceOf(w.st, m.id) == SliceOf(w'.st, m.id)
    ensures SliceOf(DiffOne(w, m, env).st, m.id) == SliceOf(DiffOne(w', m, env).st, m.id)
    ensures Announced(w.st, m, env) == Announced(w'.st, m, env)
    ensures m.disabled ==> !Announced(w.st, m, env)
  {
    hide CheckedLedger, KeysOf, FlapsOf, AlertKey;
    SameKnown(w.st.lastSeen, w'.st.lastSeen, m.id);
    SameKnown(w.st.lastFlap, w'.st.lastFlap, m.id);
    ResolvedIsLocal(w.st.alerts, env.targets, m.id, m.id);
    ResolvedIsLocal(w'.st.alerts, env.targets, m.id, m.id);
    if !m.disabled { CheckedLedgerReadsOwn(w.st, w'.st, m, env); }
  }

  lemma CheckedLedgerReadsOwn(st: BotState, st': BotState, m: Metric, env: Env)
    requires env.logSize > 0 && Get(st.lastSeen, m.id) == Get(st'.lastSeen, m.id)
    requires Get(st.ledger.stats, m.id) == Get(st'.ledger.stats, m.id)
               && LogOf(st.ledger, m.id) == LogOf(st'.ledger, m.id)
    ensures var l, l' := CheckedLedger(st, m, env), CheckedLedger(st', m, env);
            Get(l.stats, m.id) == Get(l'.stats, m.id) && LogOf(l, m.id) == LogOf(l', m.id)
  {
    SameKnown(st.lastSeen, st'.lastSeen, m.id);
    SameKnown(st.ledger.stats, st'.ledger.stats, m.id);
    var c := CheckRecorded(st.ledger, m.id, DisplayName(m), m.online, env.now);
    var c' := CheckRecorded(st'.ledger, m.id, DisplayName(m), m.online, env.now);
    assert c.stats[m.id] == c'.stats[m.id];
    TransitionReadsOwn(c, c', m.id, DisplayName(m), m.online, if m.online then "" else m.reason, env.now, env.logSize);
  }

  lemma TransitionReadsOwn(l: Ledger, l': Ledger, id: string, name: string, online: bool, reason: string, ts: int,
        logSize: nat)
    requires logSize > 0 && id in l.stats && id in l'.stats && l.stats[id] == l'.stats[id]
               && LogOf(l, id) == LogOf(l', id)
    ensures var t, t' := TransitionRecorded(l, id, name, online, reason, ts, logSize),
                         TransitionRecorded(l', id, name, online, reason, ts, logSize);
            Get(t.stats, id) == Get(t'.stats, id) && LogOf(t, id) == LogOf(t', id)
  {
  }

  lemma SameKnown<T>(a: map<string, T>, b: map<string, T>, id: string)
    requires Get(a, id) == Get(b, id)
    ensures id in a <==> id in b
    ensures id in a ==> a[id] == b[id]
  {
  }

  lemma {:induction false} ScanCoherent(st: BotState, snapshot: Snapshot, i: nat, env: Env)
    requires env.logSize > 0 && i <= |snapshot| && Coherent(st.alerts, env.targets)
    ensures Coherent(DiffUpTo(st, snapshot, i, env).st.alerts, env.targets)
  {
    hide DiffOne;
    if i > 0 {
      ScanCoherent(st, snapshot, i - 1, env);
      DiffOneIsLocal(DiffUpTo(st, snapshot, i - 1, env), snapshot[i - 1], env, "");
    }
  }

  /** A proxy the scanned part of the snapshot does not show keeps its share. */
  lemma {:induction false} ScanLeaves(st: BotState, snapshot: Snapshot, i: nat, env: Env, id: string)
    requires env.logSize > 0 && i <= |snapshot| && Coherent(st.alerts, env.targets)
    requires forall k | 0 <= k < i :: snapshot[k].id != id
    ensures SliceOf(DiffUpTo(st, snapshot, i, env).st, id) == SliceOf(st, id)
  {
    hide DiffOne, SliceOf;
    if i > 0 {
      ScanLeaves(st, snapshot, i - 1, env, id);
      ScanCoherent(st, snapshot, i - 1, env);
      DiffOneIsLocal(DiffUpTo(st, snapshot, i - 1, env), snapshot[i - 1], env, id);
    }
  }

  /** A proxy the scanned part shows, at k, is treated as if it stood there alone. */
  lemma {:induction false} ScanSlices(st: BotState, snapshot: Snapshot, i: nat, env: Env, k: nat)
    requires env.logSize > 0 && k < i <= |snapshot| && UniqueIds(snapshot) && Coherent(st.alerts, env.targets)
    ensures var id := snapshot[k].id;
            SliceOf(DiffUpTo(st, snapshot, i, env).st, id) == SliceOf(DiffOne(Work(st, []), snapshot[k], env).st, id)
  {
    hide DiffOne, SliceOf;
    var w := DiffUpTo(st, snapshot, i - 1, env);
    ScanCoherent(st, snapshot, i - 1, env);
    if k == i - 1 {
      ScanLeaves(st, snapshot, i - 1, env, snapshot[k].id);
      DiffOneReadsOwnSlice(w, Work(st, []), snapshot[k], env);
    } else {
      ScanSlices(st, snapshot, i - 1, env, k);
      DiffOneIsLocal(w, snapshot[i - 1], env, snapshot[k].id);
    }
  }

  lemma {:induction false} ScanOutages(st: BotState, snapshot: Snapshot, i: nat, env: Env)
    requires env.logSize > 0 && i <= |snapshot| && UniqueIds(snapshot) && Coherent(st.alerts, env.targets)
    ensures forall m :: m in DiffUpTo(st, snapshot, i, env).outages <==> m in snapshot[..i] && Announced(st, m, env)
  {
    hide Announced, SliceOf, CheckedLedger, Resolved, Flapping;
    if i > 0 {
      ScanOutages(st, snapshot, i - 1, env);
      var w, m := DiffUpTo(st, snapshot, i - 1, env), snapshot[i - 1];
      ScanCoherent(st, snapshot, i - 1, env);
      ScanLeaves(st, snapshot, i - 1, env, m.id);
      DiffOneReadsOwnSlice(w, Work(st, []), m, env);
      assert snapshot[..i] == snapshot[..i - 1] + [m];
    }
  }

  // ---------------------------------------------------------------- sending

  /** Sending only ever adds alerts, for announced proxies, in configured chats. */
  ghost predicate SentOnly(before: BotState, after: BotState, outages: seq<Metric>, targets: seq<Target>) {
    && after == before.(alerts := after.alerts)
    && Coherent(after.alerts, targets)
    && before.alerts.Keys <= after.alerts.Keys
    && (forall k | k in before.alerts :: after.alerts[k] == before.alerts[k])
    && (forall k | k in after.alerts && k !in before.alerts :: exists m :: m in outages && m.id == after.alerts[k].id)
  }

  lemma {:induction false} SendToOnly(st: BotState, m: Metric, i: nat, env: Env, outages: seq<Metric>)
    requires i <= |env.targets| && Coherent(st.alerts, env.targets) && m in outages
    ensures SentOnly(st, SendTo(st, m, i, env), outages, env.targets)
  {
    hide AlertKey;
    if i > 0 { SendToOnly(st, m, i - 1, env, outages); }
  }

  lemma {:induction false} SendAllOnly(st: BotState, outages: seq<Metric>, i: nat, env: Env)
    requires i <= |outages| && Coherent(st.alerts, env.targets)
    ensures SentOnly(st, SendAll(st, outages, i, env), outages, env.targets)
  {
    hide AlertKey, SendTo;
    if i > 0 {
      SendAllOnly(st, outages, i - 1, env);
      SendToOnly(SendAll(st, outages, i - 1, env), outages[i - 1], |env.targets|, env, outages);
    }
  }

  // ---------------------------------------------------------------- the whole call

  ghost predicate AlertsOnlyDown(st: BotState) {
    forall k | k in st.alerts :: st.alerts[k].id in st.lastSeen && !st.lastSeen[st.alerts[k].id]
  }

  /** Every proxy with an open alert is somewhere in the snapshot, enabled or disabled. */
  ghost predicate ShowsTracked(st: BotState, snapshot: Snapshot) {
    forall k | k in st.alerts :: HasId(snapshot, st.alerts[k].id)
  }

  ghost predicate LastSeenIs(st: BotState, snapshot: Snapshot) {
    && (forall id :: id in st.lastSeen <==> id in EnabledIds(snapshot))
    && (forall m | m in snapshot && !m.disabled :: m.id in st.lastSeen && st.lastSeen[m.id] == m.online)
  }

  lemma SlicesAfterDiff(st: BotState, snapshot: Snapshot, env: Env, k: nat)
    requires env.logSize > 0 && UniqueIds(snapshot) && Coherent(st.alerts, env.targets) && k < |snapshot|
    ensures var m := snapshot[k];
            var after := SliceOf(DiffUpTo(st, snapshot, |snapshot|, env).st, m.id);
            && after.seen == (if m.disabled then None else Some(m.online))
            && (m.disabled || CameUpNow(st, m) ==> after.alerts == map[])
            && (!m.disabled && !CameUpNow(st, m) ==> after.alerts == AlertsOf(st.alerts, m.id))
  {
    var m := snapshot[k];
    ScanSlices(st, snapshot, |snapshot|, env, k);
    ResolvedIsLocal(st.alerts, env.targets, m.id, m.id);
  }

  lemma LastSeenAfterDiff(st: BotState, snapshot: Snapshot, env: Env)
    requires env.logSize > 0 && UniqueIds(snapshot) && Coherent(st.alerts, env.targets)
    ensures LastSeenIs(DropGone(DiffUpTo(st, snapshot, |snapshot|, env).st, EnabledIds(snapshot)), snapshot)
  {
    var after := DiffUpTo(st, snapshot, |snapshot|, env).st;
    forall m | m in snapshot && !m.disabled ensures m.id in after.lastSeen && after.lastSeen[m.id] == m.online {
      var k :| 0 <= k < |snapshot| && snapshot[k] == m;
      SlicesAfterDiff(st, snapshot, env, k);
    }
  }

  lemma {:induction false} SeedScan(st: BotState, snapshot: Snapshot, i: nat, env: Env)
    requires env.logSize > 0 && i <= |snapshot| && UniqueIds(snapshot)
    requires st.lastSeen == map[] && st.alerts == map[]
    ensures SeedUpTo(st, snapshot, i, env).alerts == map[]
    ensures LastSeenIs(SeedUpTo(st, snapshot, i, env), snapshot[..i])
  {
    hide SeedOne, LastSeenIs, EnabledIds;
    if i > 0 {
      SeedScan(st, snapshot, i - 1, env);
      assert snapshot[..i] == snapshot[..i - 1] + [snapshot[i - 1]];
      SeedSeen(SeedUpTo(st, snapshot, i - 1, env), snapshot[i - 1], env);
      SeenGrows(SeedUpTo(st, snapshot, i - 1, env), SeedUpTo(st, snapshot, i, env), snapshot[..i - 1], snapshot[i - 1]);
    } else {
      NothingSeen(st);
    }
  }

  lemma NothingSeen(st: BotState)
    requires st.lastSeen == map[]
    ensures LastSeenIs(st, [])
  {
  }

  lemma SeedSeen(st: BotState, m: Metric, env: Env)
    requires env.logSize > 0 && st.alerts == map[]
    ensures SeedOne(st, m, env).alerts == map[]
    ensures SeedOne(st, m, env).lastSeen == if m.disabled then st.lastSeen else st.lastSeen[m.id := m.online]
  {
    hide CheckRecorded, OnlineSynced, InitialDownRecorded, KeysOf;
  }

  lemma SeenGrows(st: BotState, after: BotState, snapshot: Snapshot, m: Metric)
    requires LastSeenIs(st, snapshot) && forall i | 0 <= i < |snapshot| :: snapshot[i].id != m.id
    requires after.lastSeen == if m.disabled then st.lastSeen else st.lastSeen[m.id := m.online]
    ensures LastSeenIs(after, snapshot + [m])
  {
  }

  /** A state reachable from an empty tracker. */
  ghost predicate Sound(st: BotState, targets: seq<Target>) {
    && Coherent(st.alerts, targets) && AlertsOnlyDown(st)
    && (!st.seeded ==> st.lastSeen == map[] && st.alerts == map[])
  }

  /**
   One call: lastSeen becomes exactly the enabled part of the snapshot, and alerts keep standing only
   for proxies last seen down - if and only if no proxy with an open alert is missing from the snapshot.
   */
  lemma ProcessKeepsSound(st: BotState, snapshot: Snapshot, env: Env)
    requires env.logSize > 0 && UniqueIds(snapshot) && Sound(st, env.targets)
    ensures var after := Process(st, snapshot, env).st;
            LastSeenIs(after, snapshot) && (Sound(after, env.targets) <==> ShowsTracked(st, snapshot))
  {
    hide DiffOne;
    if !st.seeded {
      SeedScan(st, snapshot, |snapshot|, env);
      assert snapshot[..|snapshot|] == snapshot;
    } else {
      AfterCall(st, snapshot, env);
      if ShowsTracked(st, snapshot) {
        AlertsStayDown(st, snapshot, env);
      } else {
        var k :| k in st.alerts && !HasId(snapshot, st.alerts[k].id);
        OrphanRemains(st, snapshot, env, k);
      }
    }
  }

  lemma AfterCall(st: BotState, snapshot: Snapshot, env: Env)
    requires env.logSize > 0 && UniqueIds(snapshot) && Coherent(st.alerts, env.targets) && st.seeded
    ensures var w, after := DiffUpTo(st, snapshot, |snapshot|, env), Process(st, snapshot, env).st;
            && after.seeded && LastSeenIs(after, snapshot)
            && SentOnly(DropGone(w.st, EnabledIds(snapshot)), after, w.outages, env.targets)
  {
    hide DiffOne;
    var w := DiffUpTo(st, snapshot, |snapshot|, env);
    LastSeenAfterDiff(st, snapshot, env);
    ScanCoherent(st, snapshot, |snapshot|, env);
    ScanSeeded(st, snapshot, |snapshot|, env);
    SendAllOnly(DropGone(w.st, EnabledIds(snapshot)), w.outages, |w.outages|, env);
  }

  lemma {:induction false} ScanSeeded(st: BotState, snapshot: Snapshot, i: nat, env: Env)
    requires env.logSize > 0 && i <= |snapshot|
    ensures DiffUpTo(st, snapshot, i, env).st.seeded == st.seeded
  {
    hide CheckedLedger, Announced, Resolved;
    if i > 0 { ScanSeeded(st, snapshot, i - 1, env); }
  }

  /** An open alert whose proxy is missing from the snapshot survives with no last seen state. */
  lemma OrphanRemains(st: BotState, snapshot: Snapshot, env: Env, k: string)
    requires env.logSize > 0 && UniqueIds(snapshot) && Coherent(st.alerts, env.targets) && st.seeded
    requires k in st.alerts && !HasId(snapshot, st.alerts[k].id)
    ensures var after := Process(st, snapshot, env).st;
            k in after.alerts && after.alerts[k] == st.alerts[k] && after.alerts[k].id !in after.lastSeen
  {
    hide DiffOne;
    var w := DiffUpTo(st, snapshot, |snapshot|, env);
    var id := st.alerts[k].id;
    AfterCall(st, snapshot, env);
    ScanLeaves(st, snapshot, |snapshot|, env, id);
    assert k in AlertsOf(st.alerts, id);
    assert k in AlertsOf(w.st.alerts, id);
    assert w.st.alerts[k] == AlertsOf(w.st.alerts, id)[k] == AlertsOf(st.alerts, id)[k];
    assert forall m | m in snapshot :: m.id != id;
  }

  lemma AlertsStayDown(st: BotState, snapshot: Snapshot, env: Env)
    requires env.logSize > 0 && UniqueIds(snapshot) && Sound(st, env.targets) && st.seeded
    requires ShowsTracked(st, snapshot)
    ensures AlertsOnlyDown(Process(st, snapshot, env).st)
  {
    hide DiffOne;
    var w := DiffUpTo(st, snapshot, |snapshot|, env);
    var after := Process(st, snapshot, env).st;
    AfterCall(st, snapshot, env);
    ScanOutages(st, snapshot, |snapshot|, env);
    assert snapshot[..|snapshot|] == snapshot;
    forall k | k in after.alerts ensures after.alerts[k].id in after.lastSeen && !after.lastSeen[after.alerts[k].id] {
      var id := after.alerts[k].id;
      if k in w.st.alerts {
        KeptAlertIsDown(st, snapshot, env, k);
      } else {
        var m :| m in w.outages && m.id == id;
        assert m in snapshot && Announced(st, m, env);
      }
    }
  }

  lemma KeptAlertIsDown(st: BotState, snapshot: Snapshot, env: Env, k: string)
    requires env.logSize > 0 && UniqueIds(snapshot) && Sound(st, env.targets)
    requires ShowsTracked(st, snapshot)
    requires k in DiffUpTo(st, snapshot, |snapshot|, env).st.alerts
    ensures var id := DiffUpTo(st, snapshot, |snapshot|, env).st.alerts[k].id;
            exists m :: m in snapshot && m.id == id && !m.disabled && !m.online
  {
    var after := DiffUpTo(st, snapshot, |snapshot|, env).st;
    var id := after.alerts[k].id;
    assert k in AlertsOf(after.alerts, id);
    assert HasId(snapshot, id) || k in AlertsOf(st.alerts, id) by {
      if !HasId(snapshot, id) { ScanLeaves(st, snapshot, |snapshot|, env, id); }
    }
    var j :| 0 <= j < |snapshot| && snapshot[j].id == id;
    SlicesAfterDiff(st, snapshot, env, j);
    assert k in AlertsOf(st.alerts, id);
    assert id in st.lastSeen && !st.lastSeen[id];
    assert snapshot[j] in snapshot;
  }

  // ---------------------------------------------------------------- whole runs

  datatype Input = Input(snapshot: Snapshot, env: Env)

  function RunBot(st: BotState, inputs: seq<Input>): BotState
    requires forall i | 0 <= i < |inputs| :: inputs[i].env.logSize > 0
  {
    if inputs == [] then st else
    Process(RunBot(st, inputs[..|inputs| - 1]), inputs[|inputs| - 1].snapshot, inputs[|inputs| - 1].env).st
  }

  const EMPTY := BotState(false, map[], map[], map[], Ledger([], map[], map[]))

  ghost predicate WellFormed(inputs: seq<Input>, targets: seq<Target>) {
    forall i | 0 <= i < |inputs| ::
      inputs[i].env.logSize > 0 && inputs[i].env.targets == targets && UniqueIds(inputs[i].snapshot)
  }

  /** A proxy last seen down is in the next snapshot, if only as a disabled entry. */
  ghost predicate NoSilentLoss(inputs: seq<Input>) {
    forall i, j | 0 <= i < j < |inputs| && j == i + 1 ::
      forall m | m in inputs[i].snapshot && !m.disabled && !m.online :: HasId(inputs[j].snapshot, m.id)
  }

  /** From an empty tracker: every open alert is for a proxy last seen down, after every call. */
  lemma {:induction false} AlertsSoundOnEveryRun(inputs: seq<Input>, targets: seq<Target>)
    requires WellFormed(inputs, targets) && NoSilentLoss(inputs)
    ensures Sound(RunBot(EMPTY, inputs), targets)
    ensures inputs != [] ==> LastSeenIs(RunBot(EMPTY, inputs), inputs[|inputs| - 1].snapshot)
  {
    if inputs != [] {
      var before, last := inputs[..|inputs| - 1], inputs[|inputs| - 1];
      AlertsSoundOnEveryRun(before, targets);
      var st := RunBot(EMPTY, before);
      forall k | k in st.alerts ensures HasId(last.snapshot, st.alerts[k].id) {
        var id := st.alerts[k].id;
        assert before != [];
        var m :| m in before[|before| - 1].snapshot && !m.disabled && m.id == id;
      }
      ProcessKeepsSound(st, last.snapshot, last.env);
    }
  }
}
