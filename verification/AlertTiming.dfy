/**
 Runs of ProcessSnapshot: the statistics agree with the last seen state, and flapping proxies are announced rarely.
 */
module AlertTiming {
  import opened Options
  import opened Metrics
  import opened Rolling
  import opened Ledger
  import opened Alerts
  import opened AlertProofs

  ghost predicate Enabled(snapshot: Snapshot, id: string) {
    exists k | 0 <= k < |snapshot| :: snapshot[k].id == id && !snapshot[k].disabled
  }

  ghost predicate EnabledThroughout(inputs: seq<Input>, id: string) {
    forall i | 0 <= i < |inputs| :: Enabled(inputs[i].snapshot, id)
  }

  /** The store calls the proxy down exactly when the pipeline last saw it down. */
  ghost predicate Agrees(st: BotState, id: string) {
    && id in st.lastSeen && id in st.ledger.stats
    && st.ledger.stats[id].currentlyDown == !st.lastSeen[id]
  }

  // ---------------------------------------------------------------- the first call

  lemma {:induction false} SeedAgrees(st: BotState, snapshot: Snapshot, i: nat, env: Env, k: nat)
    requires env.logSize > 0 && k < i <= |snapshot| && UniqueIds(snapshot) && !snapshot[k].disabled
    ensures Agrees(SeedUpTo(st, snapshot, i, env), snapshot[k].id)
  {
    if k < i - 1 { SeedAgrees(st, snapshot, i - 1, env, k); }
  }

  lemma {:induction false} SeedCoherent(st: BotState, snapshot: Snapshot, i: nat, env: Env)
    requires env.logSize > 0 && i <= |snapshot| && Coherent(st.alerts, env.targets)
    ensures Coherent(SeedUpTo(st, snapshot, i, env).alerts, env.targets)
    ensures SeedUpTo(st, snapshot, i, env).lastFlap == st.lastFlap
  {
    hide CheckRecorded, OnlineSynced, InitialDownRecorded, AlertKey, KeysOf;
    if i > 0 { SeedCoherent(st, snapshot, i - 1, env); }
  }

  lemma ProcessCoherent(st: BotState, snapshot: Snapshot, env: Env)
    requires env.logSize > 0 && UniqueIds(snapshot) && Coherent(st.alerts, env.targets)
    ensures Coherent(Process(st, snapshot, env).st.alerts, env.targets) && Process(st, snapshot, env).st.seeded
  {
    if st.seeded {
      AfterCall(st, snapshot, env);
    } else {
      SeedCoherent(st, snapshot, |snapshot|, env);
    }
  }

  // ---------------------------------------------------------------- later calls, one proxy at a time

  /** A proxy the snapshot shows enabled comes out of the call as DiffOne leaves it, alerts aside. */
  lemma EnabledSlice(st: BotState, snapshot: Snapshot, env: Env, k: nat)
    requires env.logSize > 0 && UniqueIds(snapshot) && Coherent(st.alerts, env.targets) && st.seeded
    requires k < |snapshot| && !snapshot[k].disabled
    ensures var id := snapshot[k].id;
            var after := SliceOf(Process(st, snapshot, env).st, id);
            var own := SliceOf(DiffOne(Work(st, []), snapshot[k], env).st, id);
            after.seen == own.seen && after.flap == own.flap && after.stats == own.stats && after.log == own.log
  {
    hide DiffOne;
    var id := snapshot[k].id;
    var w, after := DiffUpTo(st, snapshot, |snapshot|, env), Process(st, snapshot, env).st;
    AfterCall(st, snapshot, env);
    ScanSlices(st, snapshot, |snapshot|, env, k);
    assert snapshot[k] in snapshot;
    assert id in EnabledIds(snapshot);
    var dropped := DropGone(w.st, EnabledIds(snapshot));
    assert Get(dropped.lastSeen, id) == Get(w.st.lastSeen, id);
    assert Get(dropped.lastFlap, id) == Get(w.st.lastFlap, id);
    assert Get(dropped.ledger.stats, id) == Get(w.st.ledger.stats, id);
  }

  lemma AgreementKept(st: BotState, m: Metric, env: Env)
    requires env.logSize > 0 && Agrees(st, m.id) && !m.disabled
    ensures Agrees(DiffOne(Work(st, []), m, env).st, m.id)
  {
  }

  lemma SliceAgrees(a: BotState, b: BotState, id: string)
    requires SliceOf(a, id).seen == SliceOf(b, id).seen && SliceOf(a, id).stats == SliceOf(b, id).stats
    ensures Agrees(a, id) <==> Agrees(b, id)
  {
    SameKnown(a.lastSeen, b.lastSeen, id);
    SameKnown(a.ledger.stats, b.ledger.stats, id);
  }

  /**
   From any stored statistics: a proxy enabled in every snapshot since the first is "currently down" in
   the statistics exactly when it was last seen down.
   */
  lemma {:induction false} StatsAgreeOnEveryRun(st: BotState, inputs: seq<Input>, targets: seq<Target>, id: string)
    requires !st.seeded && Coherent(st.alerts, targets)
    requires inputs != [] && WellFormed(inputs, targets) && EnabledThroughout(inputs, id)
    ensures Agrees(RunBot(st, inputs), id)
    ensures Coherent(RunBot(st, inputs).alerts, targets) && RunBot(st, inputs).seeded
  {
    var before, last := inputs[..|inputs| - 1], inputs[|inputs| - 1];
    var k :| 0 <= k < |last.snapshot| && last.snapshot[k].id == id && !last.snapshot[k].disabled;
    if before == [] {
      SeedAgrees(st, last.snapshot, |last.snapshot|, last.env, k);
      ProcessCoherent(st, last.snapshot, last.env);
    } else {
      StatsAgreeOnEveryRun(st, before, targets, id);
      var mid := RunBot(st, before);
      ProcessCoherent(mid, last.snapshot, last.env);
      EnabledSlice(mid, last.snapshot, last.env, k);
      AgreementKept(mid, last.snapshot[k], last.env);
      SliceAgrees(Process(mid, last.snapshot, last.env).st, DiffOne(Work(mid, []), last.snapshot[k], last.env).st, id);
    }
  }

  // ---------------------------------------------------------------- flapping proxies

  /** The call announces an outage of this proxy while its flap count is over the limit. */
  ghost predicate FlapAnnounced(st: BotState, snapshot: Snapshot, env: Env, id: string)
    requires env.logSize > 0
  {
    var r := Process(st, snapshot, env);
    (exists m :: m in r.outages && m.id == id) && Flapping(r.st.ledger, id, env.now)
  }

  /** The pause is remembered unless the proxy vanishes from the snapshot while last seen: a disabled one keeps it. */
  lemma FlapStep(st: BotState, snapshot: Snapshot, env: Env, id: string)
    requires env.logSize > 0 && UniqueIds(snapshot) && Coherent(st.alerts, env.targets)
    requires HasId(snapshot, id) || id !in st.lastSeen
    ensures var after := Process(st, snapshot, env).st;
            if FlapAnnounced(st, snapshot, env, id)
            then Get(after.lastFlap, id) == Some(env.now)
                && (id in st.lastFlap ==> env.now - st.lastFlap[id] >= FLAP_PAUSE)
            else Get(after.lastFlap, id) == Get(st.lastFlap, id)
  {
    hide DiffOne, Announced, CheckedLedger, FlapsOf, Process;
    if !st.seeded {
      SeedKeepsFlap(st, snapshot, env, id);
    } else if Enabled(snapshot, id) {
      var k :| 0 <= k < |snapshot| && snapshot[k].id == id && !snapshot[k].disabled;
      EnabledFlap(st, snapshot, env, k);
    } else {
      UnseenKeepsFlap(st, snapshot, env, id);
    }
  }

  lemma SeedKeepsFlap(st: BotState, snapshot: Snapshot, env: Env, id: string)
    requires env.logSize > 0 && Coherent(st.alerts, env.targets) && !st.seeded
    ensures !FlapAnnounced(st, snapshot, env, id) && Process(st, snapshot, env).st.lastFlap == st.lastFlap
  {
    SeedCoherent(st, snapshot, |snapshot|, env);
  }

  lemma EnabledFlap(st: BotState, snapshot: Snapshot, env: Env, k: nat)
    requires env.logSize > 0 && UniqueIds(snapshot) && Coherent(st.alerts, env.targets) && st.seeded
    requires k < |snapshot| && !snapshot[k].disabled
    ensures var id := snapshot[k].id;
            var after := Process(st, snapshot, env).st;
            if FlapAnnounced(st, snapshot, env, id)
            then Get(after.lastFlap, id) == Some(env.now)
                && (id in st.lastFlap ==> env.now - st.lastFlap[id] >= FLAP_PAUSE)
            else Get(after.lastFlap, id) == Get(st.lastFlap, id)
  {
    hide DiffOne, Announced, CheckedLedger, FlapsOf;
    AnnouncedIff(st, snapshot, env, k);
    EnabledSlice(st, snapshot, env, k);
    FlapOfOne(st, snapshot[k], env);
  }

  /** A proxy that is shown disabled, or is not shown and was not last seen, is not announced and keeps its pause. */
  lemma UnseenKeepsFlap(st: BotState, snapshot: Snapshot, env: Env, id: string)
    requires env.logSize > 0 && UniqueIds(snapshot) && Coherent(st.alerts, env.targets) && st.seeded
    requires !Enabled(snapshot, id) && (HasId(snapshot, id) || id !in st.lastSeen)
    ensures !FlapAnnounced(st, snapshot, env, id)
    ensures Get(Process(st, snapshot, env).st.lastFlap, id) == Get(st.lastFlap, id)
  {
    hide DiffOne, Announced, CheckedLedger, FlapsOf;
    var w := DiffUpTo(st, snapshot, |snapshot|, env);
    AfterCall(st, snapshot, env);
    NotAnnounced(st, snapshot, env, id);
    assert SliceOf(w.st, id).flap == Get(st.lastFlap, id) && SliceOf(w.st, id).seen == None by {
      if HasId(snapshot, id) {
        var k :| 0 <= k < |snapshot| && snapshot[k].id == id;
        ScanSlices(st, snapshot, |snapshot|, env, k);
        DisabledSlice(st, snapshot[k], env);
      } else {
        assert forall k | 0 <= k < |snapshot| :: snapshot[k].id != id;
        ScanLeaves(st, snapshot, |snapshot|, env, id);
      }
    }
    SameKnown(w.st.lastSeen, map[], id);
    DropKeepsFlap(w.st, EnabledIds(snapshot), id);
  }

  lemma DisabledSlice(st: BotState, m: Metric, env: Env)
    requires env.logSize > 0 && m.disabled
    ensures var own := SliceOf(DiffOne(Work(st, []), m, env).st, m.id);
            own.flap == Get(st.lastFlap, m.id) && own.seen == None
  {
    hide Resolved;
  }

  lemma DropKeepsFlap(st: BotState, seen: set<string>, id: string)
    requires id !in st.lastSeen
    ensures Get(DropGone(st, seen).lastFlap, id) == Get(st.lastFlap, id)
  {
    hide Pruned;
  }

  lemma NotAnnounced(st: BotState, snapshot: Snapshot, env: Env, id: string)
    requires env.logSize > 0 && UniqueIds(snapshot) && Coherent(st.alerts, env.targets) && st.seeded
    requires !Enabled(snapshot, id)
    ensures forall m | m in Process(st, snapshot, env).outages :: m.id != id
  {
    hide DiffOne, CheckedLedger, Flapping, Paused;
    ScanOutages(st, snapshot, |snapshot|, env);
    assert snapshot[..|snapshot|] == snapshot;
    forall m | m in snapshot && Announced(st, m, env) ensures m.id != id {
      var k :| 0 <= k < |snapshot| && snapshot[k] == m;
    }
  }

  lemma FlapOfOne(st: BotState, m: Metric, env: Env)
    requires env.logSize > 0 && !m.disabled
    ensures var after := DiffOne(Work(st, []), m, env).st;
            && LogOf(after.ledger, m.id) == LogOf(CheckedLedger(st, m, env), m.id)
            && (if Announced(st, m, env) && Flapping(CheckedLedger(st, m, env), m.id, env.now)
                then Get(after.lastFlap, m.id) == Some(env.now)
                    && (m.id in st.lastFlap ==> env.now - st.lastFlap[m.id] >= FLAP_PAUSE)
                else Get(after.lastFlap, m.id) == Get(st.lastFlap, m.id))
  {
  }

  lemma AnnouncedIff(st: BotState, snapshot: Snapshot, env: Env, k: nat)
    requires env.logSize > 0 && UniqueIds(snapshot) && Coherent(st.alerts, env.targets) && st.seeded && k < |snapshot|
    ensures (exists m :: m in Process(st, snapshot, env).outages && m.id == snapshot[k].id)
              <==> Announced(st, snapshot[k], env)
  {
    hide DiffOne, Announced;
    ScanOutages(st, snapshot, |snapshot|, env);
    assert snapshot[..|snapshot|] == snapshot;
    var outages := Process(st, snapshot, env).outages;
    assert snapshot[k] in snapshot;
    forall m | m in outages && m.id == snapshot[k].id ensures m == snapshot[k] {
      var j :| 0 <= j < |snapshot| && snapshot[j] == m;
      assert j == k;
    }
  }

  ghost predicate Chronological(inputs: seq<Input>) {
    forall i, j | 0 <= i <= j < |inputs| :: inputs[i].env.now <= inputs[j].env.now
  }

  /** The state before call i of a run. */
  function Before(st: BotState, inputs: seq<Input>, i: nat): BotState
    requires i <= |inputs| && forall i | 0 <= i < |inputs| :: inputs[i].env.logSize > 0
  {
    RunBot(st, inputs[..i])
  }

  lemma {:induction false} CoherentBefore(st: BotState, inputs: seq<Input>, i: nat, targets: seq<Target>)
    requires i <= |inputs| && WellFormed(inputs, targets) && Coherent(st.alerts, targets)
    ensures Coherent(Before(st, inputs, i).alerts, targets)
    ensures i > 0 ==>
              Before(st, inputs, i) == Process(Before(st, inputs, i - 1), inputs[i - 1].snapshot, inputs[i - 1].env).st
  {
    if i > 0 {
      CoherentBefore(st, inputs, i - 1, targets);
      assert inputs[..i][..i - 1] == inputs[..i - 1];
      ProcessCoherent(Before(st, inputs, i - 1), inputs[i - 1].snapshot, inputs[i - 1].env);
    }
  }

  /** The proxy leaves the snapshots only after it was shown disabled. */
  ghost predicate NeverVanishes(inputs: seq<Input>, id: string) {
    forall n | 0 < n < |inputs| && Enabled(inputs[n - 1].snapshot, id) :: HasId(inputs[n].snapshot, id)
  }

  lemma SeededAfter(st: BotState, inputs: seq<Input>, targets: seq<Target>, i: nat, n: nat)
    requires WellFormed(inputs, targets) && Coherent(st.alerts, targets) && i < n <= |inputs|
    requires Before(st, inputs, i).seeded
    ensures Before(st, inputs, n).seeded && LastSeenIs(Before(st, inputs, n), inputs[n - 1].snapshot)
    decreases n
  {
    hide Process, Before, Coherent, LastSeenIs;
    if i < n - 1 { SeededAfter(st, inputs, targets, i, n - 1); }
    CoherentBefore(st, inputs, n, targets);
    CoherentBefore(st, inputs, n - 1, targets);
    AfterCall(Before(st, inputs, n - 1), inputs[n - 1].snapshot, inputs[n - 1].env);
  }

  lemma AnnouncedIsSeeded(st: BotState, snapshot: Snapshot, env: Env, id: string)
    requires env.logSize > 0 && FlapAnnounced(st, snapshot, env, id)
    ensures st.seeded
  {
  }

  lemma AnnouncedIsShown(st: BotState, snapshot: Snapshot, env: Env, id: string)
    requires env.logSize > 0 && UniqueIds(snapshot) && Coherent(st.alerts, env.targets)
               && FlapAnnounced(st, snapshot, env, id)
    ensures HasId(snapshot, id)
  {
    AnnouncedIsSeeded(st, snapshot, env, id);
    hide Process;
    if !Enabled(snapshot, id) { NotAnnounced(st, snapshot, env, id); }
  }

  /** The call numbered n finds the proxy in its snapshot, or does not know it. */
  lemma ShownOrUnseen(st: BotState, inputs: seq<Input>, targets: seq<Target>, id: string, i: nat, n: nat)
    requires WellFormed(inputs, targets) && Coherent(st.alerts, targets) && NeverVanishes(inputs, id)
               && i < n < |inputs|
    requires Before(st, inputs, i).seeded
    ensures HasId(inputs[n].snapshot, id) || id !in Before(st, inputs, n).lastSeen
  {
    SeededAfter(st, inputs, targets, i, n);
    if id in Before(st, inputs, n).lastSeen {
      var m := SeenMetric(Before(st, inputs, n), inputs[n - 1].snapshot, id);
    }
  }

  lemma SeenMetric(st: BotState, snapshot: Snapshot, id: string) returns (k: nat)
    requires LastSeenIs(st, snapshot) && id in st.lastSeen
    ensures k < |snapshot| && snapshot[k].id == id && !snapshot[k].disabled
  {
    assert id in EnabledIds(snapshot);
    var m :| m in snapshot && !m.disabled && m.id == id;
    k :| 0 <= k < |snapshot| && snapshot[k] == m;
  }

  lemma {:induction false} PauseRemembered(st: BotState, inputs: seq<Input>, targets: seq<Target>, id: string, i: nat,
        n: nat)
    requires WellFormed(inputs, targets) && Coherent(st.alerts, targets) && Chronological(inputs)
               && NeverVanishes(inputs, id)
    requires i < n <= |inputs|
    requires FlapAnnounced(Before(st, inputs, i), inputs[i].snapshot, inputs[i].env, id)
    ensures var b := Before(st, inputs, n); id in b.lastFlap && b.lastFlap[id] >= inputs[i].env.now
  {
    hide Process, Before, LastSeenIs, HasId, NeverVanishes, FlapAnnounced;
    CoherentBefore(st, inputs, n, targets);
    CoherentBefore(st, inputs, n - 1, targets);
    AnnouncedIsSeeded(Before(st, inputs, i), inputs[i].snapshot, inputs[i].env, id);
    if i < n - 1 {
      PauseRemembered(st, inputs, targets, id, i, n - 1);
      ShownOrUnseen(st, inputs, targets, id, i, n - 1);
    } else {
      AnnouncedIsShown(Before(st, inputs, i), inputs[i].snapshot, inputs[i].env, id);
    }
    FlapStep(Before(st, inputs, n - 1), inputs[n - 1].snapshot, inputs[n - 1].env, id);
  }

  /**
   Two outages of one flapping proxy are announced at least fifteen minutes apart, if it never vanishes while enabled.
   */
  lemma FlapAnnouncementsApart(st: BotState, inputs: seq<Input>, targets: seq<Target>, id: string, i: nat, j: nat)
    requires WellFormed(inputs, targets) && Coherent(st.alerts, targets) && Chronological(inputs)
               && NeverVanishes(inputs, id)
    requires i < j < |inputs|
    requires FlapAnnounced(Before(st, inputs, i), inputs[i].snapshot, inputs[i].env, id)
    requires FlapAnnounced(Before(st, inputs, j), inputs[j].snapshot, inputs[j].env, id)
    ensures inputs[j].env.now - inputs[i].env.now >= 900
  {
    hide Process, Before, HasId, NeverVanishes, FlapAnnounced;
    CoherentBefore(st, inputs, j, targets);
    PauseRemembered(st, inputs, targets, id, i, j);
    AnnouncedIsShown(Before(st, inputs, j), inputs[j].snapshot, inputs[j].env, id);
    FlapStep(Before(st, inputs, j), inputs[j].snapshot, inputs[j].env, id);
  }
}
