/** ProcessSnapshot as the caller of the statistics store: when its pruning leaves an open incident behind. */
module AlertLedger {
  import opened Metrics
  import Rolling
  import opened Ledger
  import opened LedgerProofs
  import opened LedgerRuns
  import opened Alerts
  import opened AlertProofs
  import opened AlertTiming

  // ---------------------------------------------------------------- one operation of the store

  /** OpenTracked, member by member. */
  ghost predicate Tracks(l: Ledger, x: Incident) {
    x.upAt == 0 ==> x.id in l.stats && l.stats[x.id].currentlyDown && l.stats[x.id].currentDownAt == x.downAt
  }

  lemma TrackedMembers(l: Ledger, id: string)
    ensures OpenTracked(l, id) <==> forall x | x in l.incidents && x.id == id :: Tracks(l, x)
  {
    if forall x | x in l.incidents && x.id == id :: Tracks(l, x) {
      forall i | 0 <= i < |l.incidents| && l.incidents[i].id == id ensures Tracks(l, l.incidents[i]) {
        assert l.incidents[i] in l.incidents;
      }
    }
  }

  lemma CheckTracks(l: Ledger, other: string, name: string, online: bool, ts: int, id: string)
    requires OpenTracked(l, id)
    ensures OpenTracked(CheckRecorded(l, other, name, online, ts), id)
  {
  }

  lemma DownTracks(l: Ledger, inc: Incident, log: map<string, Rolling.History>, id: string)
    requires OpenTracked(l, id) && inc.upAt == 0
    requires inc.id in l.stats ==> !l.stats[inc.id].currentlyDown
    ensures var after := Ledger(AddIncident(l.incidents, inc),
              l.stats[inc.id := WentDown(Entry(l, inc.id, inc.name), inc.downAt)], log);
            OpenTracked(after, id)
  {
    hide AddIncident;
    var after := Ledger(AddIncident(l.incidents, inc),
        l.stats[inc.id := WentDown(Entry(l, inc.id, inc.name), inc.downAt)], log);
    AddedOnly(l.incidents, inc);
    TrackedMembers(l, id);
    TrackedMembers(after, id);
  }

  lemma UpTracks(l: Ledger, other: string, ps: ProxyStats, log: map<string, Rolling.History>, ts: int, id: string)
    requires OpenTracked(l, id) && ts != 0
    ensures OpenTracked(Ledger(CloseOpen(l.incidents, other, ts), l.stats[other := ps], log), id)
  {
  }

  lemma TransitionTracks(l: Ledger, other: string, name: string, online: bool, reason: string, ts: int, logSize: nat,
        id: string)
    requires OpenTracked(l, id) && logSize > 0 && ts != 0
    ensures OpenTracked(TransitionRecorded(l, other, name, online, reason, ts, logSize), id)
  {
    hide AddIncident, CloseOpen, Logged;
    var ps, log := Entry(l, other, name), Logged(l, other, online, ts, logSize);
    if !online && !ps.currentlyDown {
      DownTracks(l, Incident(name, other, ts, 0, 0, reason), log, id);
    } else if online && ps.currentlyDown {
      UpTracks(l, other, Recovered(ps, ts), log, ts, id);
    }
  }

  lemma InitialDownTracks(l: Ledger, other: string, name: string, ts: int, logSize: nat, id: string)
    requires OpenTracked(l, id) && logSize > 0 && ts != 0
    ensures OpenTracked(InitialDownRecorded(l, other, name, ts, logSize), id)
  {
    hide AddIncident, Logged;
    if !Entry(l, other, name).currentlyDown {
      DownTracks(l, Incident(name, other, ts, 0, 0, "Offline at startup"), Logged(l, other, false, ts, logSize), id);
    }
  }

  lemma SyncTracks(l: Ledger, other: string, ts: int, id: string)
    requires OpenTracked(l, id) && ts != 0
    ensures OpenTracked(OnlineSynced(l, other, ts), id)
  {
    hide CloseOpen;
    if other in l.stats && l.stats[other].currentlyDown {
      UpTracks(l, other, Recovered(l.stats[other], ts), l.log, ts, id);
    }
  }

  /** Pruning keeps open incidents tied exactly if it does not forget a proxy that has one. */
  lemma PruneTracksIff(l: Ledger, active: set<string>, id: string)
    requires OpenTracked(l, id)
    ensures OpenTracked(Pruned(l, active), id) <==> active == {} || id in active || !HasOpen(l.incidents, id)
  {
  }

  // ---------------------------------------------------------------- one call

  lemma {:induction false} SeedTracks(st: BotState, snapshot: Snapshot, i: nat, env: Env, id: string)
    requires env.logSize > 0 && env.now != 0 && i <= |snapshot| && OpenTracked(st.ledger, id)
    ensures OpenTracked(SeedUpTo(st, snapshot, i, env).ledger, id)
  {
    hide OpenTracked, CheckRecorded, OnlineSynced, InitialDownRecorded, KeysOf;
    if i > 0 {
      SeedTracks(st, snapshot, i - 1, env, id);
      var l, m := SeedUpTo(st, snapshot, i - 1, env).ledger, snapshot[i - 1];
      CheckTracks(l, m.id, DisplayName(m), m.online, env.now, id);
      var checked := CheckRecorded(l, m.id, DisplayName(m), m.online, env.now);
      SyncTracks(checked, m.id, env.now, id);
      InitialDownTracks(checked, m.id, DisplayName(m), env.now, env.logSize, id);
    }
  }

  lemma {:induction false} DiffTracks(st: BotState, snapshot: Snapshot, i: nat, env: Env, id: string)
    requires env.logSize > 0 && env.now != 0 && i <= |snapshot| && OpenTracked(st.ledger, id)
    ensures OpenTracked(DiffUpTo(st, snapshot, i, env).st.ledger, id)
  {
    hide OpenTracked, CheckRecorded, TransitionRecorded, Announced, Flapping, Resolved;
    if i > 0 {
      DiffTracks(st, snapshot, i - 1, env, id);
      var before, m := DiffUpTo(st, snapshot, i - 1, env).st, snapshot[i - 1];
      CheckTracks(before.ledger, m.id, DisplayName(m), m.online, env.now, id);
      var checked := CheckRecorded(before.ledger, m.id, DisplayName(m), m.online, env.now);
      TransitionTracks(checked, m.id, DisplayName(m), m.online, if m.online then "" else m.reason, env.now, env.logSize,
          id);
    }
  }

  /**
   The call's pruning forgets the proxy while the ledger holds an open incident of it: others are enabled, it is not.
   */
  ghost predicate ForgetsOpen(st: BotState, snapshot: Snapshot, env: Env, id: string)
    requires env.logSize > 0
  {
    && st.seeded && EnabledIds(snapshot) != {} && id !in EnabledIds(snapshot)
    && HasOpen(DiffUpTo(st, snapshot, |snapshot|, env).st.ledger.incidents, id)
  }

  lemma CallTracksIff(st: BotState, snapshot: Snapshot, env: Env, id: string)
    requires env.logSize > 0 && env.now != 0 && UniqueIds(snapshot) && Coherent(st.alerts, env.targets)
    requires OpenTracked(st.ledger, id)
    ensures OpenTracked(Process(st, snapshot, env).st.ledger, id) <==> !ForgetsOpen(st, snapshot, env, id)
  {
    hide OpenTracked, DiffUpTo, SeedUpTo, HasOpen, Pruned;
    if st.seeded {
      var w := DiffUpTo(st, snapshot, |snapshot|, env);
      DiffTracks(st, snapshot, |snapshot|, env, id);
      PruneTracksIff(w.st.ledger, EnabledIds(snapshot), id);
      AfterCall(st, snapshot, env);
    } else {
      SeedTracks(st, snapshot, |snapshot|, env, id);
    }
  }

  /** Only a proxy that the totals hold as down can be forgotten so. */
  lemma ForgottenIsDown(st: BotState, snapshot: Snapshot, env: Env, id: string)
    requires env.logSize > 0 && env.now != 0 && OpenTracked(st.ledger, id) && ForgetsOpen(st, snapshot, env, id)
    ensures var l := DiffUpTo(st, snapshot, |snapshot|, env).st.ledger; id in l.stats && l.stats[id].currentlyDown
  {
    DiffTracks(st, snapshot, |snapshot|, env, id);
    hide DiffUpTo;
  }

  // ---------------------------------------------------------------- whole runs

  /**
   Over a serial run of calls, every open incident of a proxy stays tied to its current outage if and only if no call
   forgets it: never is the proxy with an incident open missing from the enabled part of a snapshot that has others.
   */
  lemma IncidentsTrackedIff(st: BotState, inputs: seq<Input>, targets: seq<Target>, id: string)
    requires WellFormed(inputs, targets) && Coherent(st.alerts, targets) && OpenTracked(st.ledger, id)
    requires forall n | 0 <= n < |inputs| :: inputs[n].env.now != 0
    ensures (forall n | 0 <= n <= |inputs| :: OpenTracked(Before(st, inputs, n).ledger, id))
       <==> (forall n | 0 <= n < |inputs| :: !ForgetsOpen(Before(st, inputs, n), inputs[n].snapshot, inputs[n].env, id))
  {
    hide OpenTracked, ForgetsOpen, Process, Before, Coherent, UniqueIds;
    if forall n | 0 <= n < |inputs| :: !ForgetsOpen(Before(st, inputs, n), inputs[n].snapshot, inputs[n].env, id) {
      forall n | 0 <= n <= |inputs| ensures OpenTracked(Before(st, inputs, n).ledger, id) {
        TrackedUpTo(st, inputs, targets, id, n);
      }
    }
    if forall n | 0 <= n <= |inputs| :: OpenTracked(Before(st, inputs, n).ledger, id) {
      forall n | 0 <= n < |inputs| ensures !ForgetsOpen(Before(st, inputs, n), inputs[n].snapshot, inputs[n].env, id) {
        CoherentBefore(st, inputs, n, targets);
        CoherentBefore(st, inputs, n + 1, targets);
        CallTracksIff(Before(st, inputs, n), inputs[n].snapshot, inputs[n].env, id);
      }
    }
  }

  lemma {:induction false} TrackedUpTo(st: BotState, inputs: seq<Input>, targets: seq<Target>, id: string, n: nat)
    requires n <= |inputs| && WellFormed(inputs, targets) && Coherent(st.alerts, targets) && OpenTracked(st.ledger, id)
    requires forall k | 0 <= k < |inputs| :: inputs[k].env.now != 0
    requires forall k | 0 <= k < |inputs| :: !ForgetsOpen(Before(st, inputs, k), inputs[k].snapshot, inputs[k].env, id)
    ensures OpenTracked(Before(st, inputs, n).ledger, id)
  {
    hide OpenTracked, ForgetsOpen, Process, Coherent, UniqueIds;
    if n > 0 {
      TrackedUpTo(st, inputs, targets, id, n - 1);
      CoherentBefore(st, inputs, n - 1, targets);
      CoherentBefore(st, inputs, n, targets);
      CallTracksIff(Before(st, inputs, n - 1), inputs[n - 1].snapshot, inputs[n - 1].env, id);
    } else {
      assert inputs[..0] == [];
    }
  }
}
