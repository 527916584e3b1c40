/**
 The statistics store: per-proxy totals, the incident ledger with its two eviction rules, and the
 rolling log it feeds. Every operation is specified by a function on the value `Ledger`.
 Times are whole Unix seconds; an incident with upAt 0 is open.
 */
module Ledger {
  import opened Rolling

  const MAX_PER_PROXY: nat := 15
  const MAX_GLOBAL: nat := 100

  datatype Incident = Incident(name: string, id: string, downAt: int, upAt: int, durationSec: int, reason: string)

  datatype ProxyStats = ProxyStats(
    name: string, totalChecks: int, successfulChecks: int, totalDowntimeSec: int, dropCount: int,
    lastCheckAt: int, currentlyDown: bool, currentDownAt: int)

  /** The store's state: incidents newest first, totals by stable id, rolling log by stable id. */
  datatype Ledger = Ledger(incidents: seq<Incident>, stats: map<string, ProxyStats>, log: map<string, History>)

  function Entry(l: Ledger, id: string, name: string): ProxyStats {
    (if id in l.stats then l.stats[id] else ProxyStats(name, 0, 0, 0, 0, 0, false, 0)).(name := name)
  }

  function LogOf(l: Ledger, id: string): History {
    if id in l.log then l.log[id] else []
  }

  function Logged(l: Ledger, id: string, online: bool, ts: int, logSize: nat): map<string, History>
    requires logSize > 0
  {
    l.log[id := Push(LogOf(l, id), online, ts, logSize)]
  }

  // ---------------------------------------------------------------- the incident list

  function CountOf(incs: seq<Incident>, id: string): nat {
    if incs == [] then 0 else (if incs[0].id == id then 1 else 0) + CountOf(incs[1..], id)
  }

  /** Position of the oldest (last) incident of a proxy, or -1. */
  function LastIndexOf(incs: seq<Incident>, id: string): (r: int)
    ensures -1 <= r < |incs|
    ensures r >= 0 ==> incs[r].id == id
    ensures forall i | r < i < |incs| :: incs[i].id != id
  {
    if incs == [] then -1
    else if incs[|incs| - 1].id == id then |incs| - 1
    else LastIndexOf(incs[..|incs| - 1], id)
  }

  function WithoutOldest(incs: seq<Incident>, id: string): seq<Incident> {
    var k := LastIndexOf(incs, id);
    if CountOf(incs, id) >= MAX_PER_PROXY && k >= 0 then incs[..k] + incs[k + 1..] else incs
  }

  function AddIncident(incs: seq<Incident>, inc: Incident): seq<Incident> {
    var longer := [inc] + WithoutOldest(incs, inc.id);
    if |longer| > MAX_GLOBAL then longer[..MAX_GLOBAL] else longer
  }

  function Elapsed(from: int, to: int): nat {
    if to - from < 0 then 0 else to - from
  }

  function Closed(inc: Incident, id: string, ts: int): Incident {
    if inc.id == id && inc.upAt == 0 then inc.(upAt := ts, durationSec := Elapsed(inc.downAt, ts)) else inc
  }

  function CloseOpen(incs: seq<Incident>, id: string, ts: int): seq<Incident> {
    seq(|incs|, i requires 0 <= i < |incs| => Closed(incs[i], id, ts))
  }

  // ---------------------------------------------------------------- the operations

  function CheckRecorded(l: Ledger, id: string, name: string, online: bool, ts: int): Ledger {
    var ps := Entry(l, id, name);
    l.(stats := l.stats[id := ps.(totalChecks := ps.totalChecks + 1,
                                  successfulChecks := ps.successfulChecks + (if online then 1 else 0),
                                  lastCheckAt := ts)])
  }

  function WentDown(ps: ProxyStats, ts: int): ProxyStats {
    ps.(currentlyDown := true, currentDownAt := ts, dropCount := ps.dropCount + 1)
  }

  function Recovered(ps: ProxyStats, ts: int): ProxyStats {
    ps.(totalDowntimeSec := ps.totalDowntimeSec + Elapsed(ps.currentDownAt, ts), currentlyDown := false,
        currentDownAt := 0)
  }

  function InitialDownRecorded(l: Ledger, id: string, name: string, ts: int, logSize: nat): Ledger
    requires logSize > 0
  {
    var ps := Entry(l, id, name);
    if ps.currentlyDown then l.(stats := l.stats[id := ps])
    else Ledger(AddIncident(l.incidents, Incident(name, id, ts, 0, 0, "Offline at startup")),
                l.stats[id := WentDown(ps, ts)],
                Logged(l, id, false, ts, logSize))
  }

  function TransitionRecorded(l: Ledger, id: string, name: string, online: bool, reason: string, ts: int,
        logSize: nat): Ledger
    requires logSize > 0
  {
    var ps := Entry(l, id, name);
    var log := Logged(l, id, online, ts, logSize);
    if !online && !ps.currentlyDown then
      Ledger(AddIncident(l.incidents, Incident(name, id, ts, 0, 0, reason)), l.stats[id := WentDown(ps, ts)], log)
    else if online && ps.currentlyDown then
      Ledger(CloseOpen(l.incidents, id, ts), l.stats[id := Recovered(ps, ts)], log)
    else Ledger(l.incidents, l.stats[id := ps], log)
  }

  function OnlineSynced(l: Ledger, id: string, ts: int): Ledger {
    if id in l.stats && l.stats[id].currentlyDown then
      l.(incidents := CloseOpen(l.incidents, id, ts), stats := l.stats[id := Recovered(l.stats[id], ts)])
    else l
  }

  function Pruned(l: Ledger, active: set<string>): Ledger {
    if active == {} then l else l.(stats := map id | id in l.stats && id in active :: l.stats[id])
  }

  // ---------------------------------------------------------------- the object

  class StatsStore {
    var incidents: seq<Incident>
    var stats: map<string, ProxyStats>
    const rolling: RollingStats

    ghost predicate Valid()
      reads this, rolling
    {
      rolling.Valid()
    }

    function State(): Ledger
      reads this, rolling
    {
      Ledger(incidents, stats, rolling.events)
    }

    constructor ()
      ensures Valid() && fresh(rolling)
      ensures State() == Ledger([], map[], map[])
      ensures rolling.maxSize == 1000
    {
      incidents, stats := [], map[];
      rolling := new RollingStats(1000);
    }

    method RecordCheck(id: string, name: string, online: bool, now: int)
      requires Valid()
      modifies this
      ensures Valid() && State() == CheckRecorded(old(State()), id, name, online, now)
    {
      var ps := if id in stats then stats[id] else ProxyStats(name, 0, 0, 0, 0, 0, false, 0);
      ps := ps.(name := name, totalChecks := ps.totalChecks + 1);
      if online { ps := ps.(successfulChecks := ps.successfulChecks + 1); }
      stats := stats[id := ps.(lastCheckAt := now)];
    }

    method AddIncidentEntry(inc: Incident)
      requires Valid()
      modifies this`incidents
      ensures incidents == AddIncident(old(incidents), inc)
    {
      var count, last := 0, -1;
      for i := 0 to |incidents|
        invariant count + CountOf(incidents[i..], inc.id) == CountOf(incidents, inc.id)
        invariant last == LastIndexOf(incidents[..i], inc.id)
        invariant incidents == old(incidents)
      {
        assert incidents[..i + 1][..i] == incidents[..i];
        assert incidents[i..][1..] == incidents[i + 1..];
        if incidents[i].id == inc.id { count, last := count + 1, i; }
      }
      assert incidents[..|incidents|] == incidents;
      if count >= MAX_PER_PROXY && last >= 0 {
        incidents := incidents[..last] + incidents[last + 1..];
      }
      incidents := [inc] + incidents;
      if |incidents| > MAX_GLOBAL {
        incidents := incidents[..MAX_GLOBAL];
      }
    }

    method CloseIncidents(id: string, ts: int)
      requires Valid()
      modifies this`incidents
      ensures incidents == CloseOpen(old(incidents), id, ts)
    {
      for i := 0 to |incidents|
        invariant |incidents| == |old(incidents)|
        invariant forall k | 0 <= k < i :: incidents[k] == Closed(old(incidents)[k], id, ts)
        invariant forall k | i <= k < |incidents| :: incidents[k] == old(incidents)[k]
      {
        if incidents[i].id == id && incidents[i].upAt == 0 {
          var dur := ts - incidents[i].downAt;
          if dur < 0 { dur := 0; }
          incidents := incidents[i := incidents[i].(upAt := ts, durationSec := dur)];
        }
      }
    }

    method RecordInitialDown(id: string, name: string, ts: int)
      requires Valid()
      modifies this, rolling
      ensures Valid() && State() == InitialDownRecorded(old(State()), id, name, ts, rolling.maxSize)
    {
      hide AddIncident, Push;
      var ps := if id in stats then stats[id] else ProxyStats(name, 0, 0, 0, 0, 0, false, 0);
      ps := ps.(name := name);
      if !ps.currentlyDown {
        ps := ps.(currentlyDown := true, currentDownAt := ts, dropCount := ps.dropCount + 1);
        rolling.Record(id, false, ts);
        AddIncidentEntry(Incident(name, id, ts, 0, 0, "Offline at startup"));
      }
      stats := stats[id := ps];
    }

    /** Returns the length of the outage that just ended, 0 otherwise (whole seconds). */
    method RecordTransition(id: string, name: string, online: bool, reason: string, ts: int) returns (downtime: nat)
      requires Valid()
      modifies this, rolling
      ensures Valid() && State() == TransitionRecorded(old(State()), id, name, online, reason, ts, rolling.maxSize)
      ensures downtime == if online && id in old(stats) && old(stats)[id].currentlyDown
                          then Elapsed(old(stats)[id].currentDownAt, ts) else 0
    {
      hide AddIncident, CloseOpen, Push;
      var ps := if id in stats then stats[id] else ProxyStats(name, 0, 0, 0, 0, 0, false, 0);
      ps := ps.(name := name);
      rolling.Record(id, online, ts);
      downtime := 0;
      if !online {
        if !ps.currentlyDown {
          ps := ps.(dropCount := ps.dropCount + 1, currentlyDown := true, currentDownAt := ts);
          AddIncidentEntry(Incident(name, id, ts, 0, 0, reason));
        }
      } else if ps.currentlyDown {
        downtime := Elapsed(ps.currentDownAt, ts);
        ps := ps.(totalDowntimeSec := ps.totalDowntimeSec + downtime, currentlyDown := false, currentDownAt := 0);
        CloseIncidents(id, ts);
      }
      stats := stats[id := ps];
    }

    method SyncOnlineState(id: string, ts: int)
      requires Valid()
      modifies this
      ensures Valid() && State() == OnlineSynced(old(State()), id, ts)
    {
      if id !in stats { return; }
      var ps := stats[id];
      if ps.currentlyDown {
        var duration := ts - ps.currentDownAt;
        if duration < 0 { duration := 0; }
        stats := stats[id := ps.(totalDowntimeSec := ps.totalDowntimeSec + duration, currentlyDown := false,
            currentDownAt := 0)];
        CloseIncidents(id, ts);
      }
    }

    method PruneInactive(active: set<string>)
      requires Valid()
      modifies this
      ensures Valid() && State() == Pruned(old(State()), active)
    {
      if active == {} { return; }
      var todo := stats.Keys;
      while todo != {}
        invariant todo <= old(stats).Keys
        invariant stats == map id | id in old(stats) && (id in todo || id in active) :: old(stats)[id]
        invariant incidents == old(incidents)
        decreases |todo|
      {
        var id :| id in todo;
        if id !in active { stats := stats - {id}; }
        todo := todo - {id};
      }
    }

    method GetFlapCount24h(id: string, now: int) returns (flaps: nat)
      requires Valid()
      ensures flaps == FlapsOf(LogOf(State(), id), now)
    {
      flaps := rolling.FlapCount24h(id, now);
    }
  }
}
