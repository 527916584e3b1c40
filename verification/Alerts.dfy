/**
 The alert pipeline: ProcessSnapshot compares a snapshot with the last seen states, records the
 transitions, opens alerts for proxies that went down and resolves those of proxies that came back or
 were disabled. Times are whole Unix seconds. Sending a message is the function `send`: it returns the
 message id, or 0 when the message could not be sent.
 */
module Alerts {
  import opened Options
  import opened Text
  import opened Metrics
  import opened Rolling
  import opened Ledger

  const FLAP_LIMIT: nat := 10
  const FLAP_PAUSE: int := 15 * 60

  datatype Target = Target(chat: int, thread: int)

  datatype Alert = Alert(chat: int, thread: int, message: int, id: string, name: string, downAt: int, reason: string)

  function AlertKey(chat: int, thread: int, id: string): string {
    Itoa(chat) + [':'] + (Itoa(thread) + [':'] + id)
  }

  lemma AlertKeyInjective(chat: int, thread: int, id: string, chat': int, thread': int, id': string)
    requires AlertKey(chat, thread, id) == AlertKey(chat', thread', id')
    ensures chat == chat' && thread == thread' && id == id'
  {
    ItoaHasNo(chat, ':');
    ItoaHasNo(chat', ':');
    FirstSeparatorUnique(Itoa(chat), Itoa(thread) + [':'] + id, Itoa(chat'), Itoa(thread') + [':'] + id', ':');
    ItoaHasNo(thread, ':');
    ItoaHasNo(thread', ':');
    FirstSeparatorUnique(Itoa(thread), id, Itoa(thread'), id', ':');
    ItoaInjective(chat, chat');
    ItoaInjective(thread, thread');
  }

  // ---------------------------------------------------------------- the tracker

  class AlertTracker {
    var alerts: map<string, Alert>

    constructor ()
      ensures alerts == map[]
    {
      alerts := map[];
    }

    method HasAlert(t: Target, id: string) returns (found: bool)
      ensures found == (AlertKey(t.chat, t.thread, id) in alerts)
    {
      found := AlertKey(t.chat, t.thread, id) in alerts;
    }

    method Track(t: Target, message: int, id: string, name: string, downAt: int, reason: string)
      modifies this
      ensures alerts == old(alerts)[AlertKey(t.chat, t.thread, id) :=
                Alert(t.chat, t.thread, message, id, name, downAt, reason)]
    {
      alerts := alerts[AlertKey(t.chat, t.thread, id) := Alert(t.chat, t.thread, message, id, name, downAt, reason)];
    }

    method Resolve(t: Target, id: string) returns (alert: Option<Alert>)
      modifies this
      ensures var key := AlertKey(t.chat, t.thread, id);
              && alert == (if key in old(alerts) then Some(old(alerts)[key]) else None)
              && alerts == old(alerts) - {key}
    {
      var key := AlertKey(t.chat, t.thread, id);
      if key !in alerts { return None; }
      alert := Some(alerts[key]);
      alerts := alerts - {key};
    }

    /** Time since the earliest alert of a proxy; 0 stands for Go's zero time. */
    method GetDowntime(id: string, now: int) returns (d: int)
      ensures d >= 0
      ensures (forall k | k in alerts :: alerts[k].id != id) ==> d == 0
      ensures (forall k | k in alerts && alerts[k].id == id :: alerts[k].downAt > 0) ==>
                && (forall k | k in alerts && alerts[k].id == id :: d >= now - alerts[k].downAt)
                && (d == 0 || exists k | k in alerts :: alerts[k].id == id && d == now - alerts[k].downAt)
    {
      var earliest, todo := 0, alerts.Keys;
      ghost var at := "";
      while todo != {}
        invariant todo <= alerts.Keys
        invariant (forall k | k in alerts && k !in todo :: alerts[k].id != id) ==> earliest == 0
        invariant (forall k | k in alerts && alerts[k].id == id :: alerts[k].downAt > 0) ==>
                    && (earliest != 0 ==> at in alerts && alerts[at].id == id && alerts[at].downAt == earliest)
                    && (forall k | k in alerts && k !in todo && alerts[k].id == id :: 0 < earliest <= alerts[k].downAt)
        decreases |todo|
      {
        var k :| k in todo;
        todo := todo - {k};
        if alerts[k].id == id && (earliest == 0 || alerts[k].downAt < earliest) {
          earliest, at := alerts[k].downAt, k;
        }
      }
      if earliest == 0 || now - earliest < 0 { return 0; }
      d := now - earliest;
    }
  }

  // ---------------------------------------------------------------- the specification

  datatype BotState = BotState(
    seeded: bool, lastSeen: map<string, bool>, lastFlap: map<string, int>,
    alerts: map<string, Alert>, ledger: Ledger)

  /** What one call is given besides the snapshot. */
  datatype Env = Env(targets: seq<Target>, nodeAlerts: bool, logSize: nat, now: int, quiet: bool,
      send: (Target, string) -> int)

  /** State and the outages to announce, as the scan of a snapshot builds them. */
  datatype Work = Work(st: BotState, outages: seq<Metric>)

  function DisplayName(m: Metric): string {
    if m.node != "" then "[" + m.node + "] " + m.name else m.name
  }

  function KeysOf(targets: seq<Target>, id: string): set<string> {
    set t | t in targets :: AlertKey(t.chat, t.thread, id)
  }

  function Resolved(alerts: map<string, Alert>, targets: seq<Target>, id: string): map<string, Alert> {
    alerts - KeysOf(targets, id)
  }

  function SeedOne(st: BotState, m: Metric, env: Env): BotState
    requires env.logSize > 0
  {
    if m.disabled then st
    else
      var checked := CheckRecorded(st.ledger, m.id, DisplayName(m), m.online, env.now);
      st.(lastSeen := st.lastSeen[m.id := m.online],
          ledger := if m.online then OnlineSynced(checked, m.id, env.now)
                    else InitialDownRecorded(checked, m.id, DisplayName(m), env.now, env.logSize),
          alerts := if m.online then Resolved(st.alerts, env.targets, m.id) else st.alerts)
  }

  function SeedUpTo(st: BotState, snapshot: Snapshot, i: nat, env: Env): BotState
    requires i <= |snapshot| && env.logSize > 0
  {
    if i == 0 then st else SeedOne(SeedUpTo(st, snapshot, i - 1, env), snapshot[i - 1], env)
  }

  function Skipped(m: Metric, env: Env): bool {
    m.node != "" && !env.nodeAlerts
  }

  /** The ledger after the check of m, and after the transition it reveals if any. */
  function CheckedLedger(st: BotState, m: Metric, env: Env): Ledger
    requires env.logSize > 0
  {
    var checked := CheckRecorded(st.ledger, m.id, DisplayName(m), m.online, env.now);
    if m.id !in st.lastSeen || st.lastSeen[m.id] == m.online then checked
    else TransitionRecorded(checked, m.id, DisplayName(m), m.online, if m.online then "" else m.reason, env.now,
        env.logSize)
  }

  function WentDownNow(st: BotState, m: Metric): bool {
    !m.disabled && m.id in st.lastSeen && st.lastSeen[m.id] && !m.online
  }

  function CameUpNow(st: BotState, m: Metric): bool {
    !m.disabled && m.id in st.lastSeen && !st.lastSeen[m.id] && m.online
  }

  function Flapping(ledger: Ledger, id: string, now: int): bool {
    FlapsOf(LogOf(ledger, id), now) > FLAP_LIMIT
  }

  function Paused(st: BotState, id: string, now: int): bool {
    id in st.lastFlap && now - st.lastFlap[id] < FLAP_PAUSE
  }

  /** A new outage that goes to the chats: not skipped, not in quiet hours, not paused for flapping. */
  function Announced(st: BotState, m: Metric, env: Env): bool
    requires env.logSize > 0
  {
    && WentDownNow(st, m) && !Skipped(m, env) && !env.quiet
    && !(Flapping(CheckedLedger(st, m, env), m.id, env.now) && Paused(st, m.id, env.now))
  }

  function DiffOne(w: Work, m: Metric, env: Env): Work
    requires env.logSize > 0
  {
    var st := w.st;
    if m.disabled then
      w.(st := st.(alerts := Resolved(st.alerts, env.targets, m.id), lastSeen := st.lastSeen - {m.id}))
    else
      var ledger := CheckedLedger(st, m, env);
      var announced := Announced(st, m, env);
      Work(BotState(st.seeded, st.lastSeen[m.id := m.online],
                    if announced && Flapping(ledger, m.id, env.now) then st.lastFlap[m.id := env.now] else st.lastFlap,
                    if CameUpNow(st, m) then Resolved(st.alerts, env.targets, m.id) else st.alerts,
                    ledger),
           if announced then w.outages + [m] else w.outages)
  }

  function DiffUpTo(st: BotState, snapshot: Snapshot, i: nat, env: Env): Work
    requires i <= |snapshot| && env.logSize > 0
  {
    if i == 0 then Work(st, []) else DiffOne(DiffUpTo(st, snapshot, i - 1, env), snapshot[i - 1], env)
  }

  function EnabledIds(snapshot: Snapshot): set<string> {
    set m | m in snapshot && !m.disabled :: m.id
  }

  /** Forget proxies the snapshot no longer shows enabled. */
  function DropGone(st: BotState, seen: set<string>): BotState {
    st.(lastSeen := st.lastSeen - (st.lastSeen.Keys - seen),
        lastFlap := st.lastFlap - (st.lastSeen.Keys - seen),
        ledger := Pruned(st.ledger, seen))
  }

  function SendOne(st: BotState, m: Metric, t: Target, env: Env): BotState {
    var key := AlertKey(t.chat, t.thread, m.id);
    var message := env.send(t, m.id);
    if key in st.alerts || message == 0 || (m.id in st.lastSeen && st.lastSeen[m.id]) then st
    else st.(alerts := st.alerts[key := Alert(t.chat, t.thread, message, m.id, m.name, env.now, m.reason)])
  }

  function SendTo(st: BotState, m: Metric, i: nat, env: Env): BotState
    requires i <= |env.targets|
  {
    if i == 0 then st else SendOne(SendTo(st, m, i - 1, env), m, env.targets[i - 1], env)
  }

  function SendAll(st: BotState, outages: seq<Metric>, i: nat, env: Env): BotState
    requires i <= |outages|
  {
    if i == 0 then st else SendTo(SendAll(st, outages, i - 1, env), outages[i - 1], |env.targets|, env)
  }

  /** One whole call of ProcessSnapshot. */
  function Process(st: BotState, snapshot: Snapshot, env: Env): Work
    requires env.logSize > 0
  {
    if !st.seeded then Work(SeedUpTo(st, snapshot, |snapshot|, env).(seeded := true), [])
    else
      var w := DiffUpTo(st, snapshot, |snapshot|, env);
      Work(SendAll(DropGone(w.st, EnabledIds(snapshot)), w.outages, |w.outages|, env), w.outages)
  }

  lemma MinusTwice<V>(m: map<string, V>, a: set<string>, b: set<string>)
    ensures (m - a) - b == m - (a + b)
  {
  }

  // ---------------------------------------------------------------- the object

  class Bot {
    var seeded: bool
    var lastSeen: map<string, bool>
    var lastFlap: map<string, int>
    const targets: seq<Target>
    const tracker: AlertTracker
    const stats: StatsStore

    ghost predicate Valid()
      reads this, stats, stats.rolling
    {
      stats.Valid()
    }

    function State(): BotState
      reads this, tracker, stats, stats.rolling
    {
      BotState(seeded, lastSeen, lastFlap, tracker.alerts, stats.State())
    }

    constructor (targets: seq<Target>)
      ensures Valid() && fresh(tracker) && fresh(stats) && fresh(stats.rolling)
      ensures this.targets == targets && stats.rolling.maxSize == 1000
      ensures State() == BotState(false, map[], map[], map[], Ledger([], map[], map[]))
    {
      seeded, lastSeen, lastFlap := false, map[], map[];
      this.targets := targets;
      tracker := new AlertTracker();
      stats := new StatsStore();
    }

    function EnvOf(nodeAlerts: bool, now: int, quiet: bool, send: (Target, string) -> int): Env {
      Env(targets, nodeAlerts, stats.rolling.maxSize, now, quiet, send)
    }

    method ResolveEverywhere(id: string)
      modifies tracker
      ensures tracker.alerts == Resolved(old(tracker.alerts), targets, id)
    {
      for i := 0 to |targets|
        invariant tracker.alerts == Resolved(old(tracker.alerts), targets[..i], id)
      {
        assert targets[..i + 1] == targets[..i] + [targets[i]];
        var _ := tracker.Resolve(targets[i], id);
      }
      assert targets[..|targets|] == targets;
    }

    method ProcessSnapshot(snapshot: Snapshot, nodeAlerts: bool, now: int, quiet: bool, send: (Target, string) -> int)
        returns (outages: seq<Metric>)
      requires Valid()
      modifies this, tracker, stats, stats.rolling
      ensures Valid()
      ensures var r := Process(old(State()), snapshot, EnvOf(nodeAlerts, now, quiet, send));
              State() == r.st && outages == r.outages
    {
      hide SeedOne, DiffOne, SendTo, DropGone;
      ghost var env := EnvOf(nodeAlerts, now, quiet, send);
      if !seeded {
        SeedAll(snapshot, now, env);
        return [];
      }
      ghost var start := State();
      var seenNow;
      outages, seenNow := DiffAll(snapshot, nodeAlerts, now, quiet, env);
      ForgetGone(seenNow);
      ghost var pruned := State();
      for i := 0 to |outages|
        invariant Valid() && State() == SendAll(pruned, outages, i, env)
      {
        Announce(outages[i], now, send, env);
      }
    }

    /** The seeding call. */
    method SeedAll(snapshot: Snapshot, now: int, ghost env: Env)
      requires Valid() && env == EnvOf(env.nodeAlerts, now, env.quiet, env.send)
      modifies this`lastSeen, this`seeded, tracker, stats, stats.rolling
      ensures Valid() && State() == SeedUpTo(old(State()), snapshot, |snapshot|, env).(seeded := true)
    {
      hide SeedOne;
      for i := 0 to |snapshot|
        invariant Valid() && State() == SeedUpTo(old(State()), snapshot, i, env)
      {
        SeedProxy(snapshot[i], now, env);
      }
      seeded := true;
    }

    /** The comparison with the last seen states, proxy by proxy. */
    method DiffAll(snapshot: Snapshot, nodeAlerts: bool, now: int, quiet: bool, ghost env: Env)
        returns (outages: seq<Metric>, seenNow: set<string>)
      requires Valid() && env == EnvOf(nodeAlerts, now, quiet, env.send)
      modifies this`lastSeen, this`lastFlap, tracker, stats, stats.rolling
      ensures Valid() && Work(State(), outages) == DiffUpTo(old(State()), snapshot, |snapshot|, env)
      ensures seenNow == EnabledIds(snapshot)
    {
      hide DiffOne;
      outages, seenNow := [], {};
      for i := 0 to |snapshot|
        invariant Valid() && Work(State(), outages) == DiffUpTo(old(State()), snapshot, i, env)
        invariant seenNow == EnabledIds(snapshot[..i])
      {
        assert snapshot[..i + 1] == snapshot[..i] + [snapshot[i]];
        var announce := DiffProxy(snapshot[i], nodeAlerts, now, quiet, outages, env);
        if !snapshot[i].disabled { seenNow := seenNow + {snapshot[i].id}; }
        if announce { outages := outages + [snapshot[i]]; }
      }
      assert snapshot[..|snapshot|] == snapshot;
    }

    method SeedProxy(m: Metric, now: int, ghost env: Env)
      requires Valid() && env == EnvOf(env.nodeAlerts, now, env.quiet, env.send)
      modifies this`lastSeen, tracker, stats, stats.rolling
      ensures Valid() && State() == SeedOne(old(State()), m, env)
    {
      if m.disabled { return; }
      lastSeen := lastSeen[m.id := m.online];
      stats.RecordCheck(m.id, DisplayName(m), m.online, now);
      if !m.online {
        stats.RecordInitialDown(m.id, DisplayName(m), now);
      } else {
        stats.SyncOnlineState(m.id, now);
        ResolveEverywhere(m.id);
      }
    }

    /** One proxy of a later snapshot; announce says whether its outage goes to the chats. */
    method DiffProxy(m: Metric, nodeAlerts: bool, now: int, quiet: bool, ghost outages: seq<Metric>, ghost env: Env)
        returns (announce: bool)
      requires Valid() && env == EnvOf(nodeAlerts, now, quiet, env.send)
      modifies this`lastSeen, this`lastFlap, tracker, stats, stats.rolling
      ensures Valid()
      ensures Work(State(), if announce then outages + [m] else outages) == DiffOne(Work(old(State()), outages), m, env)
    {
      hide AddIncident, CloseOpen, Push, KeysOf, AlertKey, FlapsOf;
      announce := false;
      if m.disabled {
        ResolveEverywhere(m.id);
        lastSeen := lastSeen - {m.id};
        return;
      }
      stats.RecordCheck(m.id, DisplayName(m), m.online, now);
      var known := m.id in lastSeen;
      var prev := known && lastSeen[m.id];
      lastSeen := lastSeen[m.id := m.online];
      if !known { return; }
      var skipChatAlert := m.node != "" && !nodeAlerts;
      if prev && !m.online {
        var _ := stats.RecordTransition(m.id, DisplayName(m), false, m.reason, now);
        if skipChatAlert || quiet { return; }
        var flaps := stats.GetFlapCount24h(m.id, now);
        if flaps > FLAP_LIMIT {
          if m.id in lastFlap && now - lastFlap[m.id] < FLAP_PAUSE { return; }
          lastFlap := lastFlap[m.id := now];
        }
        announce := true;
      } else if !prev && m.online {
        var _ := stats.RecordTransition(m.id, DisplayName(m), true, "", now);
        ResolveEverywhere(m.id);
      }
    }

    method ForgetGone(seenNow: set<string>)
      requires Valid()
      modifies this`lastSeen, this`lastFlap, stats
      ensures Valid() && State() == DropGone(old(State()), seenNow)
    {
      DropUnseen(seenNow);
      if seenNow != {} { stats.PruneInactive(seenNow); }
    }

    method DropUnseen(seenNow: set<string>)
      modifies this`lastSeen, this`lastFlap
      ensures lastSeen == old(lastSeen) - (old(lastSeen).Keys - seenNow)
      ensures lastFlap == old(lastFlap) - (old(lastSeen).Keys - seenNow)
    {
      var todo := lastSeen.Keys;
      ghost var seen0, flap0, gone := lastSeen, lastFlap, {};
      while todo != {}
        invariant todo <= seen0.Keys && gone == seen0.Keys - todo - seenNow
        invariant lastSeen == seen0 - gone && lastFlap == flap0 - gone
        decreases |todo|
      {
        var id :| id in todo;
        todo := todo - {id};
        if id !in seenNow {
          MinusTwice(seen0, gone, {id});
          MinusTwice(flap0, gone, {id});
          gone := gone + {id};
          lastSeen, lastFlap := lastSeen - {id}, lastFlap - {id};
        }
      }
      assert gone == seen0.Keys - seenNow;
    }

    method Announce(m: Metric, now: int, send: (Target, string) -> int, ghost env: Env)
      requires Valid() && env == EnvOf(env.nodeAlerts, now, env.quiet, send)
      modifies tracker
      ensures Valid() && State() == SendTo(old(State()), m, |targets|, env)
    {
      hide AlertKey;
      for i := 0 to |targets|
        invariant State() == SendTo(old(State()), m, i, env)
      {
        var t := targets[i];
        var has := tracker.HasAlert(t, m.id);
        if has { continue; }
        var message := send(t, m.id);
        if message != 0 {
          var stillDown := !(m.id in lastSeen && lastSeen[m.id]);
          if !stillDown { continue; }
          tracker.Track(t, message, m.id, m.name, now, m.reason);
        }
      }
    }
  }
}
