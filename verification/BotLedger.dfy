/**
 The statistics of the alert pipeline: a run of ProcessSnapshot is a run of the store whose calls are read off from each
 snapshot and the one before it. What is proved of every run of the store therefore holds of the pipeline.
 */
module BotLedger {
  import opened Options
  import opened Metrics
  import opened Rolling
  import opened Ledger
  import opened LedgerProofs
  import opened LedgerRuns
  import opened Alerts
  import opened AlertProofs
  import opened AlertTiming

  // ---------------------------------------------------------------- the calls a snapshot stands for

  /** The snapshot shows this proxy enabled and in this state. */
  ghost predicate ShowsAs(s: Snapshot, id: string, online: bool) {
    exists k | 0 <= k < |s| :: s[k].id == id && !s[k].disabled && s[k].online == online
  }

  function FullName(m: Metric): string {
    if m.node == "" then m.name else "[" + m.node + "] " + m.name
  }

  /** The first snapshot: a check of each enabled proxy, and its state. */
  function FirstCalls(m: Metric, now: int): seq<Call> {
    if m.disabled then []
    else [Call(Check(m.id, FullName(m), m.online), now)]
         + [Call(if m.online then Sync(m.id) else InitialDown(m.id, FullName(m)), now)]
  }

  /** A later one: a check of each enabled proxy, and a transition where the snapshot before shows the other state. */
  ghost function LaterCalls(prev: Snapshot, m: Metric, now: int): seq<Call> {
    if m.disabled then []
    else [Call(Check(m.id, FullName(m), m.online), now)]
         + if ShowsAs(prev, m.id, !m.online)
           then [Call(Transition(m.id, FullName(m), m.online, if m.online then "" else m.reason), now)] else []
  }

  ghost function FirstUpTo(s: Snapshot, i: nat, now: int): seq<Call>
    requires i <= |s|
  {
    if i == 0 then [] else FirstUpTo(s, i - 1, now) + FirstCalls(s[i - 1], now)
  }

  ghost function LaterUpTo(prev: Snapshot, s: Snapshot, i: nat, now: int): seq<Call>
    requires i <= |s|
  {
    if i == 0 then [] else LaterUpTo(prev, s, i - 1, now) + LaterCalls(prev, s[i - 1], now)
  }

  /** What the last snapshot of a run adds; any but the first ends with a pruning. */
  ghost function LastCalls(inputs: seq<Input>): seq<Call>
    requires inputs != []
  {
    var n := |inputs| - 1;
    var s, now := inputs[n].snapshot, inputs[n].env.now;
    if n == 0 then FirstUpTo(s, |s|, now)
    else LaterUpTo(inputs[n - 1].snapshot, s, |s|, now) + [Call(Prune(EnabledIds(s)), now)]
  }

  /** All calls of a run. */
  ghost function CallsOf(inputs: seq<Input>): seq<Call> {
    if inputs == [] then [] else CallsOf(inputs[..|inputs| - 1]) + LastCalls(inputs)
  }

  // ---------------------------------------------------------------- the store after some more calls

  function Applied(l: Ledger, calls: seq<Call>, logSize: nat): Ledger
    requires logSize > 0
  {
    if calls == [] then l else Apply(Applied(l, calls[..|calls| - 1], logSize), calls[|calls| - 1], logSize)
  }

  lemma AppliedSnoc(l: Ledger, calls: seq<Call>, c: Call, logSize: nat)
    requires logSize > 0
    ensures Applied(l, calls + [c], logSize) == Apply(Applied(l, calls, logSize), c, logSize)
  {
    hide Apply;
    assert (calls + [c])[..|calls|] == calls;
  }

  lemma {:induction false} AppliedConcat(l: Ledger, a: seq<Call>, b: seq<Call>, logSize: nat)
    requires logSize > 0
    ensures Applied(l, a + b, logSize) == Applied(Applied(l, a, logSize), b, logSize)
  {
    hide Apply;
    if b == [] {
      assert a + b == a;
    } else {
      var init, last := b[..|b| - 1], b[|b| - 1];
      AppliedConcat(l, a, init, logSize);
      AppliedSnoc(l, a + init, last, logSize);
      assert a + b == (a + init) + [last];
    }
  }

  lemma {:induction false} RunIsApplied(calls: seq<Call>, logSize: nat)
    requires logSize > 0
    ensures Run(calls, logSize) == Applied(Ledger([], map[], map[]), calls, logSize)
  {
    hide Apply;
    if calls != [] { RunIsApplied(calls[..|calls| - 1], logSize); }
  }

  /** A longer run goes on from the state of the shorter one. */
  lemma RunGoesOn(calls: seq<Call>, more: seq<Call>, logSize: nat)
    requires logSize > 0
    ensures Run(calls + more, logSize) == Applied(Run(calls, logSize), more, logSize)
  {
    hide Run, Applied;
    RunIsApplied(calls, logSize);
    RunIsApplied(calls + more, logSize);
    AppliedConcat(Ledger([], map[], map[]), calls, more, logSize);
  }

  // ---------------------------------------------------------------- one call

  lemma AppliedShort(l: Ledger, c: Call, d: Call, logSize: nat)
    requires logSize > 0
    ensures Applied(l, [], logSize) == l && Applied(l, [c], logSize) == Apply(l, c, logSize)
    ensures Applied(l, [c] + [d], logSize) == Apply(Apply(l, c, logSize), d, logSize)
    ensures Applied(l, [c] + [], logSize) == Apply(l, c, logSize)
  {
    hide Apply;
    AppliedSnoc(l, [], c, logSize);
    AppliedSnoc(l, [c], d, logSize);
    assert [] + [c] == [c] && [c] + [] == [c];
  }

  lemma FirstOne(st: BotState, m: Metric, env: Env)
    requires env.logSize > 0
    ensures SeedOne(st, m, env).ledger == Applied(st.ledger, FirstCalls(m, env.now), env.logSize)
  {
    hide CheckRecorded, InitialDownRecorded, OnlineSynced, Resolved, Applied;
    var check := Call(Check(m.id, FullName(m), m.online), env.now);
    var state := Call(if m.online then Sync(m.id) else InitialDown(m.id, FullName(m)), env.now);
    AppliedShort(st.ledger, check, state, env.logSize);
  }

  lemma {:induction false} FirstScan(st: BotState, s: Snapshot, i: nat, env: Env)
    requires env.logSize > 0 && i <= |s|
    ensures SeedUpTo(st, s, i, env).ledger == Applied(st.ledger, FirstUpTo(s, i, env.now), env.logSize)
  {
    hide SeedOne, FirstCalls;
    if i > 0 {
      FirstScan(st, s, i - 1, env);
      FirstOne(SeedUpTo(st, s, i - 1, env), s[i - 1], env);
      AppliedConcat(st.ledger, FirstUpTo(s, i - 1, env.now), FirstCalls(s[i - 1], env.now), env.logSize);
    }
  }

  /** The state knows of this proxy what the snapshot before showed. */
  ghost predicate Remembers(st: BotState, prev: Snapshot, id: string) {
    forall online :: ShowsAs(prev, id, online) <==> id in st.lastSeen && st.lastSeen[id] == online
  }

  lemma DiffLedger(w: Work, m: Metric, env: Env)
    requires env.logSize > 0
    ensures DiffOne(w, m, env).st.ledger == if m.disabled then w.st.ledger else CheckedLedger(w.st, m, env)
  {
    hide CheckedLedger, Resolved, Announced, Flapping;
  }

  lemma LaterOne(w: Work, prev: Snapshot, m: Metric, env: Env)
    requires env.logSize > 0 && Remembers(w.st, prev, m.id)
    ensures DiffOne(w, m, env).st.ledger == Applied(w.st.ledger, LaterCalls(prev, m, env.now), env.logSize)
  {
    hide CheckRecorded, TransitionRecorded, DiffOne, ShowsAs, Applied;
    DiffLedger(w, m, env);
    var check := Call(Check(m.id, FullName(m), m.online), env.now);
    var change := Call(Transition(m.id, FullName(m), m.online, if m.online then "" else m.reason), env.now);
    AppliedShort(w.st.ledger, check, change, env.logSize);
    assert ShowsAs(prev, m.id, !m.online) <==> m.id in w.st.lastSeen && w.st.lastSeen[m.id] == !m.online;
  }

  lemma {:induction false} LaterScan(st: BotState, prev: Snapshot, s: Snapshot, i: nat, env: Env)
    requires env.logSize > 0 && i <= |s| && UniqueIds(s) && Coherent(st.alerts, env.targets)
    requires forall id :: Remembers(st, prev, id)
    ensures DiffUpTo(st, s, i, env).st.ledger == Applied(st.ledger, LaterUpTo(prev, s, i, env.now), env.logSize)
  {
    hide DiffOne, LaterCalls, Remembers;
    if i > 0 {
      var w := DiffUpTo(st, s, i - 1, env);
      LaterScan(st, prev, s, i - 1, env);
      ScanLeaves(st, s, i - 1, env, s[i - 1].id);
      RemembersAlike(st, w.st, prev, s[i - 1].id);
      LaterOne(w, prev, s[i - 1], env);
      AppliedConcat(st.ledger, LaterUpTo(prev, s, i - 1, env.now), LaterCalls(prev, s[i - 1], env.now), env.logSize);
    }
  }

  lemma RemembersAlike(st: BotState, st': BotState, prev: Snapshot, id: string)
    requires Remembers(st, prev, id) && SliceOf(st, id).seen == SliceOf(st', id).seen
    ensures Remembers(st', prev, id)
  {
    SameKnown(st.lastSeen, st'.lastSeen, id);
  }

  lemma RemembersSeen(st: BotState, s: Snapshot, id: string)
    requires LastSeenIs(st, s) && UniqueIds(s)
    ensures Remembers(st, s, id)
  {
    forall online ensures ShowsAs(s, id, online) <==> id in st.lastSeen && st.lastSeen[id] == online {
      if ShowsAs(s, id, online) {
        var k :| 0 <= k < |s| && s[k].id == id && !s[k].disabled && s[k].online == online;
        assert s[k] in s;
      }
      if id in st.lastSeen {
        assert id in EnabledIds(s);
        var m :| m in s && !m.disabled && m.id == id;
        var k :| 0 <= k < |s| && s[k] == m;
      }
    }
  }

  lemma {:induction false} SendingKeepsLedger(st: BotState, outages: seq<Metric>, i: nat, env: Env)
    requires i <= |outages| && Coherent(st.alerts, env.targets)
    ensures SendAll(st, outages, i, env).ledger == st.ledger
  {
    SendAllOnly(st, outages, i, env);
  }

  /** A later call of the pipeline, as calls of the store. */
  lemma LaterCall(st: BotState, prev: Snapshot, s: Snapshot, env: Env)
    requires env.logSize > 0 && UniqueIds(s) && UniqueIds(prev) && Coherent(st.alerts, env.targets)
    requires st.seeded && LastSeenIs(st, prev)
    ensures Process(st, s, env).st.ledger
         == Applied(st.ledger, LaterUpTo(prev, s, |s|, env.now) + [Call(Prune(EnabledIds(s)), env.now)], env.logSize)
  {
    hide DiffOne, LaterCalls, Remembers, LastSeenIs, LaterUpTo, DiffUpTo;
    forall id ensures Remembers(st, prev, id) { RemembersSeen(st, prev, id); }
    LaterScan(st, prev, s, |s|, env);
    ScanCoherent(st, s, |s|, env);
    var w := DiffUpTo(st, s, |s|, env);
    SendingKeepsLedger(DropGone(w.st, EnabledIds(s)), w.outages, |w.outages|, env);
    AppliedSnoc(st.ledger, LaterUpTo(prev, s, |s|, env.now), Call(Prune(EnabledIds(s)), env.now), env.logSize);
  }

  // ---------------------------------------------------------------- whole runs

  /** The statistics after a run from the start are those the store has after these calls. */
  lemma {:induction false} LedgerOfRun(inputs: seq<Input>, targets: seq<Target>, logSize: nat)
    requires logSize > 0 && WellFormed(inputs, targets)
    requires forall i | 0 <= i < |inputs| :: inputs[i].env.logSize == logSize
    ensures var st := RunBot(EMPTY, inputs);
            && st.ledger == Run(CallsOf(inputs), logSize)
            && Coherent(st.alerts, targets) && st.seeded == (inputs != [])
            && (inputs != [] ==> LastSeenIs(st, inputs[|inputs| - 1].snapshot))
  {
    hide Process, Run, LastSeenIs, Coherent, LastCalls, Applied;
    if inputs == [] {
      NoCalls(targets, logSize);
    } else {
      var before := inputs[..|inputs| - 1];
      LedgerOfRun(before, targets, logSize);
      OneMoreCall(RunBot(EMPTY, before), inputs, targets);
      RunGoesOn(CallsOf(before), LastCalls(inputs), logSize);
    }
  }

  lemma OneMoreCall(st: BotState, inputs: seq<Input>, targets: seq<Target>)
    requires inputs != [] && WellFormed(inputs, targets) && Coherent(st.alerts, targets)
    requires if |inputs| == 1 then st == EMPTY else st.seeded && LastSeenIs(st, inputs[|inputs| - 2].snapshot)
    ensures var s, env := inputs[|inputs| - 1].snapshot, inputs[|inputs| - 1].env;
            var after := Process(st, s, env).st;
            && after.ledger == Applied(st.ledger, LastCalls(inputs), env.logSize)
            && Coherent(after.alerts, targets) && after.seeded && LastSeenIs(after, s)
  {
    hide Process, LastSeenIs, Coherent, Applied, FirstUpTo, LaterUpTo;
    var s, env := inputs[|inputs| - 1].snapshot, inputs[|inputs| - 1].env;
    ProcessCoherent(st, s, env);
    if |inputs| == 1 {
      FirstCall(s, env);
    } else {
      AfterCall(st, s, env);
      LaterCall(st, inputs[|inputs| - 2].snapshot, s, env);
    }
  }

  lemma NoCalls(targets: seq<Target>, logSize: nat)
    requires logSize > 0
    ensures RunBot(EMPTY, []).ledger == Run(CallsOf([]), logSize) && Coherent(EMPTY.alerts, targets)
  {
  }

  lemma FirstCall(s: Snapshot, env: Env)
    requires env.logSize > 0 && UniqueIds(s)
    ensures Process(EMPTY, s, env).st.ledger == Applied(EMPTY.ledger, FirstUpTo(s, |s|, env.now), env.logSize)
    ensures LastSeenIs(Process(EMPTY, s, env).st, s)
  {
    hide SeedOne, LastSeenIs;
    FirstScan(EMPTY, s, |s|, env);
    SeedScan(EMPTY, s, |s|, env);
    assert s[..|s|] == s;
    SeenOnly(SeedUpTo(EMPTY, s, |s|, env), s);
  }

  lemma SeenOnly(st: BotState, s: Snapshot)
    requires LastSeenIs(st, s)
    ensures LastSeenIs(st.(seeded := true), s)
  {
  }

  // ---------------------------------------------------------------- what therefore holds of the pipeline

  ghost predicate AllAt(calls: seq<Call>, now: int) {
    forall i | 0 <= i < |calls| :: calls[i].ts == now
  }

  lemma {:induction false} FirstAt(s: Snapshot, i: nat, now: int)
    requires i <= |s|
    ensures AllAt(FirstUpTo(s, i, now), now)
  {
    if i > 0 { FirstAt(s, i - 1, now); }
  }

  lemma {:induction false} LaterAt(prev: Snapshot, s: Snapshot, i: nat, now: int)
    requires i <= |s|
    ensures AllAt(LaterUpTo(prev, s, i, now), now)
  {
    hide ShowsAs, FullName;
    if i > 0 { LaterAt(prev, s, i - 1, now); }
  }

  ghost predicate TimelyUntil(calls: seq<Call>, now: int) {
    Timely(calls) && forall i | 0 <= i < |calls| :: calls[i].ts <= now
  }

  lemma TimelyMore(calls: seq<Call>, from: int, more: seq<Call>, now: int)
    requires TimelyUntil(calls, from) && AllAt(more, now) && from <= now && now > 0
    ensures TimelyUntil(calls + more, now)
  {
  }

  lemma {:induction false} CallsTimely(inputs: seq<Input>)
    requires Chronological(inputs) && forall i | 0 <= i < |inputs| :: inputs[i].env.now > 0
    ensures TimelyUntil(CallsOf(inputs), if inputs == [] then 0 else inputs[|inputs| - 1].env.now)
  {
    hide FirstUpTo, LaterUpTo, TimelyUntil;
    if inputs == [] {
      NoneTimely();
    } else {
      var n := |inputs| - 1;
      var s, now := inputs[n].snapshot, inputs[n].env.now;
      CallsTimely(inputs[..n]);
      if n == 0 {
        FirstAt(s, |s|, now);
        TimelyMore(CallsOf(inputs[..n]), 0, FirstUpTo(s, |s|, now), now);
      } else {
        LaterAt(inputs[n - 1].snapshot, s, |s|, now);
        TimelyMore(CallsOf(inputs[..n]), inputs[n - 1].env.now,
            LaterUpTo(inputs[n - 1].snapshot, s, |s|, now) + [Call(Prune(EnabledIds(s)), now)], now);
      }
    }
  }

  lemma NoneTimely()
    ensures TimelyUntil([], 0)
  {
  }

  /**
   After any run of the pipeline: totals count every check of the proxy since it was last forgotten, and account for its
   outages since then; the log holds its changes of state; incidents keep both limits and each is one of these outages.
   */
  lemma PipelineStatistics(inputs: seq<Input>, targets: seq<Target>, logSize: nat, id: string)
    requires logSize > 0 && WellFormed(inputs, targets) && Chronological(inputs)
    requires forall i | 0 <= i < |inputs| :: inputs[i].env.logSize == logSize && inputs[i].env.now > 0
    ensures var l, calls := RunBot(EMPTY, inputs).ledger, CallsOf(inputs);
            && CounterOf(l, id, false) == |ChecksOf(calls, id, false)|
            && CounterOf(l, id, true) == |ChecksOf(calls, id, true)|
            && Labelled(l, id, LastName(calls, id), LastCheck(calls, id))
            && Accounts(l, id, Outages(calls, id))
            && LogOf(l, id) == Recorded(StatesIn(calls, id), logSize)
            && |l.incidents| <= 100 && |View(l.incidents, id)| <= 15
            && forall x | x in l.incidents :: Witnessed(x, calls) && EndWitnessed(x, calls)
  {
    hide Run, CallsOf, RunBot, ChecksOf, Accounts, Recorded, StatesIn, View, Witnessed, EndWitnessed, CounterOf,
      Labelled;
    var calls := CallsOf(inputs);
    LedgerOfRun(inputs, targets, logSize);
    CallsTimely(inputs);
    RunCounts(calls, logSize, id, false);
    RunCounts(calls, logSize, id, true);
    RunLabels(calls, logSize, id);
    RunAccounts(calls, logSize, id);
    RunLogs(calls, logSize, id);
    RunSizes(calls, logSize);
    forall x | x in Run(calls, logSize).incidents ensures Witnessed(x, calls) && EndWitnessed(x, calls) {
      RunIncidents(calls, logSize, x);
    }
  }
}
