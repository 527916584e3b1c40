/**
 The master's node registry: pending, up and down nodes, the staleness sweep and the one-shot grace
 snapshot of a node that went silent. Times are nanoseconds, report intervals whole seconds.
 */
module Registry {
  import opened Text
  import opened Metrics

  const NANO: int := 1_000_000_000

  datatype Status = Pending | Up | Down

  datatype Node = Node(status: Status, lastReport: int, interval: int, snapshot: Snapshot, grace: bool)

  const UNSEEN := Node(Pending, 0, 0, [], false)

  // ---------------------------------------------------------------- one node

  function AfterReport(n: Node, interval: int, snapshot: Snapshot, now: int): Node {
    Node(Up, now, if interval <= 0 then 300 else interval, snapshot, false)
  }

  /** How long a node may be silent: twice its interval, capped if a cap is set, plus a minute. */
  function Deadline(interval: int, staleCap: int): int {
    var capped := if staleCap > 0 && interval > staleCap / NANO then staleCap / NANO else interval;
    2 * capped * NANO + 60 * NANO
  }

  predicate Overdue(n: Node, staleCap: int, now: int) {
    n.status.Up? && now - n.lastReport > Deadline(n.interval, staleCap)
  }

  function AfterSweep(n: Node, staleCap: int, now: int): Node {
    if Overdue(n, staleCap, now) then n.(status := Down, grace := true) else n
  }

  function Contribution(n: Node): Snapshot {
    match n.status
    case Pending => []
    case Up => n.snapshot
    case Down => if n.grace then Disable(n.snapshot) else []
  }

  function AfterMerge(n: Node): Node {
    if n.status.Down? then n.(grace := false) else n
  }

  // ---------------------------------------------------------------- all nodes

  /** The parts of the first i names, in order. */
  function PartsUpTo(nodes: map<string, Node>, names: seq<string>, i: nat): Snapshot
    requires i <= |names| && forall k | 0 <= k < |names| :: names[k] in nodes
  {
    if i == 0 then [] else PartsUpTo(nodes, names, i - 1) + Contribution(nodes[names[i - 1]])
  }

  function Merged(nodes: map<string, Node>, local: Snapshot): Snapshot {
    var names := SortedList(nodes.Keys);
    local + PartsUpTo(nodes, names, |names|)
  }

  function Swept(nodes: map<string, Node>, staleCap: int, now: int): map<string, Node> {
    map n | n in nodes :: AfterSweep(nodes[n], staleCap, now)
  }

  function MergedAway(nodes: map<string, Node>): map<string, Node> {
    map n | n in nodes :: AfterMerge(nodes[n])
  }

  lemma AppendPart(a: Snapshot, b: Snapshot, c: Snapshot)
    ensures (a + b) + c == a + (b + c)
  {
  }

  /** The nodes once the first i names have had their turn. */
  function ClearedUpTo(nodes: map<string, Node>, names: seq<string>, i: nat): (r: map<string, Node>)
    requires i <= |names| && forall k | 0 <= k < |names| :: names[k] in nodes
    ensures r.Keys == nodes.Keys
  {
    if i == 0 then nodes else ClearedUpTo(nodes, names, i - 1)[names[i - 1] := AfterMerge(nodes[names[i - 1]])]
  }

  lemma {:induction false} ClearedPointwise(nodes: map<string, Node>, names: seq<string>, i: nat, n: string)
    requires i <= |names| && n in nodes && forall k | 0 <= k < |names| :: names[k] in nodes
    ensures ClearedUpTo(nodes, names, i)[n] == if n in names[..i] then AfterMerge(nodes[n]) else nodes[n]
  {
    if i > 0 {
      ClearedPointwise(nodes, names, i - 1, n);
      assert names[..i] == names[..i - 1] + [names[i - 1]];
    }
  }

  lemma ClearedAt(nodes: map<string, Node>, names: seq<string>, i: nat)
    requires i < |names| && NoDuplicates(names) && forall k | 0 <= k < |names| :: names[k] in nodes
    ensures ClearedUpTo(nodes, names, i)[names[i]] == nodes[names[i]]
  {
    ClearedPointwise(nodes, names, i, names[i]);
  }

  lemma ClearedAll(nodes: map<string, Node>, names: seq<string>)
    requires forall n :: n in names <==> n in nodes
    ensures ClearedUpTo(nodes, names, |names|) == MergedAway(nodes)
  {
    assert names[..|names|] == names;
    forall n | n in nodes ensures ClearedUpTo(nodes, names, |names|)[n] == AfterMerge(nodes[n]) {
      ClearedPointwise(nodes, names, |names|, n);
    }
  }

  datatype Health = Health(name: string, up: bool, everReported: bool, online: nat, total: nat)

  class Registry {
    var nodes: map<string, Node>
    var staleCap: int

    constructor (names: set<string>)
      ensures nodes == map n | n in names :: UNSEEN
      ensures staleCap == 0
    {
      nodes := map n | n in names :: UNSEEN;
      staleCap := 0;
    }

    /** The state update of an accepted report. */
    method Report(name: string, interval: int, snapshot: Snapshot, now: int)
      requires name in nodes
      modifies this`nodes
      ensures nodes == old(nodes)[name := AfterReport(old(nodes)[name], interval, snapshot, now)]
    {
      var seconds := interval;
      if seconds <= 0 { seconds := 300; }
      nodes := nodes[name := Node(Up, now, seconds, snapshot, false)];
    }

    method SweepStale(now: int) returns (transitioned: seq<string>)
      modifies this`nodes
      ensures nodes == Swept(old(nodes), staleCap, now)
      ensures transitioned == SortedList(set n | n in old(nodes) && Overdue(old(nodes)[n], staleCap, now))
      ensures Ascending(transitioned) && NoDuplicates(transitioned)
      ensures forall n :: n in transitioned <==>
                n in nodes && old(nodes)[n].status.Up? && nodes[n].status.Down?
    {
      hide AfterSweep, Overdue, Leq, Ascending, OverdueIn, Swept, SweptAmong;
      ghost var before, done := nodes, {};
      var todo, gone := nodes.Keys, {};
      NoneSwept(before, staleCap, now);
      while todo != {}
        invariant todo == before.Keys - done && done <= before.Keys
        invariant nodes == SweptAmong(before, done, staleCap, now) && gone == OverdueIn(before, done, staleCap, now)
        decreases |todo|
      {
        var name :| name in todo;
        OneMoreSwept(before, done, name, staleCap, now);
        todo, done := todo - {name}, done + {name};
        var down := SweepNode(name, now);
        if down { gone := gone + {name}; }
      }
      assert done == before.Keys;
      AllSwept(before, staleCap, now);
      transitioned := SortedList(gone);
      SortedListAscends(gone);
      SweptAway(before, staleCap, now);
    }

    /** One node's turn in SweepStale. */
    method SweepNode(name: string, now: int) returns (down: bool)
      requires name in nodes
      modifies this`nodes
      ensures down == Overdue(old(nodes)[name], staleCap, now)
      ensures nodes == old(nodes)[name := AfterSweep(old(nodes)[name], staleCap, now)]
    {
      var st := nodes[name];
      if st.status != Up { return false; }
      var interval := st.interval;
      if staleCap > 0 {
        var capSec := staleCap / NANO;
        if interval > capSec { interval := capSec; }
      }
      down := now - st.lastReport > 2 * interval * NANO + 60 * NANO;
      if down {
        nodes := nodes[name := st.(status := Down, grace := true)];
      }
    }

    /** One node's turn in MergedSnapshot: its part of the output, clearing the grace mark it used. */
    method TakePart(name: string) returns (part: Snapshot)
      requires name in nodes
      modifies this`nodes
      ensures part == Contribution(old(nodes)[name])
      ensures nodes == old(nodes)[name := AfterMerge(old(nodes)[name])]
    {
      var st := nodes[name];
      part := [];
      match st.status {
        case Pending =>
        case Up => part := st.snapshot;
        case Down =>
          if st.grace {
            part := DisabledCopy(st.snapshot);
            nodes := nodes[name := st.(grace := false)];
          }
      }
    }

    method MergedSnapshot(local: Snapshot) returns (out: Snapshot)
      modifies this`nodes
      ensures out == Merged(old(nodes), local)
      ensures nodes == MergedAway(old(nodes))
      ensures Ascending(SortedList(nodes.Keys)) && nodes.Keys == old(nodes).Keys
    {
      hide Contribution, AfterMerge, Leq, Ascending;
      SortedListAscends(nodes.Keys);
      var names := SortedList(nodes.Keys);
      out := local;
      assert local + PartsUpTo(nodes, names, 0) == local;
      for i := 0 to |names|
        invariant out == local + PartsUpTo(old(nodes), names, i)
        invariant nodes == ClearedUpTo(old(nodes), names, i)
      {
        ClearedAt(old(nodes), names, i);
        var part := TakePart(names[i]);
        AppendPart(local, PartsUpTo(old(nodes), names, i), part);
        out := out + part;
      }
      ClearedAll(old(nodes), names);
    }

    static method DisabledCopy(s: Snapshot) returns (out: Snapshot)
      ensures out == Disable(s)
    {
      out := [];
      for k := 0 to |s|
        invariant out == Disable(s)[..k]
      {
        out := out + [s[k].(disabled := true)];
      }
    }

    method HealthSnapshot() returns (out: seq<Health>)
      ensures var names := SortedList(nodes.Keys);
              && |out| == |names| && Ascending(names)
              && forall i | 0 <= i < |names| :: Describes(out[i], names[i], nodes[names[i]])
    {
      hide Leq, Describes, Ascending;
      var names := SortedList(nodes.Keys);
      SortedListAscends(nodes.Keys);
      out := [];
      for i := 0 to |names|
        invariant |out| == i
        invariant forall k | 0 <= k < i :: Describes(out[k], names[k], nodes[names[k]])
      {
        var health := NodeHealth(names[i], nodes[names[i]]);
        out := out + [health];
      }
    }

    /** One node's line, its online metrics counted. */
    static method NodeHealth(name: string, st: Node) returns (h: Health)
      ensures Describes(h, name, st)
    {
      var online := 0;
      for k := 0 to |st.snapshot|
        invariant online == |OnlineBelow(st.snapshot, k)|
      {
        assert OnlineBelow(st.snapshot, k + 1)
            == OnlineBelow(st.snapshot, k) + if st.snapshot[k].online then {k} else {};
        if st.snapshot[k].online { online := online + 1; }
      }
      h := Health(name, st.status.Up?, st.lastReport != 0, online, |st.snapshot|);
    }
  }

  /** The positions below k of entries that are online. */
  function OnlineBelow(s: Snapshot, k: nat): set<int>
    requires k <= |s|
  {
    set i | 0 <= i < k && s[i].online
  }

  /** One line of the health view: up or not, whether it ever reported, how many entries, how many of them online. */
  ghost predicate Describes(h: Health, name: string, st: Node) {
    && h.name == name && (h.up <==> st.status == Up) && (h.everReported <==> st.lastReport != 0)
    && h.total == |st.snapshot| && h.online == |OnlineBelow(st.snapshot, |st.snapshot|)|
  }

  /** The overdue ones of some nodes. */
  function OverdueIn(nodes: map<string, Node>, among: set<string>, staleCap: int, now: int): set<string> {
    set n | n in nodes && n in among && Overdue(nodes[n], staleCap, now)
  }

  /** The nodes once some of them have had their turn. */
  function SweptAmong(nodes: map<string, Node>, done: set<string>, staleCap: int, now: int): map<string, Node> {
    map n | n in nodes :: if n in done then AfterSweep(nodes[n], staleCap, now) else nodes[n]
  }

  lemma NoneSwept(nodes: map<string, Node>, staleCap: int, now: int)
    ensures SweptAmong(nodes, {}, staleCap, now) == nodes && OverdueIn(nodes, {}, staleCap, now) == {}
  {
    hide AfterSweep, Overdue;
  }

  lemma OneMoreSwept(nodes: map<string, Node>, done: set<string>, n: string, staleCap: int, now: int)
    requires n in nodes && n !in done
    ensures var m := SweptAmong(nodes, done, staleCap, now);
            && n in m && m[n] == nodes[n]
            && SweptAmong(nodes, done + {n}, staleCap, now) == m[n := AfterSweep(nodes[n], staleCap, now)]
    ensures OverdueIn(nodes, done + {n}, staleCap, now)
         == OverdueIn(nodes, done, staleCap, now) + if Overdue(nodes[n], staleCap, now) then {n} else {}
  {
    hide AfterSweep, Overdue;
  }

  lemma AllSwept(nodes: map<string, Node>, staleCap: int, now: int)
    ensures SweptAmong(nodes, nodes.Keys, staleCap, now) == Swept(nodes, staleCap, now)
    ensures OverdueIn(nodes, nodes.Keys, staleCap, now) == set n | n in nodes && Overdue(nodes[n], staleCap, now)
  {
    hide AfterSweep, Overdue;
  }

  /** A sweep takes down exactly the nodes it finds overdue. */
  lemma SweptAway(nodes: map<string, Node>, staleCap: int, now: int)
    ensures Swept(nodes, staleCap, now).Keys == nodes.Keys
    ensures forall n | n in nodes ::
              Overdue(nodes[n], staleCap, now) <==>
                nodes[n].status.Up? && Swept(nodes, staleCap, now)[n].status.Down?
  {
  }

  // ---------------------------------------------------------------- runs, seen from one node

  datatype Event =
    | Reported(node: string, interval: int, snapshot: Snapshot, at: int)
    | SweptAt(at: int)
    | MergedAt(at: int)

  function Step(nodes: map<string, Node>, e: Event, staleCap: int): map<string, Node> {
    match e
    case Reported(name, interval, snapshot, at) =>
      if name in nodes then nodes[name := AfterReport(nodes[name], interval, snapshot, at)] else nodes
    case SweptAt(at) => Swept(nodes, staleCap, at)
    case MergedAt(_) => MergedAway(nodes)
  }

  /** What one event does to the node called name. */
  function NodeStep(n: Node, name: string, e: Event, staleCap: int): Node {
    match e
    case Reported(other, interval, snapshot, at) => if other == name then AfterReport(n, interval, snapshot, at) else n
    case SweptAt(at) => AfterSweep(n, staleCap, at)
    case MergedAt(_) => AfterMerge(n)
  }

  predicate IsReportOf(e: Event, name: string) {
    e.Reported? && e.node == name
  }

  ghost predicate NoReportOf(es: seq<Event>, name: string) {
    forall i | 0 <= i < |es| :: !IsReportOf(es[i], name)
  }

  ghost predicate EmptyFrom(parts: seq<Snapshot>, k: nat) {
    forall i | k <= i < |parts| :: parts[i] == []
  }

  /** The same entries in the same order, each disabled and otherwise as it was. */
  ghost predicate DisabledEach(out: Snapshot, s: Snapshot) {
    |out| == |s| && forall i | 0 <= i < |s| ::
      && out[i].disabled && out[i].id == s[i].id && out[i].name == s[i].name && out[i].node == s[i].node
      && out[i].online == s[i].online && out[i].reason == s[i].reason
  }

  /** The node's parts of the merged snapshots taken along a run. */
  function Emitted(nodes: map<string, Node>, name: string, es: seq<Event>, staleCap: int): seq<Snapshot>
    requires name in nodes
  {
    if es == [] then []
    else
      (if es[0].MergedAt? then [Contribution(nodes[name])] else [])
      + Emitted(Step(nodes, es[0], staleCap), name, es[1..], staleCap)
  }

  /** Nodes do not influence each other. */
  lemma StepIsLocal(nodes: map<string, Node>, name: string, e: Event, staleCap: int)
    requires name in nodes
    ensures name in Step(nodes, e, staleCap)
    ensures Step(nodes, e, staleCap)[name] == NodeStep(nodes[name], name, e, staleCap)
  {
  }

  /**
   After the last report of a node that is up, its merged parts are its snapshot as reported k times,
   then the snapshot with every entry disabled once, then nothing.
   */
  lemma {:induction false} SilentNode(nodes: map<string, Node>, name: string, es: seq<Event>, staleCap: int)
        returns (k: nat)
    requires name in nodes && nodes[name].status.Up?
    requires NoReportOf(es, name)
    ensures var out := Emitted(nodes, name, es, staleCap);
            && k <= |out|
            && (forall i | 0 <= i < k :: out[i] == nodes[name].snapshot)
            && (k < |out| ==> DisabledEach(out[k], nodes[name].snapshot))
            && EmptyFrom(out, k + 1)
  {
    if es == [] {
      k := 0;
    } else {
      StepIsLocal(nodes, name, es[0], staleCap);
      var nodes' := Step(nodes, es[0], staleCap);
      var later := Emitted(nodes', name, es[1..], staleCap);
      assert Emitted(nodes, name, es, staleCap)
          == (if es[0].MergedAt? then [Contribution(nodes[name])] else []) + later;
      if nodes'[name].status.Up? {
        var rest := SilentNode(nodes', name, es[1..], staleCap);
        k := if es[0].MergedAt? then rest + 1 else rest;
      } else {
        DownNode(nodes', name, es[1..], staleCap);
        k := 0;
      }
    }
  }

  lemma {:induction false} DownNode(nodes: map<string, Node>, name: string, es: seq<Event>, staleCap: int)
    requires name in nodes && nodes[name].status.Down?
    requires NoReportOf(es, name)
    ensures var out := Emitted(nodes, name, es, staleCap);
            && (out != [] && nodes[name].grace ==> DisabledEach(out[0], nodes[name].snapshot))
            && EmptyFrom(out, 1) && (!nodes[name].grace ==> EmptyFrom(out, 0))
  {
    if es != [] {
      StepIsLocal(nodes, name, es[0], staleCap);
      var nodes' := Step(nodes, es[0], staleCap);
      DownNode(nodes', name, es[1..], staleCap);
      var out, later := Emitted(nodes, name, es, staleCap), Emitted(nodes', name, es[1..], staleCap);
      if es[0].MergedAt? {
        assert !nodes'[name].grace;
        assert out == [Contribution(nodes[name])] + later;
      } else {
        assert nodes'[name] == nodes[name];
        assert out == later;
      }
    }
  }

  /** A node that never reported stays pending and contributes nothing. */
  lemma {:induction false} PendingNode(nodes: map<string, Node>, name: string, es: seq<Event>, staleCap: int)
    requires name in nodes && nodes[name].status.Pending?
    requires NoReportOf(es, name)
    ensures name in RunOf(nodes, es, staleCap) && RunOf(nodes, es, staleCap)[name] == nodes[name]
    ensures forall s | s in Emitted(nodes, name, es, staleCap) :: s == []
  {
    if es != [] {
      StepIsLocal(nodes, name, es[0], staleCap);
      PendingNode(Step(nodes, es[0], staleCap), name, es[1..], staleCap);
    }
  }

  function RunOf(nodes: map<string, Node>, es: seq<Event>, staleCap: int): map<string, Node> {
    if es == [] then nodes else RunOf(Step(nodes, es[0], staleCap), es[1..], staleCap)
  }

  /** When the node reports next, or the end of the observation. */
  function NextReport(name: string, es: seq<Event>, end: int): int {
    if es == [] then end else if IsReportOf(es[0], name) then es[0].at else NextReport(name, es[1..], end)
  }

  /** Every report, and the end, comes within the deadline set by the report before it. */
  ghost predicate Punctual(name: string, lastReport: int, interval: int, es: seq<Event>, staleCap: int, end: int)
    decreases |es|
  {
    && NextReport(name, es, end) <= lastReport + (2 * Heeded(interval, staleCap) + 60) * 1_000_000_000
    && (es != [] ==>
          if IsReportOf(es[0], name)
          then Punctual(name, es[0].at, if es[0].interval <= 0 then 300 else es[0].interval, es[1..], staleCap, end)
          else Punctual(name, lastReport, interval, es[1..], staleCap, end))
  }

  ghost predicate InOrder(es: seq<Event>, end: int) {
    && (forall i, j | 0 <= i < j < |es| :: es[i].at <= es[j].at)
    && (forall i | 0 <= i < |es| :: es[i].at <= end)
  }

  lemma {:induction false} NextReportIsLater(name: string, es: seq<Event>, end: int)
    requires es != [] && InOrder(es, end)
    ensures es[0].at <= NextReport(name, es, end)
  {
    if !IsReportOf(es[0], name) && |es| > 1 { NextReportIsLater(name, es[1..], end); }
  }

  /** A punctual node is up after every prefix of the run: no sweep ever takes it down. */
  lemma {:induction false} PunctualNodeStaysUp(nodes: map<string, Node>, name: string, es: seq<Event>, n: nat,
        staleCap: int, end: int)
    requires name in nodes && nodes[name].status.Up? && InOrder(es, end) && n <= |es|
    requires Punctual(name, nodes[name].lastReport, nodes[name].interval, es, staleCap, end)
    ensures name in RunOf(nodes, es[..n], staleCap) && RunOf(nodes, es[..n], staleCap)[name].status.Up?
  {
    if n > 0 {
      StepIsLocal(nodes, name, es[0], staleCap);
      NextReportIsLater(name, es, end);
      PunctualNodeStaysUp(Step(nodes, es[0], staleCap), name, es[1..], n - 1, staleCap, end);
      assert es[..n][1..] == es[1..][..n - 1] && es[..n][0] == es[0];
    }
  }

  // ---------------------------------------------------------------- when a silent node goes down

  /** The interval that counts, in seconds: a positive cap of fewer whole seconds takes its place. */
  ghost function Heeded(interval: int, staleCap: int): (seconds: int)
    ensures staleCap <= 0 ==> seconds == interval
    ensures staleCap > 0 ==> seconds <= interval && seconds * 1_000_000_000 <= staleCap
    ensures seconds != interval ==> staleCap < (seconds + 1) * 1_000_000_000
  {
    if 0 < staleCap < interval * 1_000_000_000 then staleCap / 1_000_000_000 else interval
  }

  /** Once down, a silent node stays down. */
  lemma {:induction false} DownStays(nodes: map<string, Node>, name: string, es: seq<Event>, staleCap: int)
    requires name in nodes && nodes[name].status.Down? && NoReportOf(es, name)
    ensures name in RunOf(nodes, es, staleCap)
    ensures var n := RunOf(nodes, es, staleCap)[name];
            n.status.Down? && n.snapshot == nodes[name].snapshot && n.lastReport == nodes[name].lastReport
  {
    if es != [] {
      StepIsLocal(nodes, name, es[0], staleCap);
      DownStays(Step(nodes, es[0], staleCap), name, es[1..], staleCap);
    }
  }

  /** The last instant at which a sweep still lets the node be. */
  ghost function Expires(lastReport: int, interval: int, staleCap: int): int {
    lastReport + (2 * Heeded(interval, staleCap) + 60) * 1_000_000_000
  }

  ghost predicate NoSweepPast(es: seq<Event>, limit: int) {
    forall i | 0 <= i < |es| && es[i].SweptAt? :: es[i].at <= limit
  }

  /** A node that is up and silent from now on stays up until a sweep past its deadline, and is down from then on. */
  lemma {:induction false} SilentUpIff(nodes: map<string, Node>, name: string, es: seq<Event>, staleCap: int)
    requires name in nodes && nodes[name].status.Up? && NoReportOf(es, name)
    ensures name in RunOf(nodes, es, staleCap)
    ensures var n := RunOf(nodes, es, staleCap)[name];
            && n.snapshot == nodes[name].snapshot && n.lastReport == nodes[name].lastReport
            && n.status == (if NoSweepPast(es, Expires(nodes[name].lastReport, nodes[name].interval, staleCap))
                            then Up else Down)
  {
    if es != [] {
      StepIsLocal(nodes, name, es[0], staleCap);
      var next := Step(nodes, es[0], staleCap);
      assert forall i | 0 <= i < |es[1..]| :: es[1..][i] == es[i + 1];
      if next[name].status.Up? {
        SilentUpIff(next, name, es[1..], staleCap);
      } else {
        DownStays(next, name, es[1..], staleCap);
      }
    }
  }

  /**
   Whatever happens before and meanwhile: after a run in which the node last reported at position r, it is up if and
   only if no later sweep came past twice its interval and a minute - capped, and 300 s for one that is not positive -
   and otherwise it is down, with the snapshot of that report.
   */
  lemma {:induction false} UpIffHeardInTime(nodes: map<string, Node>, name: string, es: seq<Event>, r: nat,
        staleCap: int)
    requires name in nodes && r < |es| && IsReportOf(es[r], name) && NoReportOf(es[r + 1..], name)
    ensures name in RunOf(nodes, es, staleCap)
    ensures var n := RunOf(nodes, es, staleCap)[name];
            var interval := if es[r].interval <= 0 then 300 else es[r].interval;
            && n.snapshot == es[r].snapshot && n.lastReport == es[r].at
            && n.status == (if NoSweepPast(es[r + 1..], Expires(es[r].at, interval, staleCap)) then Up else Down)
  {
    StepIsLocal(nodes, name, es[0], staleCap);
    if r > 0 {
      assert es[1..][r - 1] == es[r] && es[1..][r..] == es[r + 1..];
      UpIffHeardInTime(Step(nodes, es[0], staleCap), name, es[1..], r - 1, staleCap);
    } else {
      SilentUpIff(Step(nodes, es[0], staleCap), name, es[1..], staleCap);
    }
  }

  // ---------------------------------------------------------------- what a merged snapshot holds

  /** A node's entry as the merged snapshot shows it: unchanged from a node that is up, disabled from one in grace. */
  ghost predicate ShownBy(n: Node, m: Metric) {
    || (n.status == Up && m in n.snapshot)
    || (n.status == Down && n.grace && m.disabled && exists e :: e in n.snapshot && m == e.(disabled := true))
  }

  lemma ContributionMembers(n: Node)
    ensures forall m :: m in Contribution(n) <==> ShownBy(n, m)
  {
    var c := Contribution(n);
    forall m | m in c ensures ShownBy(n, m) {
      var k :| 0 <= k < |c| && c[k] == m;
      assert n.snapshot[k] in n.snapshot;
    }
    forall m | ShownBy(n, m) ensures m in c {
      if !n.status.Up? {
        var e :| e in n.snapshot && m == e.(disabled := true);
        var k :| 0 <= k < |n.snapshot| && n.snapshot[k] == e;
        assert c[k] == m;
      }
    }
  }

  lemma {:induction false} PartsMembers(nodes: map<string, Node>, names: seq<string>, i: nat)
    requires i <= |names| && forall k | 0 <= k < |names| :: names[k] in nodes
    ensures forall m :: m in PartsUpTo(nodes, names, i) <==> exists k :: 0 <= k < i && ShownBy(nodes[names[k]], m)
  {
    hide Contribution, ShownBy;
    if i > 0 {
      PartsMembers(nodes, names, i - 1);
      ContributionMembers(nodes[names[i - 1]]);
    }
  }

  /** The merged snapshot: what the master lists, and what each node shows. */
  lemma MergedMembers(nodes: map<string, Node>, local: Snapshot, m: Metric)
    ensures m in Merged(nodes, local) <==> m in local || exists n :: n in nodes && ShownBy(nodes[n], m)
  {
    hide ShownBy, PartsUpTo;
    var names := SortedList(nodes.Keys);
    PartsMembers(nodes, names, |names|);
    if n :| n in nodes && ShownBy(nodes[n], m) {
      assert n in names;
    }
  }

  lemma {:induction false} PartsInOrder(nodes: map<string, Node>, names: seq<string>, i: nat, k: nat)
        returns (a: Snapshot, b: Snapshot)
    requires k < i <= |names| && forall k | 0 <= k < |names| :: names[k] in nodes
    ensures PartsUpTo(nodes, names, i) == a + (Contribution(nodes[names[k]]) + b)
    ensures a == PartsUpTo(nodes, names, k)
  {
    hide Contribution;
    if k == i - 1 {
      a, b := PartsUpTo(nodes, names, k), [];
      assert Contribution(nodes[names[k]]) + b == Contribution(nodes[names[k]]);
    } else {
      var rest;
      a, rest := PartsInOrder(nodes, names, i - 1, k);
      b := rest + Contribution(nodes[names[i - 1]]);
      AppendPart(Contribution(nodes[names[k]]), rest, Contribution(nodes[names[i - 1]]));
      AppendPart(a, Contribution(nodes[names[k]]) + rest, Contribution(nodes[names[i - 1]]));
    }
  }

  /** The master's own entries come first, then each node's, in ascending order of names and each in one piece. */
  lemma MergedInOrder(nodes: map<string, Node>, local: Snapshot, m: string, n: string)
        returns (a: Snapshot, b: Snapshot, c: Snapshot)
    requires m in nodes && n in nodes && m != n && Leq(m, n)
    ensures Merged(nodes, local) == (local + a) + (Contribution(nodes[m]) + (b + (Contribution(nodes[n]) + c)))
  {
    hide Contribution, PartsUpTo, Leq;
    var names := SortedList(nodes.Keys);
    SortedListAscends(nodes.Keys);
    assert m in names && n in names;
    var i :| 0 <= i < |names| && names[i] == m;
    var j :| 0 <= j < |names| && names[j] == n;
    if j < i { LeqAntisymmetric(m, n); }
    var before;
    before, c := PartsInOrder(nodes, names, |names|, j);
    a, b := PartsInOrder(nodes, names, j, i);
    var x, y := Contribution(nodes[m]), Contribution(nodes[n]) + c;
    AppendPart(a, x + b, y);
    AppendPart(x, b, y);
    AppendPart(local, a, x + (b + y));
  }
}
