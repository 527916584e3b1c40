/**
 The registry and the alert pipeline together: reports and sweeps change the nodes, each feed hands the merged
 snapshot to ProcessSnapshot, and a read is any other consumer taking a merged snapshot. A node that goes silent
 leaves no alert standing behind it, unless a read used up its grace.
 */
module AlertPipeline {
  import opened Text
  import opened Metrics
  import opened Registry
  import opened Alerts
  import opened AlertProofs

  datatype System = System(nodes: map<string, Node>, bot: BotState)

  datatype Action =
    | Report(node: string, interval: int, snapshot: Snapshot, at: int)
    | Sweep(at: int)
    | Feed(local: Snapshot, env: Env)
    | Read

  function Act(s: System, a: Action, staleCap: int): System
    requires a.Feed? ==> a.env.logSize > 0
  {
    match a
    case Report(node, interval, snapshot, at) =>
        s.(nodes := Step(s.nodes, Reported(node, interval, snapshot, at), staleCap))
    case Sweep(at) => s.(nodes := Swept(s.nodes, staleCap, at))
    case Feed(local, env) => System(MergedAway(s.nodes), Process(s.bot, Merged(s.nodes, local), env).st)
    case Read => s.(nodes := MergedAway(s.nodes))
  }

  ghost predicate NodeSnapshot(name: string, snapshot: Snapshot) {
    UniqueIds(snapshot) && forall m | m in snapshot :: OwnedBy(m.id, name)
  }

  ghost predicate LocalSnapshot(local: Snapshot) {
    UniqueIds(local) && forall m | m in local :: '/' !in m.id
  }

  ghost predicate NodesValid(nodes: map<string, Node>) {
    forall n | n in nodes ::
      NodeSnapshot(n, nodes[n].snapshot) && (nodes[n].grace ==> nodes[n].status.Down?)
  }

  predicate LastSeenDown(bot: BotState, id: string) {
    id in bot.lastSeen && !bot.lastSeen[id]
  }

  /** The node will still show this proxy to the pipeline, enabled or disabled. */
  ghost predicate StillShows(n: Node, id: string) {
    HasId(n.snapshot, id) && (n.status.Up? || (n.status.Down? && n.grace))
  }

  ghost predicate Invariant(s: System, targets: seq<Target>) {
    && NodesValid(s.nodes) && Sound(s.bot, targets)
    && forall id | LastSeenDown(s.bot, id) ::
         '/' !in id || exists n :: n in s.nodes && OwnedBy(id, n) && StillShows(s.nodes[n], id)
  }

  /**
   Inputs are well formed, nobody drops a proxy that is down from what it reports, and no read spends the grace such a
   proxy needs.
   */
  ghost predicate Allowed(s: System, a: Action, targets: seq<Target>) {
    match a
    case Report(node, _, snapshot, _) =>
      NodeSnapshot(node, snapshot) && forall id | LastSeenDown(s.bot, id) && OwnedBy(id, node) :: HasId(snapshot, id)
    case Sweep(_) => true
    case Feed(local, env) =>
      && LocalSnapshot(local) && env.logSize > 0 && env.targets == targets
      && forall id | LastSeenDown(s.bot, id) && '/' !in id :: HasId(local, id)
    case Read =>
      forall n, id | n in s.nodes && s.nodes[n].status.Down? && s.nodes[n].grace && OwnedBy(id, n)
          && HasId(s.nodes[n].snapshot, id) ::
        !LastSeenDown(s.bot, id)
  }

  // ---------------------------------------------------------------- the merged snapshot

  lemma ContributionOwned(name: string, n: Node)
    requires NodeSnapshot(name, n.snapshot)
    ensures UniqueIds(Contribution(n)) && forall m | m in Contribution(n) :: OwnedBy(m.id, name)
    ensures forall m | m in Contribution(n) && !m.disabled :: n.status.Up? && m in n.snapshot
  {
    forall m | m in Contribution(n) ensures OwnedBy(m.id, name) {
      var k :| 0 <= k < |n.snapshot| && m.id == n.snapshot[k].id;
      assert n.snapshot[k] in n.snapshot;
    }
  }

  ghost predicate FromOneOf(m: Metric, nodes: map<string, Node>, names: seq<string>, i: nat) {
    exists k | 0 <= k < i && k < |names| ::
        names[k] in nodes && OwnedBy(m.id, names[k]) && m in Contribution(nodes[names[k]])
  }

  lemma {:induction false} PartsOwned(nodes: map<string, Node>, names: seq<string>, i: nat)
    requires i <= |names| && forall k | 0 <= k < |names| :: names[k] in nodes
    requires NodesValid(nodes)
    ensures forall m | m in PartsUpTo(nodes, names, i) :: FromOneOf(m, nodes, names, i)
  {
    hide Contribution, OwnedBy;
    if i > 0 {
      PartsOwned(nodes, names, i - 1);
      ContributionOwned(names[i - 1], nodes[names[i - 1]]);
      forall m | m in PartsUpTo(nodes, names, i) ensures FromOneOf(m, nodes, names, i) {
        if m !in Contribution(nodes[names[i - 1]]) { assert FromOneOf(m, nodes, names, i - 1); }
      }
    }
  }

  lemma {:induction false} PartsUnique(nodes: map<string, Node>, names: seq<string>, i: nat)
    requires i <= |names| && NoDuplicates(names) && forall k | 0 <= k < |names| :: names[k] in nodes
    requires NodesValid(nodes)
    ensures UniqueIds(PartsUpTo(nodes, names, i))
  {
    hide Contribution, OwnedBy;
    if i > 0 {
      PartsUnique(nodes, names, i - 1);
      PartsOwned(nodes, names, i - 1);
      var a, b := PartsUpTo(nodes, names, i - 1), Contribution(nodes[names[i - 1]]);
      ContributionOwned(names[i - 1], nodes[names[i - 1]]);
      forall x, y | 0 <= x < |a| && 0 <= y < |b| ensures a[x].id != b[y].id {
        assert a[x] in a && b[y] in b;
        assert FromOneOf(a[x], nodes, names, i - 1);
        var k :| 0 <= k < i - 1 && OwnedBy(a[x].id, names[k]);
        OwnersDiffer(a[x].id, names[k], names[i - 1]);
      }
      UniqueConcat(a, b);
    }
  }

  lemma UniqueConcat(a: Snapshot, b: Snapshot)
    requires UniqueIds(a) && UniqueIds(b)
    requires forall x, y | 0 <= x < |a| && 0 <= y < |b| :: a[x].id != b[y].id
    ensures UniqueIds(a + b)
  {
  }

  lemma MergedUnique(nodes: map<string, Node>, local: Snapshot)
    requires NodesValid(nodes) && LocalSnapshot(local)
    ensures UniqueIds(Merged(nodes, local))
  {
    var names := SortedList(nodes.Keys);
    PartsUnique(nodes, names, |names|);
    PartsOwned(nodes, names, |names|);
    var parts := PartsUpTo(nodes, names, |names|);
    forall x, y | 0 <= x < |local| && 0 <= y < |parts| ensures local[x].id != parts[y].id {
      assert parts[y] in parts && local[x] in local;
      assert FromOneOf(parts[y], nodes, names, |names|);
      var k :| 0 <= k < |names| && OwnedBy(parts[y].id, names[k]);
      OwnersDiffer(parts[y].id, names[k], names[k]);
    }
    UniqueConcat(local, parts);
  }

  lemma {:induction false} PartsContain(nodes: map<string, Node>, names: seq<string>, i: nat, k: nat)
    requires k < i <= |names| && forall k | 0 <= k < |names| :: names[k] in nodes
    ensures forall m | m in Contribution(nodes[names[k]]) :: m in PartsUpTo(nodes, names, i)
  {
    if k < i - 1 { PartsContain(nodes, names, i - 1, k); }
  }

  lemma HasIdBy(s: Snapshot, m: Metric, id: string)
    requires m in s && m.id == id
    ensures HasId(s, id)
  {
  }

  /** What a node still shows is in the merged snapshot. */
  lemma ShownIsMerged(nodes: map<string, Node>, local: Snapshot, n: string, id: string)
    requires n in nodes && StillShows(nodes[n], id)
    ensures HasId(Merged(nodes, local), id)
  {
    var names := SortedList(nodes.Keys);
    assert n in names;
    var k :| 0 <= k < |names| && names[k] == n;
    PartsContain(nodes, names, |names|, k);
    var j :| 0 <= j < |nodes[n].snapshot| && nodes[n].snapshot[j].id == id;
    var c := Contribution(nodes[n]);
    assert c[j].id == id && c[j] in c;
    HasIdBy(Merged(nodes, local), c[j], id);
  }

  // ---------------------------------------------------------------- the steps

  lemma FeedKeeps(s: System, a: Action, staleCap: int, targets: seq<Target>)
    requires a.Feed? && Invariant(s, targets) && Allowed(s, a, targets)
    ensures Invariant(Act(s, a, staleCap), targets)
    ensures LastSeenIs(Act(s, a, staleCap).bot, Merged(s.nodes, a.local))
  {
    hide Process;
    var merged := Merged(s.nodes, a.local);
    MergedUnique(s.nodes, a.local);
    forall k | k in s.bot.alerts ensures HasId(merged, s.bot.alerts[k].id) {
      var id := s.bot.alerts[k].id;
      assert LastSeenDown(s.bot, id);
      if '/' !in id {
        var j :| 0 <= j < |a.local| && a.local[j].id == id;
        HasIdBy(merged, merged[j], id);
      } else {
        var n :| n in s.nodes && OwnedBy(id, n) && StillShows(s.nodes[n], id);
        ShownIsMerged(s.nodes, a.local, n, id);
      }
    }
    ProcessKeepsSound(s.bot, merged, a.env);
    var after := Act(s, a, staleCap);
    forall id | LastSeenDown(after.bot, id) && '/' in id
      ensures exists n :: n in after.nodes && OwnedBy(id, n) && StillShows(after.nodes[n], id)
    {
      SeenDownComesFromUpNode(s.nodes, a.local, after.bot, id);
    }
  }

  lemma SeenDownComesFromUpNode(nodes: map<string, Node>, local: Snapshot, bot: BotState, id: string)
    requires NodesValid(nodes) && LocalSnapshot(local) && LastSeenIs(bot, Merged(nodes, local))
    requires LastSeenDown(bot, id) && '/' in id
    ensures exists n :: n in MergedAway(nodes) && OwnedBy(id, n) && StillShows(MergedAway(nodes)[n], id)
  {
    hide Contribution, OwnedBy, Merged, MergedAway, UniqueIds, NodesValid, HasId;
    var m := SeenEnabled(bot, Merged(nodes, local), id);
    var n := FromUpNode(nodes, local, m);
    UpNodeKept(nodes, n, id);
  }

  lemma SeenEnabled(bot: BotState, snapshot: Snapshot, id: string) returns (m: Metric)
    requires LastSeenIs(bot, snapshot) && id in bot.lastSeen
    ensures m in snapshot && !m.disabled && m.id == id
  {
    assert id in EnabledIds(snapshot);
    m :| m in snapshot && !m.disabled && m.id == id;
  }

  /** An enabled remote metric of the merged snapshot comes from a node that is up. */
  lemma FromUpNode(nodes: map<string, Node>, local: Snapshot, m: Metric) returns (n: string)
    requires NodesValid(nodes) && LocalSnapshot(local) && m in Merged(nodes, local) && !m.disabled && '/' in m.id
    ensures n in nodes && OwnedBy(m.id, n) && nodes[n].status.Up? && HasId(nodes[n].snapshot, m.id)
  {
    hide Contribution, OwnedBy, UniqueIds;
    var names := SortedList(nodes.Keys);
    PartsOwned(nodes, names, |names|);
    assert FromOneOf(m, nodes, names, |names|);
    var k :| 0 <= k < |names| && names[k] in nodes && OwnedBy(m.id, names[k]) && m in Contribution(nodes[names[k]]);
    n := names[k];
    ContributionOwned(n, nodes[n]);
    HasIdBy(nodes[n].snapshot, m, m.id);
  }

  lemma UpNodeKept(nodes: map<string, Node>, n: string, id: string)
    requires n in nodes && nodes[n].status.Up? && HasId(nodes[n].snapshot, id)
    ensures n in MergedAway(nodes) && StillShows(MergedAway(nodes)[n], id)
  {
    hide HasId;
  }

  lemma ReportKeeps(s: System, a: Action, staleCap: int, targets: seq<Target>)
    requires a.Report? && Invariant(s, targets) && Allowed(s, a, targets)
    ensures Invariant(Act(s, a, staleCap), targets)
  {
    var after := Act(s, a, staleCap);
    forall id | LastSeenDown(after.bot, id) && '/' in id
      ensures exists n :: n in after.nodes && OwnedBy(id, n) && StillShows(after.nodes[n], id)
    {
      var n :| n in s.nodes && OwnedBy(id, n) && StillShows(s.nodes[n], id);
      assert StillShows(after.nodes[n], id);
    }
  }

  lemma SweepKeeps(s: System, a: Action, staleCap: int, targets: seq<Target>)
    requires a.Sweep? && Invariant(s, targets)
    ensures Invariant(Act(s, a, staleCap), targets)
  {
    var after := Act(s, a, staleCap);
    forall id | LastSeenDown(after.bot, id) && '/' in id
      ensures exists n :: n in after.nodes && OwnedBy(id, n) && StillShows(after.nodes[n], id)
    {
      var n :| n in s.nodes && OwnedBy(id, n) && StillShows(s.nodes[n], id);
      assert StillShows(after.nodes[n], id);
    }
  }

  lemma ReadKeeps(s: System, a: Action, staleCap: int, targets: seq<Target>)
    requires a.Read? && Invariant(s, targets) && Allowed(s, a, targets)
    ensures Invariant(Act(s, a, staleCap), targets)
  {
    hide OwnedBy, UniqueIds, HasId, Sound;
    var after := Act(s, a, staleCap);
    forall id | LastSeenDown(after.bot, id) && '/' in id
      ensures exists n :: n in after.nodes && OwnedBy(id, n) && StillShows(after.nodes[n], id)
    {
      var n :| n in s.nodes && OwnedBy(id, n) && StillShows(s.nodes[n], id);
      assert s.nodes[n].status.Up?;
      assert StillShows(after.nodes[n], id);
    }
  }

  // ---------------------------------------------------------------- whole runs

  /** A run is allowed when each of its actions is, in the state it meets. */
  ghost predicate AllowedRun(s: System, actions: seq<Action>, staleCap: int, targets: seq<Target>)
    decreases |actions|
  {
    actions != [] ==>
      Allowed(s, actions[0], targets) && AllowedRun(Act(s, actions[0], staleCap), actions[1..], staleCap, targets)
  }

  ghost function RunSystem(s: System, actions: seq<Action>, staleCap: int, targets: seq<Target>): System
    requires AllowedRun(s, actions, staleCap, targets)
    decreases |actions|
  {
    if actions == [] then s else RunSystem(Act(s, actions[0], staleCap), actions[1..], staleCap, targets)
  }

  /**
   Reports, sweeps and feeds in any order: after all of them every open alert, local or remote, is for a
   proxy last seen down. In particular the one grace snapshot of a silent node clears all its alerts.
   */
  lemma {:induction false} AlertsSoundAcrossNodes(s: System, actions: seq<Action>, staleCap: int, targets: seq<Target>)
    requires Invariant(s, targets) && AllowedRun(s, actions, staleCap, targets)
    ensures Invariant(RunSystem(s, actions, staleCap, targets), targets)
    decreases |actions|
  {
    if actions != [] {
      match actions[0] {
        case Report(_, _, _, _) => ReportKeeps(s, actions[0], staleCap, targets);
        case Sweep(_) => SweepKeeps(s, actions[0], staleCap, targets);
        case Feed(_, _) => FeedKeeps(s, actions[0], staleCap, targets);
        case Read => ReadKeeps(s, actions[0], staleCap, targets);
      }
      AlertsSoundAcrossNodes(Act(s, actions[0], staleCap), actions[1..], staleCap, targets);
    }
  }

  function Initial(names: set<string>): System {
    System(map n | n in names :: UNSEEN, EMPTY)
  }

  lemma InitialInvariant(names: set<string>, targets: seq<Target>)
    ensures Invariant(Initial(names), targets)
  {
  }

  /** In particular from a fresh registry and an empty tracker. */
  lemma AlertsSoundFromStart(names: set<string>, actions: seq<Action>, staleCap: int, targets: seq<Target>)
    requires AllowedRun(Initial(names), actions, staleCap, targets)
    ensures Sound(RunSystem(Initial(names), actions, staleCap, targets).bot, targets)
  {
    hide Act, Sound;
    InitialInvariant(names, targets);
    AlertsSoundAcrossNodes(Initial(names), actions, staleCap, targets);
  }
}
