/**
 Runs of the whole system with every kind of reader: exactly when alerts stay with proxies that are down, and a run
 from the start in which another reader spoils it.
 */
module GraceProofs {
  import opened Text
  import opened Metrics
  import opened Registry
  import Rolling
  import Ledger
  import opened Alerts
  import opened AlertProofs
  import opened AlertPipeline

  // ---------------------------------------------------------------- exactly when

  /** The next feed would show this proxy, enabled or disabled. */
  ghost predicate Shown(nodes: map<string, Node>, local: Snapshot, id: string) {
    HasId(local, id) || exists n :: n in nodes && OwnedBy(id, n) && StillShows(nodes[n], id)
  }

  ghost predicate AlertsShown(s: System, local: Snapshot) {
    forall k | k in s.bot.alerts :: Shown(s.nodes, local, s.bot.alerts[k].id)
  }

  lemma MergedShowsIff(nodes: map<string, Node>, local: Snapshot, id: string)
    requires NodesValid(nodes) && LocalSnapshot(local)
    ensures HasId(Merged(nodes, local), id) <==> Shown(nodes, local, id)
  {
    hide Contribution, OwnedBy, StillShows, UniqueIds, NodesValid;
    var merged, names := Merged(nodes, local), SortedList(nodes.Keys);
    PartsOwned(nodes, names, |names|);
    if HasId(merged, id) {
      var j :| 0 <= j < |merged| && merged[j].id == id;
      var m := merged[j];
      assert m in merged;
      if m in local {
        HasIdBy(local, m, id);
      } else {
        assert FromOneOf(m, nodes, names, |names|);
        var k :| 0 <= k < |names| && names[k] in nodes && OwnedBy(m.id, names[k]) && m in Contribution(nodes[names[k]]);
        ContributionShows(nodes[names[k]], m);
      }
    }
    if HasId(local, id) {
      var j :| 0 <= j < |local| && local[j].id == id;
      HasIdBy(merged, merged[j], id);
    }
    if n :| n in nodes && OwnedBy(id, n) && StillShows(nodes[n], id) { ShownIsMerged(nodes, local, n, id); }
  }

  lemma ContributionShows(n: Node, m: Metric)
    requires m in Contribution(n)
    ensures StillShows(n, m.id)
  {
    var k :| 0 <= k < |Contribution(n)| && Contribution(n)[k] == m;
    assert n.snapshot[k].id == m.id;
  }

  /** A feed leaves only alerts of proxies last seen down if and only if it shows every proxy with an open alert. */
  lemma FeedSoundIff(s: System, a: Action, staleCap: int, targets: seq<Target>)
    requires a.Feed? && NodesValid(s.nodes) && Sound(s.bot, targets) && WellFormed(a, targets)
    ensures Sound(Act(s, a, staleCap).bot, targets) <==> AlertsShown(s, a.local)
  {
    hide Process, Merged, Shown, Sound, UniqueIds, NodesValid, HasId;
    var merged := Merged(s.nodes, a.local);
    MergedUnique(s.nodes, a.local);
    forall k | k in s.bot.alerts ensures HasId(merged, s.bot.alerts[k].id)
        <==> Shown(s.nodes, a.local, s.bot.alerts[k].id) {
      MergedShowsIff(s.nodes, a.local, s.bot.alerts[k].id);
    }
    ProcessKeepsSound(s.bot, merged, a.env);
    UnseededTracksNothing(s.bot, targets);
  }

  lemma UnseededTracksNothing(bot: BotState, targets: seq<Target>)
    requires Sound(bot, targets)
    ensures !bot.seeded ==> bot.alerts == map[]
  {
  }

  /** What every action of a real run satisfies: nodes and master name their proxies properly. */
  ghost predicate WellFormed(a: Action, targets: seq<Target>) {
    match a
    case Report(node, _, snapshot, _) => NodeSnapshot(node, snapshot)
    case Feed(local, env) => LocalSnapshot(local) && env.logSize > 0 && env.targets == targets
    case Sweep(_) => true
    case Read => true
  }

  lemma NodesStayValid(s: System, a: Action, staleCap: int, targets: seq<Target>)
    requires NodesValid(s.nodes) && WellFormed(a, targets)
    ensures NodesValid(Act(s, a, staleCap).nodes)
  {
    hide Process, Merged, OwnedBy, UniqueIds;
  }

  ghost predicate SoundThroughout(s: System, actions: seq<Action>, staleCap: int, targets: seq<Target>)
    requires forall i | 0 <= i < |actions| :: WellFormed(actions[i], targets)
    decreases |actions|
  {
    assert actions != [] ==> WellFormed(actions[0], targets);
    Sound(s.bot, targets)
        && (actions != [] ==> SoundThroughout(Act(s, actions[0], staleCap), actions[1..], staleCap, targets))
  }

  ghost predicate FeedsShowAlerts(s: System, actions: seq<Action>, staleCap: int, targets: seq<Target>)
    requires forall i | 0 <= i < |actions| :: WellFormed(actions[i], targets)
    decreases |actions|
  {
    assert actions != [] ==> WellFormed(actions[0], targets);
    actions != [] ==>
      && (actions[0].Feed? ==> AlertsShown(s, actions[0].local))
      && FeedsShowAlerts(Act(s, actions[0], staleCap), actions[1..], staleCap, targets)
  }

  /**
   Whatever is reported, swept, fed and read: alerts stand only for proxies last seen down throughout the run, if and
   only if each feed comes while every proxy with an open alert is still shown, by the master or by its own node.
   */
  lemma {:induction false} SoundThroughoutIff(s: System, actions: seq<Action>, staleCap: int, targets: seq<Target>)
    requires NodesValid(s.nodes) && Sound(s.bot, targets)
    requires forall i | 0 <= i < |actions| :: WellFormed(actions[i], targets)
    ensures SoundThroughout(s, actions, staleCap, targets) <==> FeedsShowAlerts(s, actions, staleCap, targets)
    decreases |actions|
  {
    hide Sound, NodesValid, Process, Merged, Swept, AlertsShown;
    if actions != [] {
      assert WellFormed(actions[0], targets);
      var a, next := actions[0], Act(s, actions[0], staleCap);
      assert forall i | 0 <= i < |actions[1..]| :: actions[1..][i] == actions[i + 1];
      NodesStayValid(s, a, staleCap, targets);
      if a.Feed? { FeedSoundIff(s, a, staleCap, targets); }
      if Sound(next.bot, targets) {
        SoundThroughoutIff(next, actions[1..], staleCap, targets);
      } else {
        UnsoundNow(next, actions[1..], staleCap, targets);
      }
    } else {
      NoActions(s, actions, staleCap, targets);
    }
  }

  lemma UnsoundNow(s: System, actions: seq<Action>, staleCap: int, targets: seq<Target>)
    requires !Sound(s.bot, targets) && forall i | 0 <= i < |actions| :: WellFormed(actions[i], targets)
    ensures !SoundThroughout(s, actions, staleCap, targets)
  {
  }

  lemma NoActions(s: System, actions: seq<Action>, staleCap: int, targets: seq<Target>)
    requires Sound(s.bot, targets) && actions == []
    ensures SoundThroughout(s, actions, staleCap, targets)
  {
  }

  // ---------------------------------------------------------------- a run that goes wrong

  lemma OneNode(nodes: map<string, Node>, n: string)
    requires nodes.Keys == {n}
    ensures Merged(nodes, []) == Contribution(nodes[n])
  {
    hide Contribution;
    var names := SortedList(nodes.Keys);
    assert n in names && forall x | x in names :: x == n;
    OnlyName(names, n);
    assert PartsUpTo(nodes, names, 1) == PartsUpTo(nodes, names, 0) + Contribution(nodes[n]);
    assert [] + Contribution(nodes[n]) == Contribution(nodes[n]);
  }

  lemma OnlyName(names: seq<string>, n: string)
    requires n in names && NoDuplicates(names) && forall x | x in names :: x == n
    ensures names == [n]
  {
    assert names[0] in names;
    TwoNames(names);
    forall i | 0 <= i < |names| ensures names[i] == n { assert names[i] in names; }
  }

  lemma TwoNames(names: seq<string>)
    requires NoDuplicates(names)
    ensures |names| < 2 || names[0] != names[1]
  {
  }

  /** The first snapshot shows one proxy, online. */
  lemma SeededOnline(m: Metric, env: Env)
    requires m.online && !m.disabled && env.logSize > 0
    ensures var st := Process(EMPTY, [m], env).st;
            && st.seeded && st.lastSeen == map[m.id := true] && st.alerts == map[]
                && Ledger.LogOf(st.ledger, m.id) == []
  {
    hide KeysOf;
    assert [m][0] == m;
    assert SeedUpTo(EMPTY, [m], 1, env) == SeedOne(SeedUpTo(EMPTY, [m], 0, env), m, env);
    assert Resolved(map[], env.targets, m.id) == map[];
  }

  /** A later one shows it offline, and a message goes out. */
  lemma OutageTracked(st: BotState, m: Metric, t: Target, env: Env)
    requires st.seeded && st.lastSeen == map[m.id := true] && st.alerts == map[] && Ledger.LogOf(st.ledger, m.id) == []
    requires !m.online && !m.disabled && env.logSize > 0 && env.nodeAlerts && !env.quiet
    requires env.targets == [t] && env.send(t, m.id) != 0
    ensures var key := AlertKey(t.chat, t.thread, m.id);
            var after := Process(st, [m], env).st;
            key in after.alerts && after.alerts[key].id == m.id
  {
    hide AlertKey, DropGone, DiffUpTo, SendAll;
    OneScanned(st, m, env);
    var w := DiffUpTo(st, [m], 1, env);
    OneKept(w.st, m);
    OneSent(DropGone(w.st, EnabledIds([m])), m, t, env);
  }

  lemma OneScanned(st: BotState, m: Metric, env: Env)
    requires st.seeded && st.lastSeen == map[m.id := true] && st.alerts == map[] && Ledger.LogOf(st.ledger, m.id) == []
    requires !m.online && !m.disabled && env.logSize > 0 && env.nodeAlerts && !env.quiet
    ensures var w := DiffUpTo(st, [m], 1, env);
            w.st.lastSeen == map[m.id := false] && w.st.alerts == map[] && w.outages == [m]
  {
    hide CheckedLedger, KeysOf, Flapping;
    assert DiffUpTo(st, [m], 1, env) == DiffOne(DiffUpTo(st, [m], 0, env), m, env) == DiffOne(Work(st, []), m, env);
    FirstOutageNoFlap(st, m, env);
    assert [] + [m] == [m];
  }

  lemma OneKept(st: BotState, m: Metric)
    requires st.lastSeen == map[m.id := false] && st.alerts == map[] && !m.disabled
    ensures var dropped := DropGone(st, EnabledIds([m]));
            dropped.lastSeen == map[m.id := false] && dropped.alerts == map[]
  {
    hide Ledger.Pruned;
    assert m in [m];
    assert m.id in EnabledIds([m]);
  }

  lemma OneSent(st: BotState, m: Metric, t: Target, env: Env)
    requires st.lastSeen == map[m.id := false] && st.alerts == map[]
    requires env.targets == [t] && env.send(t, m.id) != 0
    ensures var key := AlertKey(t.chat, t.thread, m.id);
            var after := SendAll(st, [m], 1, env);
            key in after.alerts && after.alerts[key].id == m.id
  {
    hide AlertKey;
    assert SendTo(st, m, 1, env) == SendOne(SendTo(st, m, 0, env), m, t, env) == SendOne(st, m, t, env);
    assert SendAll(st, [m], 1, env) == SendTo(SendAll(st, [m], 0, env), m, 1, env) == SendTo(st, m, 1, env);
  }

  lemma FirstOutageNoFlap(st: BotState, m: Metric, env: Env)
    requires Ledger.LogOf(st.ledger, m.id) == [] && env.logSize > 0 && m.id in st.lastSeen && st.lastSeen[m.id]
               && !m.online
    ensures !Flapping(CheckedLedger(st, m, env), m.id, env.now)
  {
    hide Ledger.AddIncident;
    var log := Ledger.LogOf(CheckedLedger(st, m, env), m.id);
    assert |log| <= 1;
    FewFlaps(log, 0, env.now);
  }

  lemma {:induction false} FewFlaps(evs: seq<Rolling.Event>, i: nat, now: int)
    requires i <= |evs|
    ensures Rolling.FlapsFrom(evs, i, now) <= |evs| - i
    decreases |evs| - i
  {
    if i < |evs| { FewFlaps(evs, i + 1, now); }
  }

  lemma FeedsStep(s: System, a: Action, rest: seq<Action>, targets: seq<Target>)
    requires WellFormed(a, targets) && forall i | 0 <= i < |rest| :: WellFormed(rest[i], targets)
    requires forall i | 0 <= i < |[a] + rest| :: WellFormed(([a] + rest)[i], targets)
    ensures FeedsShowAlerts(s, [a] + rest, 0, targets) ==>
              (a.Feed? ==> AlertsShown(s, a.local)) && FeedsShowAlerts(Act(s, a, 0), rest, 0, targets)
  {
    hide Act, AlertsShown, WellFormed;
    assert ([a] + rest)[0] == a && ([a] + rest)[1..] == rest;
  }

  /** The same with every step's state and the rest of the run in hand. */
  lemma FeedsTo(s: System, a: Action, next: System, rest: seq<Action>, targets: seq<Target>)
    requires WellFormed(a, targets) && Act(s, a, 0) == next
    requires forall i | 0 <= i < |rest| :: WellFormed(rest[i], targets)
    ensures forall i | 0 <= i < |[a] + rest| :: WellFormed(([a] + rest)[i], targets)
    ensures FeedsShowAlerts(s, [a] + rest, 0, targets) ==> FeedsShowAlerts(next, rest, 0, targets)
    ensures FeedsShowAlerts(s, [a] + rest, 0, targets) && a.Feed? ==> AlertsShown(s, a.local)
  {
    hide Act, AlertsShown, WellFormed;
    FeedsStep(s, a, rest, targets);
  }

  lemma Reports(node: Node, n: string, snapshot: Snapshot, bot: BotState)
    ensures Act(System(map[n := node], bot), Report(n, 60, snapshot, 0), 0)
              == System(map[n := Node(Up, 0, 60, snapshot, false)], bot)
  {
    assert Step(map[n := node], Reported(n, 60, snapshot, 0), 0) == map[n := Node(Up, 0, 60, snapshot, false)];
  }

  lemma Feeds(node: Node, n: string, bot: BotState, env: Env)
    requires node.status.Up? && env.logSize > 0
    ensures Act(System(map[n := node], bot), Feed([], env), 0)
              == System(map[n := node], Process(bot, node.snapshot, env).st)
  {
    hide Process, Merged;
    OneNode(map[n := node], n);
    assert MergedAway(map[n := node]) == map[n := node];
  }

  lemma Silences(node: Node, n: string, bot: BotState, at: int)
    requires node.status.Up? && node.lastReport == 0 && node.interval == 60 && !node.grace && at > 180 * NANO
    ensures Act(System(map[n := node], bot), Sweep(at), 0)
              == System(map[n := node.(status := Down, grace := true)], bot)
    ensures Act(System(map[n := node.(status := Down, grace := true)], bot), Read, 0)
              == System(map[n := node.(status := Down)], bot)
  {
    assert Swept(map[n := node], 0, at) == map[n := node.(status := Down, grace := true)];
    assert MergedAway(map[n := node.(status := Down, grace := true)]) == map[n := node.(status := Down)];
  }

  lemma NotShown(s: System, n: string, id: string, k: string)
    requires s.nodes.Keys == {n} && OwnedBy(id, n) && s.nodes[n].status.Down? && !s.nodes[n].grace
    requires k in s.bot.alerts && s.bot.alerts[k].id == id
    ensures !AlertsShown(s, [])
  {
    hide OwnedBy;
    assert !Shown(s.nodes, [], id);
  }

  /** What the last feed of the run below meets. */
  lemma GraceSpentSteps(n: string, up: Metric, t: Target, env: Env, at: int)
    requires OwnedBy(up.id, n) && up.online && !up.disabled && at > 180 * NANO
    requires env.logSize > 0 && env.nodeAlerts && !env.quiet && env.targets == [t] && env.send(t, up.id) != 0
    ensures var actions := GraceSpentActions(n, up, env, at);
            (forall i | 0 <= i < |actions| :: WellFormed(actions[i], [t]))
                && !FeedsShowAlerts(Initial({n}), actions, 0, [t])
  {
    hide Process, OwnedBy, AlertsShown, Act, AlertKey, FeedsShowAlerts;
    var down, feed := up.(online := false), Feed([], env);
    var node1, node2 := Node(Up, 0, 60, [up], false), Node(Up, 0, 60, [down], false);
    var gone := node2.(status := Down, grace := true);
    SeededOnline(up, env);
    var bot2 := Process(EMPTY, [up], env).st;
    OutageTracked(bot2, down, t, env);
    var bot4 := Process(bot2, [down], env).st;
    var last := System(map[n := node2.(status := Down)], bot4);
    assert Initial({n}) == System(map[n := UNSEEN], EMPTY);
    Reports(UNSEEN, n, [up], EMPTY);
    Feeds(node1, n, EMPTY, env);
    Reports(node1, n, [down], bot2);
    Feeds(node2, n, bot2, env);
    Silences(node2, n, bot4, at);
    FeedsTo(last, feed, Act(last, feed, 0), [], [t]);
    FeedsTo(System(map[n := gone], bot4), Read, last, [feed] + [], [t]);
    FeedsTo(System(map[n := node2], bot4), Sweep(at), System(map[n := gone], bot4), [Read] + ([feed] + []), [t]);
    FeedsTo(System(map[n := node2], bot2), feed, System(map[n := node2], bot4),
            [Sweep(at)] + ([Read] + ([feed] + [])), [t]);
    FeedsTo(System(map[n := node1], bot2), Report(n, 60, [down], 0), System(map[n := node2], bot2),
            [feed] + ([Sweep(at)] + ([Read] + ([feed] + []))), [t]);
    FeedsTo(System(map[n := node1], EMPTY), feed, System(map[n := node1], bot2),
            [Report(n, 60, [down], 0)] + ([feed] + ([Sweep(at)] + ([Read] + ([feed] + [])))), [t]);
    FeedsTo(Initial({n}), Report(n, 60, [up], 0), System(map[n := node1], EMPTY),
            [feed] + ([Report(n, 60, [down], 0)] + ([feed] + ([Sweep(at)] + ([Read] + ([feed] + []))))), [t]);
    NotShown(last, n, up.id, AlertKey(t.chat, t.thread, up.id));
  }

  /** A node reports a proxy up, then down, and goes silent; the sweep takes the node down; something else reads. */
  function GraceSpentActions(n: string, up: Metric, env: Env, at: int): seq<Action> {
    [Report(n, 60, [up], 0)] + ([Feed([], env)] + ([Report(n, 60, [up.(online := false)], 0)] + ([Feed([], env)]
      + ([Sweep(at)] + ([Read] + ([Feed([], env)] + []))))))
  }

  /** From the start such a run leaves the alert of the silent node's proxy standing. */
  lemma GraceSpentRun(n: string, up: Metric, t: Target, env: Env, at: int)
    requires OwnedBy(up.id, n) && up.online && !up.disabled && at > 180 * NANO
    requires env.logSize > 0 && env.nodeAlerts && !env.quiet && env.targets == [t] && env.send(t, up.id) != 0
    ensures var actions := GraceSpentActions(n, up, env, at);
            (forall i | 0 <= i < |actions| :: WellFormed(actions[i], [t]))
                && !SoundThroughout(Initial({n}), actions, 0, [t])
  {
    hide OwnedBy, FeedsShowAlerts, SoundThroughout, GraceSpentActions, WellFormed, Sound;
    GraceSpentSteps(n, up, t, env, at);
    InitialInvariant({n}, [t]);
    SoundThroughoutIff(Initial({n}), GraceSpentActions(n, up, env, at), 0, [t]);
  }

  /**
   The grace snapshot works once: wherever another reader takes it between the sweep and the next feed, an open alert
   of the silent node's is left standing for a proxy the pipeline no longer knows.
   */
  lemma GraceSpentElsewhere(s: System, staleCap: int, at: int, local: Snapshot, env: Env, n: string, k: string)
    requires NodesValid(s.nodes) && Sound(s.bot, env.targets) && LocalSnapshot(local) && env.logSize > 0
    requires n in s.nodes && Overdue(s.nodes[n], staleCap, at)
    requires k in s.bot.alerts && OwnedBy(s.bot.alerts[k].id, n)
    ensures var spent := Act(Act(s, Sweep(at), staleCap), Read, staleCap);
            !Sound(Act(spent, Feed(local, env), staleCap).bot, env.targets)
  {
    hide Sound, OwnedBy, UniqueIds, HasId, Overdue, Process;
    var swept := Act(s, Sweep(at), staleCap);
    var spent := Act(swept, Read, staleCap);
    NodesStayValid(s, Sweep(at), staleCap, env.targets);
    NodesStayValid(swept, Read, staleCap, env.targets);
    SpentNode(s.nodes, staleCap, at, n);
    FeedSoundIff(spent, Feed(local, env), staleCap, env.targets);
    OnlyOwnerShows(spent.nodes, local, s.bot.alerts[k].id, n);
  }

  lemma SpentNode(nodes: map<string, Node>, staleCap: int, at: int, n: string)
    requires n in nodes && Overdue(nodes[n], staleCap, at)
    ensures var spent := MergedAway(Swept(nodes, staleCap, at)); n in spent && spent[n].status.Down? && !spent[n].grace
  {
  }

  lemma OnlyOwnerShows(nodes: map<string, Node>, local: Snapshot, id: string, n: string)
    requires LocalSnapshot(local) && OwnedBy(id, n) && n in nodes && nodes[n].status.Down? && !nodes[n].grace
    ensures !Shown(nodes, local, id)
  {
    hide OwnedBy, UniqueIds;
    OwnersDiffer(id, n, n);
    forall o | o in nodes && OwnedBy(id, o) ensures o == n { OwnersDiffer(id, n, o); }
    forall i | 0 <= i < |local| ensures local[i].id != id { assert local[i] in local; }
  }
}
