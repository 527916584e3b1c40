/**
 Whole runs of the statistics store. The reference is one list of outages per proxy, newest first;
 the ledger with its two eviction rules always shows a prefix (the newest part) of that list, and the
 totals account for all of it.
 */
module LedgerProofs {
  import opened Rolling
  import opened Ledger

  datatype Op =
    | Check(id: string, name: string, online: bool)
    | InitialDown(id: string, name: string)
    | Transition(id: string, name: string, online: bool, reason: string)
    | Sync(id: string)
    | Prune(active: set<string>)

  datatype Call = Call(op: Op, ts: int)

  function Apply(l: Ledger, c: Call, logSize: nat): Ledger
    requires logSize > 0
  {
    match c.op
    case Check(id, name, online) => CheckRecorded(l, id, name, online, c.ts)
    case InitialDown(id, name) => InitialDownRecorded(l, id, name, c.ts, logSize)
    case Transition(id, name, online, reason) => TransitionRecorded(l, id, name, online, reason, c.ts, logSize)
    case Sync(id) => OnlineSynced(l, id, c.ts)
    case Prune(active) => Pruned(l, active)
  }

  function Run(calls: seq<Call>, logSize: nat): Ledger
    requires logSize > 0
  {
    if calls == [] then Ledger([], map[], map[])
    else Apply(Run(calls[..|calls| - 1], logSize), calls[|calls| - 1], logSize)
  }

  ghost predicate Timely(calls: seq<Call>) {
    && (forall i | 0 <= i < |calls| :: calls[i].ts > 0)
    && (forall i, j | 0 <= i < j < |calls| :: calls[i].ts <= calls[j].ts)
  }

  predicate Forgets(c: Call, id: string) {
    c.op.Prune? && c.op.active != {} && id !in c.op.active
  }

  predicate HasOpen(incs: seq<Incident>, id: string) {
    exists i | 0 <= i < |incs| :: incs[i].id == id && incs[i].upAt == 0
  }

  /** No pruning in the run forgets this proxy while the ledger it meets holds an open incident of it. */
  ghost predicate SafelyPruned(calls: seq<Call>, logSize: nat, id: string)
    requires logSize > 0
  {
    forall n | 0 <= n < |calls| && Forgets(calls[n], id) :: !HasOpen(Run(calls[..n], logSize).incidents, id)
  }

  // ---------------------------------------------------------------- the reference

  /** One outage; up is 0 while it lasts. */
  datatype Outage = Outage(down: int, up: int)

  predicate Ongoing(h: seq<Outage>) {
    h != [] && h[0].up == 0
  }

  predicate SaysDown(c: Call, id: string) {
    (c.op.InitialDown? || (c.op.Transition? && !c.op.online)) && c.op.id == id
  }

  predicate SaysUp(c: Call, id: string) {
    (c.op.Sync? || (c.op.Transition? && c.op.online)) && c.op.id == id
  }

  /** What one call makes of the outages since the totals last forgot the proxy, newest first. */
  function NextOutages(h: seq<Outage>, c: Call, id: string): seq<Outage> {
    if SaysDown(c, id) && !Ongoing(h) then [Outage(c.ts, 0)] + h
    else if SaysUp(c, id) && Ongoing(h) then [Outage(h[0].down, c.ts)] + h[1..]
    else if Forgets(c, id) then []
    else h
  }

  function Outages(calls: seq<Call>, id: string): seq<Outage> {
    if calls == [] then [] else NextOutages(Outages(calls[..|calls| - 1], id), calls[|calls| - 1], id)
  }

  /** All its outages, forgotten ones included. */
  function AllOutages(calls: seq<Call>, id: string): seq<Outage> {
    if calls == [] then []
    else
      var before := calls[..|calls| - 1];
      AllStep(AllOutages(before, id), Outages(before, id), calls[|calls| - 1], id)
  }

  function AllStep(all: seq<Outage>, h: seq<Outage>, c: Call, id: string): seq<Outage> {
    if SaysDown(c, id) && !Ongoing(h) then [Outage(c.ts, 0)] + all
    else if SaysUp(c, id) && Ongoing(h) && all != [] then [Outage(h[0].down, c.ts)] + all[1..]
    else all
  }

  function ClosedSeconds(h: seq<Outage>): int {
    if h == [] then 0 else (if h[0].up == 0 then 0 else h[0].up - h[0].down) + ClosedSeconds(h[1..])
  }

  // ---------------------------------------------------------------- the view of one proxy in the ledger

  function View(incs: seq<Incident>, id: string): seq<Outage> {
    if incs == [] then []
    else (if incs[0].id == id then [Outage(incs[0].downAt, incs[0].upAt)] else []) + View(incs[1..], id)
  }

  predicate IsPrefix<T(==)>(a: seq<T>, b: seq<T>) {
    |a| <= |b| && a == b[..|a|]
  }

  lemma {:induction false} ViewSize(incs: seq<Incident>, id: string)
    ensures |View(incs, id)| == CountOf(incs, id)
  {
    if incs != [] { ViewSize(incs[1..], id); }
  }

  lemma {:induction false} ViewConcat(a: seq<Incident>, b: seq<Incident>, id: string)
    ensures View(a + b, id) == View(a, id) + View(b, id)
  {
    if a == [] {
      assert a + b == b;
    } else {
      assert (a + b)[1..] == a[1..] + b;
      ViewConcat(a[1..], b, id);
      var head := Shown(a[0], id);
      assert View(a, id) == head + View(a[1..], id);
      assert View(a + b, id) == head + (View(a[1..], id) + View(b, id));
    }
  }

  lemma ViewOfPrefix(incs: seq<Incident>, n: nat, id: string)
    requires n <= |incs|
    ensures IsPrefix(View(incs[..n], id), View(incs, id))
  {
    ViewConcat(incs[..n], incs[n..], id);
    assert incs == incs[..n] + incs[n..];
  }

  lemma {:induction false} ViewEmpty(incs: seq<Incident>, id: string)
    requires forall i | 0 <= i < |incs| :: incs[i].id != id
    ensures View(incs, id) == []
  {
    if incs != [] { ViewEmpty(incs[1..], id); }
  }

  function Shown(inc: Incident, id: string): seq<Outage> {
    if inc.id == id then [Outage(inc.downAt, inc.upAt)] else []
  }

  lemma ViewSplit(incs: seq<Incident>, k: nat, id: string)
    requires k < |incs|
    ensures View(incs, id) == View(incs[..k], id) + (Shown(incs[k], id) + View(incs[k + 1..], id))
    ensures View(incs[..k] + incs[k + 1..], id) == View(incs[..k], id) + View(incs[k + 1..], id)
  {
    ViewConcat(incs[..k], incs[k..], id);
    ViewConcat(incs[..k], incs[k + 1..], id);
    assert incs == incs[..k] + incs[k..] && incs[k..][0] == incs[k] && incs[k..][1..] == incs[k + 1..];
  }

  /** The quota drops the proxy's own oldest entry and nothing else. */
  lemma QuotaEvictsOwnOldest(incs: seq<Incident>, owner: string, id: string)
    ensures var v, v' := View(incs, id), View(WithoutOldest(incs, owner), id);
            v' == if id == owner && |v| >= 15 then v[..|v| - 1] else v
  {
    var k := LastIndexOf(incs, owner);
    ViewSize(incs, owner);
    if k == -1 {
      ViewEmpty(incs, owner);
    } else if CountOf(incs, owner) >= MAX_PER_PROXY {
      ViewSplit(incs, k, id);
      ViewEmpty(incs[k + 1..], owner);
      DropMiddle(View(incs[..k], id), Shown(incs[k], id), View(incs[k + 1..], id));
    }
  }

  lemma DropMiddle<T>(a: seq<T>, m: seq<T>, b: seq<T>)
    ensures m == [] ==> a + (m + b) == a + b
    ensures b == [] && |m| == 1 ==> (a + (m + b))[..|a + (m + b)| - 1] == a + b
  {
  }

  /**
   Adding an incident: both limits hold afterwards, the proxy shows it first, every view stays the
   newest part of what it was, and a proxy at its quota costs no other proxy an entry.
   */
  lemma AddIncidentView(incs: seq<Incident>, inc: Incident, id: string)
    requires |incs| <= MAX_GLOBAL && |View(incs, id)| <= MAX_PER_PROXY
    ensures var v, after := View(incs, id), AddIncident(incs, inc);
            && |after| <= MAX_GLOBAL && |View(after, id)| <= MAX_PER_PROXY
            && IsPrefix(Shown(inc, id), View(after, id)) && IsPrefix(View(after, id), Shown(inc, id) + v)
            && (id != inc.id && |View(incs, inc.id)| >= MAX_PER_PROXY ==> View(after, id) == v)
  {
    hide WithoutOldest, View;
    var kept := WithoutOldest(incs, inc.id);
    QuotaShortens(incs, inc.id);
    PrependCapped(kept, inc, id);
    KeptView(incs, inc.id, id);
    PrefixOfExtended(View(AddIncident(incs, inc), id), Shown(inc, id), View(kept, id), View(incs, id));
  }

  lemma KeptView(incs: seq<Incident>, owner: string, id: string)
    ensures var v, v' := View(incs, id), View(WithoutOldest(incs, owner), id);
            && IsPrefix(v', v) && (id != owner ==> v' == v)
            && (id == owner && |v| <= MAX_PER_PROXY ==> |v'| < MAX_PER_PROXY)
  {
    QuotaEvictsOwnOldest(incs, owner, id);
  }

  lemma PrefixOfExtended(v: seq<Outage>, head: seq<Outage>, short: seq<Outage>, long: seq<Outage>)
    requires IsPrefix(v, head + short) && IsPrefix(short, long)
    ensures IsPrefix(v, head + long)
  {
    assert head + short == (head + long)[..|head + short|];
  }

  lemma QuotaShortens(incs: seq<Incident>, owner: string)
    ensures |WithoutOldest(incs, owner)| == if |View(incs, owner)| >= MAX_PER_PROXY then |incs| - 1 else |incs|
  {
    ViewSize(incs, owner);
    if LastIndexOf(incs, owner) == -1 { ViewEmpty(incs, owner); }
  }

  lemma PrependCapped(kept: seq<Incident>, inc: Incident, id: string)
    requires |kept| <= MAX_GLOBAL
    ensures var longer := [inc] + kept;
            var after := if |longer| > MAX_GLOBAL then longer[..MAX_GLOBAL] else longer;
            && IsPrefix(View(after, id), Shown(inc, id) + View(kept, id))
            && IsPrefix(Shown(inc, id), View(after, id))
            && (|kept| < MAX_GLOBAL ==> View(after, id) == Shown(inc, id) + View(kept, id))
  {
    var longer := [inc] + kept;
    var after := if |longer| > MAX_GLOBAL then longer[..MAX_GLOBAL] else longer;
    assert longer[1..] == kept;
    ViewOfPrefix(longer, |after|, id);
    assert longer[..|after|] == after && after[0] == inc;
  }

  /** v' is v with every open entry ended at ts, if these are the entries to end. */
  ghost predicate EndedAt(v: seq<Outage>, v': seq<Outage>, mine: bool, ts: int) {
    |v'| == |v| && forall i | 0 <= i < |v| :: v'[i] == if mine && v[i].up == 0 then Outage(v[i].down, ts) else v[i]
  }

  lemma EndedConcat(a: seq<Outage>, a': seq<Outage>, b: seq<Outage>, b': seq<Outage>, mine: bool, ts: int)
    requires EndedAt(a, a', mine, ts) && EndedAt(b, b', mine, ts)
    ensures EndedAt(a + b, a' + b', mine, ts)
  {
  }

  lemma OneEnded(inc: Incident, owner: string, ts: int, id: string)
    ensures EndedAt(Shown(inc, id), Shown(Closed(inc, owner, ts), id), id == owner, ts)
  {
  }

  lemma CloseOpenFirst(incs: seq<Incident>, owner: string, ts: int)
    requires incs != []
    ensures CloseOpen(incs, owner, ts)[0] == Closed(incs[0], owner, ts)
    ensures CloseOpen(incs, owner, ts)[1..] == CloseOpen(incs[1..], owner, ts)
  {
    hide Closed;
  }

  lemma ViewFirst(incs: seq<Incident>, id: string)
    requires incs != []
    ensures View(incs, id) == Shown(incs[0], id) + View(incs[1..], id)
  {
  }

  lemma {:induction false} CloseOpenView(incs: seq<Incident>, owner: string, ts: int, id: string)
    ensures EndedAt(View(incs, id), View(CloseOpen(incs, owner, ts), id), id == owner, ts)
  {
    hide View, Closed, Shown, EndedAt;
    if incs == [] {
      NothingEnded(owner, ts, id);
    } else {
      CloseOpenView(incs[1..], owner, ts, id);
      CloseOpenFirst(incs, owner, ts);
      ViewFirst(incs, id);
      ViewFirst(CloseOpen(incs, owner, ts), id);
      OneEnded(incs[0], owner, ts, id);
      EndedConcat(Shown(incs[0], id), Shown(Closed(incs[0], owner, ts), id),
                  View(incs[1..], id), View(CloseOpen(incs[1..], owner, ts), id), id == owner, ts);
    }
  }

  lemma NothingEnded(owner: string, ts: int, id: string)
    ensures CloseOpen([], owner, ts) == [] && EndedAt(View([], id), View([], id), id == owner, ts)
  {
  }

  // ---------------------------------------------------------------- the invariant

  ghost predicate GoodOutages(h: seq<Outage>, latest: int) {
    forall i | 0 <= i < |h| ::
      0 < h[i].down <= latest && ((i == 0 && h[i].up == 0) || h[i].down <= h[i].up <= latest)
  }

  ghost predicate Accounts(l: Ledger, id: string, h: seq<Outage>) {
    if id !in l.stats then h == []
    else
      var ps := l.stats[id];
      && ps.currentlyDown == Ongoing(h)
      && ps.currentDownAt == (if Ongoing(h) then h[0].down else 0)
      && ps.dropCount == |h|
      && ps.totalDowntimeSec == ClosedSeconds(h)
  }

  ghost predicate Durations(incs: seq<Incident>) {
    forall i | 0 <= i < |incs| ::
      incs[i].durationSec == if incs[i].upAt == 0 then 0 else Elapsed(incs[i].downAt, incs[i].upAt)
  }

  ghost predicate Sizes(l: Ledger) {
    |l.incidents| <= MAX_GLOBAL && forall id :: |View(l.incidents, id)| <= MAX_PER_PROXY
  }

  lemma DurationsKept(incs: seq<Incident>, inc: Incident, owner: string, ts: int)
    requires Durations(incs) && inc.upAt == 0 && inc.durationSec == 0 && ts != 0
    ensures Durations(AddIncident(incs, inc)) && Durations(CloseOpen(incs, owner, ts))
  {
    var kept, after := WithoutOldest(incs, inc.id), AddIncident(incs, inc);
    assert forall i | 0 <= i < |kept| :: kept[i] in incs;
    forall i | 0 <= i < |after| ensures after[i] == inc || after[i] in incs {
      if i > 0 { assert after[i] == kept[i - 1]; }
    }
  }

  /** The incident an outage call would add. */
  function Opened(c: Call): Incident
    requires c.op.InitialDown? || c.op.Transition?
  {
    Incident(c.op.name, c.op.id, c.ts, 0, 0, if c.op.InitialDown? then "Offline at startup" else c.op.reason)
  }

  /** Every call leaves the incident list alone, adds one incident, or closes the open ones of its proxy. */
  lemma IncidentEffect(l: Ledger, c: Call, logSize: nat)
    requires logSize > 0
    ensures var after := Apply(l, c, logSize).incidents;
            || after == l.incidents
            || ((c.op.InitialDown? || (c.op.Transition? && !c.op.online))
                && after == AddIncident(l.incidents, Opened(c)))
            || ((c.op.Sync? || (c.op.Transition? && c.op.online)) && after == CloseOpen(l.incidents, c.op.id, c.ts))
  {
  }

  lemma SizesKept(l: Ledger, c: Call, logSize: nat)
    requires logSize > 0 && Sizes(l) && Durations(l.incidents) && c.ts > 0
    ensures Sizes(Apply(l, c, logSize)) && Durations(Apply(l, c, logSize).incidents)
  {
    IncidentEffect(l, c, logSize);
    var after := Apply(l, c, logSize).incidents;
    if c.op.InitialDown? || c.op.Transition? {
      DurationsKept(l.incidents, Opened(c), c.op.id, c.ts);
    } else if c.op.Sync? {
      DurationsKept(l.incidents, Incident("", "", 0, 0, 0, ""), c.op.id, c.ts);
    }
    forall id ensures |View(after, id)| <= MAX_PER_PROXY && |after| <= MAX_GLOBAL {
      if c.op.InitialDown? || c.op.Transition? { AddIncidentView(l.incidents, Opened(c), id); }
      if c.op.Sync? || c.op.Transition? { CloseOpenView(l.incidents, c.op.id, c.ts, id); }
    }
  }

  /** The ledger shows the newest of all outages; what it shows open is the outage the totals hold as current. */
  ghost predicate Shows(v: seq<Outage>, all: seq<Outage>, h: seq<Outage>) {
    && IsPrefix(v, all)
    && (Ongoing(h) ==> all != [] && all[0] == h[0])
    && forall i | 0 <= i < |v| && v[i].up == 0 :: i == 0 && Ongoing(h)
  }

  lemma OpenInView(incs: seq<Incident>, id: string)
    ensures HasOpen(incs, id) <==> exists i | 0 <= i < |View(incs, id)| :: View(incs, id)[i].up == 0
  {
    hide View;
    var v := View(incs, id);
    forall i | 0 <= i < |incs| && incs[i].id == id && incs[i].upAt == 0
      ensures exists k | 0 <= k < |v| :: v[k].up == 0
    {
      ViewAt(incs, i);
    }
    forall k | 0 <= k < |v| && v[k].up == 0 ensures HasOpen(incs, id) {
      var i := ViewFrom(incs, id, k);
    }
  }

  /** Where an entry of the view comes from. */
  lemma {:induction false} ViewFrom(incs: seq<Incident>, id: string, k: nat) returns (i: nat)
    requires k < |View(incs, id)|
    ensures i < |incs| && incs[i].id == id && View(incs, id)[k] == Outage(incs[i].downAt, incs[i].upAt)
  {
    if incs[0].id == id && k == 0 {
      i := 0;
    } else {
      var rest := ViewFrom(incs[1..], id, if incs[0].id == id then k - 1 else k);
      i := rest + 1;
    }
  }

  lemma ShowsPrefix(v: seq<Outage>, v': seq<Outage>, all: seq<Outage>, h: seq<Outage>)
    requires Shows(v, all, h) && IsPrefix(v', v)
    ensures Shows(v', all, h)
  {
  }

  lemma ShowsDown(v: seq<Outage>, v': seq<Outage>, all: seq<Outage>, h: seq<Outage>, ts: int)
    requires Shows(v, all, h) && !Ongoing(h) && ts > 0
    requires IsPrefix(v', [Outage(ts, 0)] + v)
    ensures Shows(v', [Outage(ts, 0)] + all, [Outage(ts, 0)] + h)
  {
    var o := Outage(ts, 0);
    assert [o] + v == ([o] + all)[..|v| + 1];
    assert forall i | 1 <= i < |v'| :: v'[i] == v[i - 1];
  }

  lemma ShowsUp(v: seq<Outage>, v': seq<Outage>, all: seq<Outage>, h: seq<Outage>, ts: int)
    requires Shows(v, all, h) && Ongoing(h) && ts > 0 && |v'| == |v|
    requires forall i | 0 <= i < |v| :: v'[i] == if v[i].up == 0 then Outage(v[i].down, ts) else v[i]
    ensures Shows(v', [Outage(h[0].down, ts)] + all[1..], [Outage(h[0].down, ts)] + h[1..])
  {
    var all' := [Outage(h[0].down, ts)] + all[1..];
    assert forall i | 0 <= i < |v| :: v[i] == all[i];
    assert forall i | 0 <= i < |v'| :: v'[i] == all'[i];
    assert v' == all'[..|v'|];
  }

  /** One call takes the ledger's view of a proxy along with the reference. */
  lemma ViewFollows(l: Ledger, c: Call, logSize: nat, id: string, all: seq<Outage>, h: seq<Outage>)
    requires logSize > 0 && Sizes(l) && c.ts > 0
    requires Accounts(l, id, h) && Shows(View(l.incidents, id), all, h)
    requires Forgets(c, id) ==> !HasOpen(l.incidents, id)
    ensures Shows(View(Apply(l, c, logSize).incidents, id), AllStep(all, h, c, id), NextOutages(h, c, id))
  {
    hide Shows, View, HasOpen, AddIncident, CloseOpen;
    var v := View(l.incidents, id);
    if SaysDown(c, id) && !Ongoing(h) {
      DownAdds(l, c, logSize, id, h);
      AddedView(l, c, id);
      ShowsDown(v, View(AddIncident(l.incidents, Opened(c)), id), all, h, c.ts);
    } else if SaysUp(c, id) && Ongoing(h) {
      UpCloses(l, c, logSize, id, h);
      CloseOpenView(l.incidents, id, c.ts, id);
      ShowsUp(v, View(CloseOpen(l.incidents, id, c.ts), id), all, h, c.ts);
      ShowsNonempty(v, all, h);
    } else {
      ViewUntouched(l, c, logSize, id, h);
      ShowsPrefix(v, View(Apply(l, c, logSize).incidents, id), all, h);
      if Forgets(c, id) { ShowsForgotten(l, c, logSize, id, all, h); }
    }
  }

  lemma DownAdds(l: Ledger, c: Call, logSize: nat, id: string, h: seq<Outage>)
    requires logSize > 0 && Accounts(l, id, h) && SaysDown(c, id) && !Ongoing(h)
    ensures Apply(l, c, logSize).incidents == AddIncident(l.incidents, Opened(c))
  {
    hide AddIncident, CloseOpen, Push;
  }

  lemma UpCloses(l: Ledger, c: Call, logSize: nat, id: string, h: seq<Outage>)
    requires logSize > 0 && Accounts(l, id, h) && SaysUp(c, id) && Ongoing(h)
    ensures Apply(l, c, logSize).incidents == CloseOpen(l.incidents, id, c.ts)
  {
    hide AddIncident, CloseOpen, Push;
  }

  lemma AddedView(l: Ledger, c: Call, id: string)
    requires Sizes(l) && SaysDown(c, id)
    ensures IsPrefix(View(AddIncident(l.incidents, Opened(c)), id), [Outage(c.ts, 0)] + View(l.incidents, id))
  {
    hide AddIncident, View;
    AddIncidentView(l.incidents, Opened(c), id);
  }

  lemma ShowsNonempty(v: seq<Outage>, all: seq<Outage>, h: seq<Outage>)
    requires Shows(v, all, h) && Ongoing(h)
    ensures all != []
  {
  }

  lemma ShowsForgotten(l: Ledger, c: Call, logSize: nat, id: string, all: seq<Outage>, h: seq<Outage>)
    requires logSize > 0 && Forgets(c, id) && !HasOpen(l.incidents, id) && Shows(View(l.incidents, id), all, h)
    ensures Shows(View(Apply(l, c, logSize).incidents, id), all, [])
  {
    hide View, HasOpen;
    OpenInView(l.incidents, id);
  }

  lemma ViewUntouched(l: Ledger, c: Call, logSize: nat, id: string, h: seq<Outage>)
    requires logSize > 0 && Sizes(l)
    requires Accounts(l, id, h) && !(SaysDown(c, id) && !Ongoing(h)) && !(SaysUp(c, id) && Ongoing(h))
    ensures IsPrefix(View(Apply(l, c, logSize).incidents, id), View(l.incidents, id))
  {
    IncidentEffect(l, c, logSize);
    var after := Apply(l, c, logSize).incidents;
    if after != l.incidents {
      assert c.op.id != id;
      if c.op.InitialDown? || (c.op.Transition? && !c.op.online) {
        AddIncidentView(l.incidents, Opened(c), id);
        assert Shown(Opened(c), id) + View(l.incidents, id) == View(l.incidents, id);
      } else {
        CloseOpenView(l.incidents, c.op.id, c.ts, id);
        assert View(after, id) == View(l.incidents, id);
      }
    }
  }

  lemma AccountsFollow(l: Ledger, c: Call, logSize: nat, id: string, h: seq<Outage>)
    requires logSize > 0 && c.ts > 0
    requires GoodOutages(h, c.ts) && Accounts(l, id, h)
    ensures Accounts(Apply(l, c, logSize), id, NextOutages(h, c, id)) && GoodOutages(NextOutages(h, c, id), c.ts)
  {
    hide AddIncident, CloseOpen, Push;
    NextGood(h, c, id);
    NextSeconds(h, c, id);
    match c.op
    case Check(_, _, _) =>
    case InitialDown(_, _) => hide ClosedSeconds, GoodOutages;
    case Transition(_, _, _, _) => hide ClosedSeconds, GoodOutages;
    case Sync(_) => hide ClosedSeconds, GoodOutages;
    case Prune(_) =>
  }

  lemma NextGood(h: seq<Outage>, c: Call, id: string)
    requires GoodOutages(h, c.ts) && c.ts > 0
    ensures GoodOutages(NextOutages(h, c, id), c.ts)
    ensures Ongoing(h) ==> 0 < h[0].down <= c.ts
  {
  }

  lemma NextSeconds(h: seq<Outage>, c: Call, id: string)
    requires c.ts > 0
    ensures SaysDown(c, id) && !Ongoing(h) ==> ClosedSeconds(NextOutages(h, c, id)) == ClosedSeconds(h)
    ensures SaysUp(c, id) && Ongoing(h) ==> ClosedSeconds(NextOutages(h, c, id)) == ClosedSeconds(h) + c.ts - h[0].down
    ensures ClosedSeconds([]) == 0
  {
    if SaysUp(c, id) && Ongoing(h) { assert NextOutages(h, c, id)[1..] == h[1..]; }
    if SaysDown(c, id) && !Ongoing(h) { assert NextOutages(h, c, id)[1..] == h; }
  }

  lemma GoodLater(h: seq<Outage>, t: int, t': int)
    requires GoodOutages(h, t) && t <= t'
    ensures GoodOutages(h, t')
  {
  }

  function LastTime(calls: seq<Call>): int {
    if calls == [] then 0 else calls[|calls| - 1].ts
  }

  lemma {:induction false} RunSizes(calls: seq<Call>, logSize: nat)
    requires logSize > 0 && Timely(calls)
    ensures Sizes(Run(calls, logSize)) && Durations(Run(calls, logSize).incidents)
  {
    if calls != [] {
      RunSizes(calls[..|calls| - 1], logSize);
      SizesKept(Run(calls[..|calls| - 1], logSize), calls[|calls| - 1], logSize);
    }
  }

  /** Whatever is pruned, the totals are those of the outages since the proxy was last forgotten. */
  lemma {:induction false} RunAccounts(calls: seq<Call>, logSize: nat, id: string)
    requires logSize > 0 && Timely(calls)
    ensures Accounts(Run(calls, logSize), id, Outages(calls, id))
    ensures GoodOutages(Outages(calls, id), LastTime(calls))
  {
    hide Apply, Accounts;
    if calls != [] {
      var before, c := calls[..|calls| - 1], calls[|calls| - 1];
      RunAccounts(before, logSize, id);
      GoodLater(Outages(before, id), LastTime(before), c.ts);
      AccountsFollow(Run(before, logSize), c, logSize, id, Outages(before, id));
    } else {
      NothingAccounts(logSize, id);
    }
  }

  lemma NothingAccounts(logSize: nat, id: string)
    requires logSize > 0
    ensures Accounts(Run([], logSize), id, []) && Shows(View(Run([], logSize).incidents, id), [], [])
  {
  }

  /** And if it was never forgotten with an open incident, the ledger shows the newest of all its outages. */
  lemma {:induction false} RunFollows(calls: seq<Call>, logSize: nat, id: string)
    requires logSize > 0 && Timely(calls) && SafelyPruned(calls, logSize, id)
    ensures Shows(View(Run(calls, logSize).incidents, id), AllOutages(calls, id), Outages(calls, id))
  {
    hide Apply, Accounts, Shows, View, HasOpen;
    if calls != [] {
      var before, c := calls[..|calls| - 1], calls[|calls| - 1];
      SafeBefore(calls, logSize, id);
      RunFollows(before, logSize, id);
      RunSizes(before, logSize);
      RunAccounts(before, logSize, id);
      ViewFollows(Run(before, logSize), c, logSize, id, AllOutages(before, id), Outages(before, id));
    } else {
      NothingAccounts(logSize, id);
    }
  }

  lemma SafeBefore(calls: seq<Call>, logSize: nat, id: string)
    requires logSize > 0 && calls != [] && SafelyPruned(calls, logSize, id)
    ensures SafelyPruned(calls[..|calls| - 1], logSize, id)
    ensures Forgets(calls[|calls| - 1], id) ==> !HasOpen(Run(calls[..|calls| - 1], logSize).incidents, id)
  {
    hide Run, HasOpen;
    var before := calls[..|calls| - 1];
    forall n | 0 <= n < |before| && Forgets(before[n], id) ensures !HasOpen(Run(before[..n], logSize).incidents, id) {
      assert before[..n] == calls[..n] && before[n] == calls[n];
    }
  }

  // ---------------------------------------------------------------- the claims

  /** Every open incident of the proxy belongs to the outage the totals hold as current. */
  ghost predicate OpenTracked(l: Ledger, id: string) {
    forall i | 0 <= i < |l.incidents| && l.incidents[i].id == id && l.incidents[i].upAt == 0 ::
      id in l.stats && l.stats[id].currentlyDown && l.stats[id].currentDownAt == l.incidents[i].downAt
  }

  ghost predicate OneOpen(l: Ledger, id: string) {
    forall i, j | 0 <= i < j < |l.incidents| && l.incidents[i].id == id && l.incidents[j].id == id ::
      l.incidents[i].upAt != 0 || l.incidents[j].upAt != 0
  }

  /**
   After any run, for every proxy that was never forgotten with an incident open: at most one incident is open,
   only while the proxy is down and with the start of the current outage; the list shows the newest of all its
   outages; the totals are those since it was last forgotten; the list keeps both limits.
   */
  lemma LedgerSound(calls: seq<Call>, logSize: nat, id: string)
    requires logSize > 0 && Timely(calls) && SafelyPruned(calls, logSize, id)
    ensures var l := Run(calls, logSize);
            var h := Outages(calls, id);
            && |l.incidents| <= 100 && |View(l.incidents, id)| <= 15
            && IsPrefix(View(l.incidents, id), AllOutages(calls, id))
            && OneOpen(l, id) && OpenTracked(l, id)
            && (id in l.stats ==> l.stats[id].dropCount == |h| && l.stats[id].totalDowntimeSec == ClosedSeconds(h)
                                  && l.stats[id].currentlyDown == Ongoing(h))
            && (id !in l.stats ==> h == [])
  {
    hide Run, View;
    RunSizes(calls, logSize);
    RunAccounts(calls, logSize, id);
    RunFollows(calls, logSize, id);
    var l, h := Run(calls, logSize), Outages(calls, id);
    ViewSize(l.incidents, id);
    ShownOpen(l, id, AllOutages(calls, id), h);
  }

  lemma ShownOpen(l: Ledger, id: string, all: seq<Outage>, h: seq<Outage>)
    requires Accounts(l, id, h) && Shows(View(l.incidents, id), all, h)
    ensures OneOpen(l, id) && OpenTracked(l, id)
  {
    hide View;
    forall i | 0 <= i < |l.incidents| && l.incidents[i].id == id && l.incidents[i].upAt == 0
      ensures View(l.incidents[..i], id) == [] && Ongoing(h) && l.incidents[i].downAt == h[0].down
    {
      ViewAt(l.incidents, i);
    }
    forall i, j | 0 <= i < j < |l.incidents| && l.incidents[i].id == id && View(l.incidents[..j], id) == []
      ensures false
    {
      ViewAt(l.incidents[..j], i);
    }
  }

  /**
   Open incidents stay tied to current outages throughout a run if and only if no pruning forgets a proxy with one open.
   */
  lemma TrackedIffSafelyPruned(calls: seq<Call>, logSize: nat, id: string)
    requires logSize > 0 && Timely(calls)
    ensures (forall n | 0 <= n <= |calls| :: OpenTracked(Run(calls[..n], logSize), id))
              <==> SafelyPruned(calls, logSize, id)
  {
    hide Run, OpenTracked, HasOpen;
    if SafelyPruned(calls, logSize, id) {
      forall n | 0 <= n <= |calls| ensures OpenTracked(Run(calls[..n], logSize), id) {
        SafePrefix(calls, logSize, id, n);
        LedgerSound(calls[..n], logSize, id);
      }
    } else {
      var n :| 0 <= n < |calls| && Forgets(calls[n], id) && HasOpen(Run(calls[..n], logSize).incidents, id);
      assert calls[..n + 1][..n] == calls[..n] && calls[..n + 1][n] == calls[n];
      ForgottenUntracked(calls[..n + 1], logSize, id);
      assert !OpenTracked(Run(calls[..n + 1], logSize), id);
    }
  }

  lemma SafePrefix(calls: seq<Call>, logSize: nat, id: string, n: nat)
    requires logSize > 0 && n <= |calls| && SafelyPruned(calls, logSize, id) && Timely(calls)
    ensures SafelyPruned(calls[..n], logSize, id) && Timely(calls[..n])
  {
    hide Run, HasOpen;
    var before := calls[..n];
    forall k | 0 <= k < |before| && Forgets(before[k], id) ensures !HasOpen(Run(before[..k], logSize).incidents, id) {
      assert before[..k] == calls[..k] && before[k] == calls[k];
    }
  }

  lemma ForgottenUntracked(calls: seq<Call>, logSize: nat, id: string)
    requires logSize > 0 && calls != [] && Forgets(calls[|calls| - 1], id)
    requires HasOpen(Run(calls[..|calls| - 1], logSize).incidents, id)
    ensures !OpenTracked(Run(calls, logSize), id)
  {
    var before := Run(calls[..|calls| - 1], logSize);
    assert Run(calls, logSize) == Pruned(before, calls[|calls| - 1].op.active);
    hide Run;
    var i :| 0 <= i < |before.incidents| && before.incidents[i].id == id && before.incidents[i].upAt == 0;
  }

  lemma ViewAt(incs: seq<Incident>, i: nat)
    requires i < |incs|
    ensures var v, k := View(incs, incs[i].id), |View(incs[..i], incs[i].id)|;
            k < |v| && v[k] == Outage(incs[i].downAt, incs[i].upAt)
  {
    ViewConcat(incs[..i], incs[i..], incs[i].id);
    assert incs == incs[..i] + incs[i..];
    assert incs[i..][0] == incs[i];
  }

  /**
   What pruning costs: forget a proxy while it is down, and its open incident is never closed. When it
   fails again the ledger holds two open incidents of one proxy.
   */
  lemma PrunedWhileDown(logSize: nat)
    requires logSize > 0
    ensures var calls := [Call(InitialDown("a", "A"), 1), Call(Prune({"b"}), 2), Call(InitialDown("a", "A"), 3)];
            View(Run(calls, logSize).incidents, "a") == [Outage(3, 0), Outage(1, 0)]
  {
    var c0, c1, c2 := Call(InitialDown("a", "A"), 1), Call(Prune({"b"}), 2), Call(InitialDown("a", "A"), 3);
    var calls := [c0, c1, c2];
    assert calls[..2] == [c0, c1] && [c0, c1][..1] == [c0] && [c0][..0] == [];
    var first, second := Incident("A", "a", 1, 0, 0, "Offline at startup"),
        Incident("A", "a", 3, 0, 0, "Offline at startup");
    assert Run([], logSize) == Ledger([], map[], map[]);
    assert Run([c0], logSize).incidents == [first];
    assert Run([c0, c1], logSize).incidents == [first] && "a" !in Run([c0, c1], logSize).stats;
    assert CountOf([first], "a") == 1 by { assert [first][1..] == []; }
    assert Run(calls, logSize).incidents == [second, first];
    assert [second, first][1..] == [first] && [first][1..] == [];
    assert View([first], "a") == [Outage(1, 0)];
    assert View([second, first], "a") == [Outage(3, 0)] + [Outage(1, 0)];
  }
}
