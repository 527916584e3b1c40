/** What a run of the statistics store has counted, listed and logged, call by call. */
module LedgerRuns {
  import opened Options
  import opened Rolling
  import opened Ledger
  import opened LedgerProofs

  // ---------------------------------------------------------------- checks

  ghost predicate RememberedSince(calls: seq<Call>, n: int, id: string)
    requires 0 <= n
  {
    forall k | n < k < |calls| :: !Forgets(calls[k], id)
  }

  /** The checks of a proxy since its totals were last forgotten; of the successful ones only, if so asked. */
  ghost function ChecksOf(calls: seq<Call>, id: string, successful: bool): set<int> {
    set n | 0 <= n < |calls| && calls[n].op.Check? && calls[n].op.id == id && (successful ==> calls[n].op.online)
        && RememberedSince(calls, n, id)
  }

  predicate IsCheck(c: Call, id: string, successful: bool) {
    c.op.Check? && c.op.id == id && (successful ==> c.op.online)
  }

  lemma ChecksStep(calls: seq<Call>, id: string, successful: bool)
    requires calls != []
    ensures var before, c := calls[..|calls| - 1], calls[|calls| - 1];
            |ChecksOf(calls, id, successful)|
            == if Forgets(c, id) then 0
               else |ChecksOf(before, id, successful)| + if IsCheck(c, id, successful) then 1 else 0
  {
    var last := |calls| - 1;
    var before, c := calls[..last], calls[last];
    if Forgets(c, id) {
      assert ChecksOf(calls, id, successful) == {};
    } else {
      forall n | 0 <= n < last ensures RememberedSince(calls, n, id) <==> RememberedSince(before, n, id) {
        assert forall k | n < k < last :: before[k] == calls[k];
      }
      assert ChecksOf(calls, id, successful)
          == ChecksOf(before, id, successful) + if IsCheck(c, id, successful) then {last} else {};
    }
  }

  /** The counter of a proxy's checks, or of its successful ones; 0 for a proxy without totals. */
  function CounterOf(l: Ledger, id: string, successful: bool): int {
    if id !in l.stats then 0 else if successful then l.stats[id].successfulChecks else l.stats[id].totalChecks
  }

  lemma CounterStep(l: Ledger, c: Call, logSize: nat, id: string, successful: bool)
    requires logSize > 0
    ensures CounterOf(Apply(l, c, logSize), id, successful)
         == if Forgets(c, id) then 0
            else CounterOf(l, id, successful) + if IsCheck(c, id, successful) then 1 else 0
  {
    hide AddIncident, CloseOpen, Logged;
  }

  /** The totals count every check since the proxy was last forgotten, and every successful one. */
  lemma {:induction false} RunCounts(calls: seq<Call>, logSize: nat, id: string, successful: bool)
    requires logSize > 0
    ensures CounterOf(Run(calls, logSize), id, successful) == |ChecksOf(calls, id, successful)|
  {
    hide ChecksOf, Apply, CounterOf, IsCheck;
    if calls != [] {
      RunCounts(calls[..|calls| - 1], logSize, id, successful);
      ChecksStep(calls, id, successful);
      CounterStep(Run(calls[..|calls| - 1], logSize), calls[|calls| - 1], logSize, id, successful);
    } else {
      NoChecks(logSize, id, successful);
    }
  }

  lemma NoChecks(logSize: nat, id: string, successful: bool)
    requires logSize > 0
    ensures ChecksOf([], id, successful) == {} && CounterOf(Run([], logSize), id, successful) == 0
  {
  }

  // ---------------------------------------------------------------- names and times

  /** The proxy's name in this call, if the call is one that gives it. */
  function NameIn(c: Call, id: string): Option<string> {
    if (c.op.Check? || c.op.InitialDown? || c.op.Transition?) && c.op.id == id then Some(c.op.name) else None
  }

  /** The name last given since the proxy was last forgotten. */
  function LastName(calls: seq<Call>, id: string): Option<string> {
    if calls == [] then None
    else
      var c := calls[|calls| - 1];
      if Forgets(c, id) then None
      else if NameIn(c, id).Some? then NameIn(c, id)
      else LastName(calls[..|calls| - 1], id)
  }

  /** The time of the last check since the proxy was last forgotten, or 0. */
  function LastCheck(calls: seq<Call>, id: string): int {
    if calls == [] then 0
    else
      var c := calls[|calls| - 1];
      if Forgets(c, id) then 0 else if IsCheck(c, id, false) then c.ts else LastCheck(calls[..|calls| - 1], id)
  }

  ghost predicate Labelled(l: Ledger, id: string, name: Option<string>, at: int) {
    && (id in l.stats <==> name.Some?)
    && (id in l.stats ==> Some(l.stats[id].name) == name && l.stats[id].lastCheckAt == at)
    && (id !in l.stats ==> at == 0)
  }

  lemma LabelStep(l: Ledger, c: Call, logSize: nat, id: string, name: Option<string>, at: int)
    requires logSize > 0 && Labelled(l, id, name, at)
    ensures Labelled(Apply(l, c, logSize), id,
                if Forgets(c, id) then None else if NameIn(c, id).Some? then NameIn(c, id) else name,
                if Forgets(c, id) then 0 else if IsCheck(c, id, false) then c.ts else at)
  {
    hide AddIncident, CloseOpen, Logged;
  }

  /** A proxy has totals exactly if it was named since last forgotten; they bear its last name and last check. */
  lemma {:induction false} RunLabels(calls: seq<Call>, logSize: nat, id: string)
    requires logSize > 0
    ensures Labelled(Run(calls, logSize), id, LastName(calls, id), LastCheck(calls, id))
  {
    hide Apply, Labelled, NameIn, IsCheck, Forgets;
    if calls != [] {
      var before := calls[..|calls| - 1];
      RunLabels(before, logSize, id);
      LabelStep(Run(before, logSize), calls[|calls| - 1], logSize, id, LastName(before, id), LastCheck(before, id));
    } else {
      NothingLabelled(logSize, id);
    }
  }

  lemma NothingLabelled(logSize: nat, id: string)
    requires logSize > 0
    ensures Labelled(Run([], logSize), id, None, 0)
  {
  }

  // ---------------------------------------------------------------- incidents

  /** The call that opened an incident: its proxy, its time, its name and its reason. */
  ghost predicate OpenedBy(x: Incident, c: Call) {
    && SaysDown(c, x.id) && x.downAt == c.ts && x.name == c.op.name
    && x.reason == if c.op.InitialDown? then "Offline at startup" else c.op.reason
  }

  ghost predicate Witnessed(x: Incident, calls: seq<Call>) {
    exists n | 0 <= n < |calls| :: OpenedBy(x, calls[n])
  }

  ghost predicate EndWitnessed(x: Incident, calls: seq<Call>) {
    x.upAt == 0 || exists n | 0 <= n < |calls| :: SaysUp(calls[n], x.id) && calls[n].ts == x.upAt
  }

  lemma StillWitnessed(x: Incident, calls: seq<Call>, before: seq<Call>)
    requires calls != [] && before == calls[..|calls| - 1]
    ensures Witnessed(x, before) ==> Witnessed(x, calls)
    ensures EndWitnessed(x, before) ==> EndWitnessed(x, calls)
  {
    hide SaysDown, SaysUp;
    if n :| 0 <= n < |before| && OpenedBy(x, before[n]) { assert OpenedBy(x, calls[n]); }
    if n :| 0 <= n < |before| && SaysUp(before[n], x.id) && before[n].ts == x.upAt {
      assert SaysUp(calls[n], x.id) && calls[n].ts == x.upAt;
    }
  }

  lemma AddedOnly(incs: seq<Incident>, inc: Incident)
    ensures forall x | x in AddIncident(incs, inc) :: x == inc || x in incs
  {
    var kept, after := WithoutOldest(incs, inc.id), AddIncident(incs, inc);
    assert forall i | 0 <= i < |kept| :: kept[i] in incs;
    forall i | 0 <= i < |after| ensures after[i] == inc || after[i] in incs {
      if i > 0 { assert after[i] == kept[i - 1]; }
    }
  }

  /** The oldest entry of a proxy is the one at k. */
  ghost predicate OldestAt(incs: seq<Incident>, id: string, k: nat) {
    k < |incs| && incs[k].id == id && forall j | k < j < |incs| :: incs[j].id != id
  }

  /** A new incident goes to the front: for its owner's oldest if that has fifteen, else for the last of a hundred. */
  lemma EvictionMeans(incs: seq<Incident>, inc: Incident)
    requires |incs| <= 100
    ensures var n, after := |View(incs, inc.id)|, AddIncident(incs, inc);
            && (n < 15 && |incs| < 100 ==> after == [inc] + incs)
            && (n < 15 && |incs| == 100 ==> after == [inc] + incs[..99])
            && (n >= 15 ==> exists k: nat :: OldestAt(incs, inc.id, k) && after == [inc] + (incs[..k] + incs[k + 1..]))
  {
    ViewSize(incs, inc.id);
    var k := LastIndexOf(incs, inc.id);
    if k == -1 {
      ViewEmpty(incs, inc.id);
    } else {
      assert OldestAt(incs, inc.id, k);
    }
    assert |incs| == 100 ==> ([inc] + incs)[..100] == [inc] + incs[..99];
  }

  lemma ClosedOnly(incs: seq<Incident>, id: string, ts: int)
    ensures forall x | x in CloseOpen(incs, id, ts) :: exists y :: y in incs && x == Closed(y, id, ts)
  {
    hide Closed;
    var after := CloseOpen(incs, id, ts);
    forall i | 0 <= i < |after| ensures exists y :: y in incs && after[i] == Closed(y, id, ts) {
      assert incs[i] in incs;
    }
  }

  /** Every incident of the list was opened by a call, with its time, name and reason, and if closed, by another. */
  lemma {:induction false} RunIncidents(calls: seq<Call>, logSize: nat, x: Incident)
    requires logSize > 0 && x in Run(calls, logSize).incidents
    ensures Witnessed(x, calls) && EndWitnessed(x, calls)
  {
    hide Apply, Witnessed, EndWitnessed, AddIncident, CloseOpen;
    if calls != [] {
      var before, c := calls[..|calls| - 1], calls[|calls| - 1];
      var l := Run(before, logSize);
      IncidentEffect(l, c, logSize);
      forall y ensures Witnessed(y, before) ==> Witnessed(y, calls)
               ensures EndWitnessed(y, before) ==> EndWitnessed(y, calls)
      {
        StillWitnessed(y, calls, before);
      }
      if x in l.incidents {
        RunIncidents(before, logSize, x);
      } else if c.op.InitialDown? || (c.op.Transition? && !c.op.online) {
        AddedOnly(l.incidents, Opened(c));
        OpenedNow(c, calls);
      } else {
        ClosedOnly(l.incidents, c.op.id, c.ts);
        var y :| y in l.incidents && x == Closed(y, c.op.id, c.ts);
        RunIncidents(before, logSize, y);
        ClosedNow(y, c, calls);
      }
    }
  }

  lemma OpenedNow(c: Call, calls: seq<Call>)
    requires calls != [] && c == calls[|calls| - 1] && (c.op.InitialDown? || (c.op.Transition? && !c.op.online))
    ensures Witnessed(Opened(c), calls) && EndWitnessed(Opened(c), calls)
  {
    assert OpenedBy(Opened(c), calls[|calls| - 1]);
  }

  lemma ClosedNow(y: Incident, c: Call, calls: seq<Call>)
    requires calls != [] && c == calls[|calls| - 1] && (c.op.Sync? || (c.op.Transition? && c.op.online))
    requires Witnessed(y, calls) && EndWitnessed(y, calls)
    ensures Witnessed(Closed(y, c.op.id, c.ts), calls) && EndWitnessed(Closed(y, c.op.id, c.ts), calls)
  {
    var x := Closed(y, c.op.id, c.ts);
    var n :| 0 <= n < |calls| && OpenedBy(y, calls[n]);
    assert OpenedBy(x, calls[n]);
    if x != y { assert SaysUp(calls[|calls| - 1], x.id) && calls[|calls| - 1].ts == x.upAt; }
  }

  // ---------------------------------------------------------------- the log

  /** The states one call hands to the log: every transition, and a first sighting that opens an outage. */
  function StatesOf(c: Call, before: seq<Outage>, id: string): seq<Event> {
    if c.op.Transition? && c.op.id == id then [Event(c.ts, c.op.online)]
    else if c.op.InitialDown? && c.op.id == id && !Ongoing(before) then [Event(c.ts, false)]
    else []
  }

  function StatesIn(calls: seq<Call>, id: string): seq<Event> {
    if calls == [] then []
    else
      var before := calls[..|calls| - 1];
      StatesIn(before, id) + StatesOf(calls[|calls| - 1], Outages(before, id), id)
  }

  lemma RecordedSnoc(s: seq<Event>, e: Event, maxSize: nat)
    requires maxSize > 0
    ensures Recorded(s + [e], maxSize) == Push(Recorded(s, maxSize), e.online, e.ts, maxSize)
    ensures Recorded(s + [], maxSize) == Recorded(s, maxSize)
  {
    hide Push;
    assert (s + [e])[..|s|] == s && s + [] == s;
  }

  /** The log of a proxy is what recording its states one by one leaves, whatever is pruned. */
  lemma {:induction false} RunLogs(calls: seq<Call>, logSize: nat, id: string)
    requires logSize > 0 && Timely(calls)
    ensures LogOf(Run(calls, logSize), id) == Recorded(StatesIn(calls, id), logSize)
  {
    hide Apply, Push, Recorded, Accounts;
    if calls != [] {
      var before, c := calls[..|calls| - 1], calls[|calls| - 1];
      RunLogs(before, logSize, id);
      RunAccounts(before, logSize, id);
      LogStep(Run(before, logSize), c, logSize, id, Outages(before, id));
      RecordedSnoc(StatesIn(before, id), Event(c.ts, c.op.Transition? && c.op.online), logSize);
    } else {
      NothingLogged(logSize, id);
    }
  }

  lemma NothingLogged(logSize: nat, id: string)
    requires logSize > 0
    ensures LogOf(Run([], logSize), id) == [] == Recorded([], logSize)
  {
  }

  lemma LogStep(l: Ledger, c: Call, logSize: nat, id: string, h: seq<Outage>)
    requires logSize > 0 && Accounts(l, id, h)
    ensures var states := StatesOf(c, h, id);
            LogOf(Apply(l, c, logSize), id) ==
              if states == [] then LogOf(l, id) else Push(LogOf(l, id), states[0].online, states[0].ts, logSize)
  {
    hide AddIncident, CloseOpen, Push, ClosedSeconds;
  }
}
