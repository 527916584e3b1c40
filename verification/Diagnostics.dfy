/**
 The diagnostics fan-out as interleaved steps: one process per proxy behind an optional counting
 semaphore, and a double-checked cache of Check-Host answers with one mutex per key. A mutex is named by
 the process that offered it, as LoadOrStore keeps the first one offered.
 Probes and Check-Host are oracles: which proxies come out offline is fixed by `plan`, and every call
 may answer anything.
 */
module Diagnostics {
  import opened Options
  import opened Text

  // ---------------------------------------------------------------- what is looked up

  /** The Check-Host request made for an offline proxy; none for a TCP proxy without a port. */
  datatype Probe = Ping(host: string) | Tcp(host: string, port: int) | NoProbe

  function CheckKey(udp: bool, server: string, port: int): string {
    if udp then "ping:" + server else "tcp:" + (server + [':'] + Itoa(port))
  }

  function ProbeOf(udp: bool, server: string, port: int): Probe {
    if udp then Ping(server) else if port > 0 then Tcp(server, port) else NoProbe
  }

  /** Two proxies share a cache key only if they would ask Check-Host the same thing. */
  lemma {:induction false} SameKeySameProbe(udp: bool, server: string, port: int, udp': bool, server': string,
        port': int)
    requires CheckKey(udp, server, port) == CheckKey(udp', server', port')
    ensures ProbeOf(udp, server, port) == ProbeOf(udp', server', port')
  {
    var k, k' := CheckKey(udp, server, port), CheckKey(udp', server', port');
    assert k[0] == if udp then 'p' else 't';
    assert k'[0] == if udp' then 'p' else 't';
    if udp {
      assert server == k[5..] == k'[5..] == server';
    } else {
      assert server + [':'] + Itoa(port) == k[4..] == k'[4..] == server' + [':'] + Itoa(port');
      ItoaHasNo(port, ':');
      ItoaHasNo(port', ':');
      LastSeparatorUnique(server, Itoa(port), server', Itoa(port'), ':');
      ItoaInjective(port, port');
    }
  }

  // ---------------------------------------------------------------- states

  datatype PC =
    | Start          // before the semaphore
    | Probing        // health and target probes running
    | Lookup         // first, lock-free cache lookup
    | GetMutex       // LoadOrStore of the key's mutex
    | Lock           // waiting for that mutex
    | Recheck        // second cache lookup, under the mutex
    | Call           // about to ask Check-Host
    | Store          // answer in hand, about to cache it
    | Unlock
    | Write          // writing the report
    | Release        // giving the semaphore slot back
    | Done

  /** What a Check-Host request yields; Nothing when no request was made. */
  datatype Answer = Summary(ruAvailable: bool, worldAvailable: bool) | Failed(error: string) | Nothing

  /** How a proxy's probes come out: settled without Check-Host, or offline with this cache key and request. */
  datatype Plan = Settled | Offline(key: string, probe: Probe)

  datatype Request = Request(probe: Probe, answer: Answer)

  datatype Config = Config(plan: seq<Plan>, limit: int)

  datatype State = State(
    pc: seq<PC>, active: int,                        // semaphore slots in use
    cache: map<string, Answer>,
    mutexOf: map<string, nat>, mu: seq<nat>,         // the key's mutex, and the one each process fetched
    holder: map<nat, nat>,                           // mutex -> process holding it
    calls: seq<string>,                              // keys of the Check-Host requests made, in order
    asked: seq<Request>,                             // the requests themselves, with their answers
    seen: seq<Option<Answer>>,                       // the cache entry a process ended up with
    report: seq<Option<Option<Answer>>>)             // the reports written so far

  function Init(c: Config): State {
    var n := |c.plan|;
    State(seq(n, _ => Start), 0, map[], map[], seq(n, _ => 0), map[], [], [], seq(n, _ => None),
        seq(n, _ => None))
  }

  predicate Shaped(c: Config, s: State) {
    |s.pc| == |s.mu| == |s.seen| == |s.report| == |c.plan|
  }

  function KeyOf(c: Config, p: nat): string
    requires p < |c.plan|
  {
    match c.plan[p] case Offline(key, _) => key case Settled => ""
  }

  function Asks(c: Config, p: nat): bool
    requires p < |c.plan|
  {
    c.plan[p].Offline? && !c.plan[p].probe.NoProbe?
  }

  /** Steps that can block: entering the semaphore when it is full, locking a held mutex. */
  predicate CanStep(c: Config, s: State, p: nat)
    requires Shaped(c, s) && p < |c.plan|
  {
    match s.pc[p]
    case Start => c.limit <= 0 || s.active < c.limit
    case Lock => s.mu[p] !in s.holder
    case Done => false
    case _ => true
  }

  /** Where process p goes next: the control flow of one goroutine. */
  function NextPc(c: Config, s: State, p: nat): PC
    requires p < |c.plan| && p < |s.pc|
  {
    match s.pc[p]
    case Start => Probing
    case Probing => if c.plan[p].Settled? then Write else Lookup
    case Lookup => if KeyOf(c, p) in s.cache then Write else GetMutex
    case GetMutex => Lock
    case Lock => Recheck
    case Recheck => if KeyOf(c, p) in s.cache then Unlock else Call
    case Call => Store
    case Store => Unlock
    case Unlock => Write
    case Write => Release
    case Release => Done
    case Done => Done
  }

  /** The semaphore: one slot taken on entry, given back on exit. */
  function NextActive(pc: PC, active: int): int {
    if pc.Start? then active + 1 else if pc.Release? then active - 1 else active
  }

  /** The entry a process reads or is answered with. */
  function NextSeen(c: Config, s: State, p: nat, a: Answer): Option<Answer>
    requires p < |c.plan| && p < |s.pc| && p < |s.seen|
  {
    if (s.pc[p].Lookup? || s.pc[p].Recheck?) && KeyOf(c, p) in s.cache then Some(s.cache[KeyOf(c, p)])
    else if s.pc[p].Call? then Some(if Asks(c, p) then a else Nothing)
    else s.seen[p]
  }

  /** LoadOrStore: the first process to ask for a key's mutex supplies it. */
  function LoadOrStore(mutexOf: map<string, nat>, key: string, p: nat): map<string, nat> {
    if key in mutexOf then mutexOf else mutexOf[key := p]
  }

  function NextHolder(pc: PC, holder: map<nat, nat>, m: nat, p: nat): map<nat, nat> {
    if pc.Lock? then holder[m := p] else if pc.Unlock? then holder - {m} else holder
  }

  /** One step of process p; a is what Check-Host answers should the step ask it. */
  function StepOf(c: Config, s: State, p: nat, a: Answer): (s': State)
    requires Shaped(c, s) && p < |c.plan|
    ensures Shaped(c, s')
  {
    var key, pc := KeyOf(c, p), s.pc[p];
    var mutexOf := if pc.GetMutex? then LoadOrStore(s.mutexOf, key, p) else s.mutexOf;
    State(s.pc[p := NextPc(c, s, p)],
          NextActive(pc, s.active),
          if pc.Store? && s.seen[p].Some? then s.cache[key := s.seen[p].value] else s.cache,
          mutexOf,
          if pc.GetMutex? then s.mu[p := mutexOf[key]] else s.mu,
          NextHolder(pc, s.holder, s.mu[p], p),
          if pc.Call? && Asks(c, p) then s.calls + [key] else s.calls,
          if pc.Call? && Asks(c, p) then s.asked + [Request(c.plan[p].probe, a)] else s.asked,
          s.seen[p := NextSeen(c, s, p, a)],
          if pc.Write? then s.report[p := Some(s.seen[p])] else s.report)
  }

  // ---------------------------------------------------------------- sums over processes

  function Weight(inSlot: bool, pc: PC): nat {
    if inSlot then (if pc.Start? || pc.Done? then 0 else 1) else
    match pc
    case Start => 11 case Probing => 10 case Lookup => 9 case GetMutex => 8 case Lock => 7 case Recheck => 6
    case Call => 5 case Store => 4 case Unlock => 3 case Write => 2 case Release => 1 case Done => 0
  }

  function Total(inSlot: bool, pcs: seq<PC>): nat {
    if pcs == [] then 0 else Weight(inSlot, pcs[0]) + Total(inSlot, pcs[1..])
  }

  /** How many processes are past the semaphore and have not left it. */
  function InSlots(pcs: seq<PC>): nat { Total(true, pcs) }

  /** How many steps are still to come at most. */
  function StepsLeft(pcs: seq<PC>): nat { Total(false, pcs) }

  lemma {:induction false} TotalUpdate(inSlot: bool, pcs: seq<PC>, p: nat, pc: PC)
    requires p < |pcs|
    ensures Total(inSlot, pcs[p := pc]) == Total(inSlot, pcs) - Weight(inSlot, pcs[p]) + Weight(inSlot, pc)
  {
    if p == 0 {
      assert pcs[0 := pc][1..] == pcs[1..];
    } else {
      TotalUpdate(inSlot, pcs[1..], p - 1, pc);
      assert pcs[p := pc][1..] == pcs[1..][p - 1 := pc];
    }
  }

  lemma {:induction false} TotalUniform(inSlot: bool, pcs: seq<PC>, pc: PC)
    requires forall p | 0 <= p < |pcs| :: Weight(inSlot, pcs[p]) == Weight(inSlot, pc)
    ensures Total(inSlot, pcs) == |pcs| * Weight(inSlot, pc)
  {
    if pcs != [] { TotalUniform(inSlot, pcs[1..], pc); }
  }

  // ---------------------------------------------------------------- the invariant

  predicate Critical(pc: PC) {
    pc.Recheck? || pc.Call? || pc.Store? || pc.Unlock?
  }

  /** The semaphore counts the processes past it. */
  ghost predicate SlotsOk(c: Config, s: State) {
    s.active == InSlots(s.pc) && (c.limit > 0 ==> s.active <= c.limit)
  }

  /** A process waits for, and holds, the one mutex of its key. */
  ghost predicate MutexOk(c: Config, s: State, p: nat)
    requires Shaped(c, s) && p < |c.plan|
  {
    && (c.plan[p].Settled?
        ==> s.pc[p].Start? || s.pc[p].Probing? || s.pc[p].Write? || s.pc[p].Release? || s.pc[p].Done?)
    && (s.pc[p].Lock? || Critical(s.pc[p]) ==> KeyOf(c, p) in s.mutexOf && s.mutexOf[KeyOf(c, p)] == s.mu[p])
    && (Critical(s.pc[p]) ==> s.mu[p] in s.holder && s.holder[s.mu[p]] == p)
  }

  ghost predicate MutexesOk(c: Config, s: State)
    requires Shaped(c, s)
  {
    && (forall k | k in s.mutexOf :: s.mutexOf[k] < |c.plan| && KeyOf(c, s.mutexOf[k]) == k)
    && (forall m | m in s.holder :: s.holder[m] < |c.plan| && Critical(s.pc[s.holder[m]]) && s.mu[s.holder[m]] == m)
    && forall p | 0 <= p < |c.plan| :: MutexOk(c, s, p)
  }

  /** How far process p has come with its cache entry. */
  ghost predicate CacheOk(c: Config, s: State, p: nat)
    requires Shaped(c, s) && p < |c.plan|
  {
    var pc, key := s.pc[p], KeyOf(c, p);
    && (pc.Release? || pc.Done? ==> s.report[p] == Some(s.seen[p]))
    && (c.plan[p].Settled? ==> s.seen[p].None?)
    && (c.plan[p].Offline? ==>
          && (pc.Call? || pc.Store? ==> key !in s.cache)
          && (pc.Call? ==> key !in s.calls)
          && (pc.Store? ==> s.seen[p].Some? && (Asks(c, p) ==> key in s.calls))
          && (pc.Unlock? || pc.Write? || pc.Release? || pc.Done? ==> key in s.cache && s.seen[p] == Some(s.cache[key]))
          && (key in s.cache && Asks(c, p) ==> key in s.calls))
  }

  /** A request whose answer is not cached yet is being stored by the process that made it. */
  ghost predicate Pending(c: Config, s: State, key: string)
    requires Shaped(c, s)
  {
    exists p | 0 <= p < |c.plan| :: s.pc[p].Store? && KeyOf(c, p) == key
  }

  ghost predicate CachesOk(c: Config, s: State)
    requires Shaped(c, s)
  {
    && NoDuplicates(s.calls)
    && (forall k | k in s.calls :: k in s.cache || Pending(c, s, k))
    && forall p | 0 <= p < |c.plan| :: CacheOk(c, s, p)
  }

  ghost predicate Inv(c: Config, s: State) {
    Shaped(c, s) && SlotsOk(c, s) && MutexesOk(c, s) && CachesOk(c, s)
  }

  /** Proxies sharing a key would make the same request, as SameKeySameProbe shows of real ones. */
  ghost predicate Consistent(c: Config) {
    forall p, q | 0 <= p < |c.plan| && 0 <= q < |c.plan| && c.plan[p].Offline? && c.plan[q].Offline? ::
      c.plan[p].key == c.plan[q].key ==> c.plan[p].probe == c.plan[q].probe
  }

  lemma InitInv(c: Config)
    ensures Inv(c, Init(c))
  {
    TotalUniform(true, Init(c).pc, Start);
  }

  /** Two processes in the critical section work on different keys. */
  lemma {:induction false} MutualExclusion(c: Config, s: State, p: nat, q: nat)
    requires Shaped(c, s) && MutexesOk(c, s) && p < |c.plan| && q < |c.plan| && p != q
    requires Critical(s.pc[p]) && Critical(s.pc[q])
    ensures KeyOf(c, p) != KeyOf(c, q)
  {
    assert MutexOk(c, s, p) && MutexOk(c, s, q);
  }

  // ---------------------------------------------------------------- each step keeps it

  lemma SlotsStep(c: Config, s: State, p: nat, a: Answer)
    requires Shaped(c, s) && SlotsOk(c, s) && p < |c.plan| && CanStep(c, s, p)
    ensures SlotsOk(c, StepOf(c, s, p, a)) && StepsLeft(StepOf(c, s, p, a).pc) < StepsLeft(s.pc)
  {
    var s' := StepOf(c, s, p, a);
    TotalUpdate(true, s.pc, p, NextPc(c, s, p));
    TotalUpdate(false, s.pc, p, NextPc(c, s, p));
  }

  lemma MutexOther(c: Config, s: State, p: nat, a: Answer, q: nat)
    requires Shaped(c, s) && MutexesOk(c, s) && p < |c.plan| && q < |c.plan| && p != q && CanStep(c, s, p)
    ensures MutexOk(c, StepOf(c, s, p, a), q)
  {
    assert MutexOk(c, s, p) && MutexOk(c, s, q);
  }

  lemma MutexStep(c: Config, s: State, p: nat, a: Answer)
    requires Shaped(c, s) && MutexesOk(c, s) && p < |c.plan| && CanStep(c, s, p)
    ensures MutexesOk(c, StepOf(c, s, p, a))
  {
    var s' := StepOf(c, s, p, a);
    assert MutexOk(c, s, p);
    forall q | 0 <= q < |c.plan| ensures MutexOk(c, s', q) {
      if q != p { MutexOther(c, s, p, a, q); }
    }
  }

  lemma CacheOther(c: Config, s: State, p: nat, a: Answer, q: nat)
    requires Shaped(c, s) && p < |c.plan| && q < |c.plan| && p != q
    requires MutexesOk(c, s) && CacheOk(c, s, p) && CacheOk(c, s, q) && Consistent(c)
    ensures CacheOk(c, StepOf(c, s, p, a), q)
  {
    assert MutexOk(c, s, p);
    if Critical(s.pc[p]) && Critical(s.pc[q]) { MutualExclusion(c, s, p, q); }
  }

  lemma CacheSelf(c: Config, s: State, p: nat, a: Answer)
    requires Shaped(c, s) && MutexesOk(c, s) && CachesOk(c, s) && p < |c.plan|
    ensures CacheOk(c, StepOf(c, s, p, a), p)
  {
    assert MutexOk(c, s, p) && CacheOk(c, s, p);
    if s.pc[p].Recheck? && KeyOf(c, p) !in s.cache && KeyOf(c, p) in s.calls {
      var q :| 0 <= q < |c.plan| && s.pc[q].Store? && KeyOf(c, q) == KeyOf(c, p);
      MutualExclusion(c, s, p, q);
    }
  }

  lemma CallsStep(c: Config, s: State, p: nat, a: Answer)
    requires Shaped(c, s) && MutexesOk(c, s) && CachesOk(c, s) && p < |c.plan|
    ensures var s' := StepOf(c, s, p, a);
            NoDuplicates(s'.calls) && forall k | k in s'.calls :: k in s'.cache || Pending(c, s', k)
  {
    var s' := StepOf(c, s, p, a);
    assert MutexOk(c, s, p) && CacheOk(c, s, p);
    forall k | k in s'.calls ensures k in s'.cache || Pending(c, s', k) {
      if k in s.calls {
        if k !in s.cache {
          var q :| 0 <= q < |c.plan| && s.pc[q].Store? && KeyOf(c, q) == k;
          if q != p { assert s'.pc[q].Store?; }
        }
      } else {
        assert s'.pc[p].Store?;
      }
    }
  }

  lemma {:induction false} StepKeepsInv(c: Config, s: State, p: nat, a: Answer)
    requires Inv(c, s) && Consistent(c) && p < |c.plan| && CanStep(c, s, p)
    ensures Inv(c, StepOf(c, s, p, a)) && StepsLeft(StepOf(c, s, p, a).pc) < StepsLeft(s.pc)
  {
    hide StepOf, CacheOk, MutexOk, Pending;
    SlotsStep(c, s, p, a);
    MutexStep(c, s, p, a);
    CallsStep(c, s, p, a);
    forall q | 0 <= q < |c.plan| ensures CacheOk(c, StepOf(c, s, p, a), q) {
      if q == p { CacheSelf(c, s, p, a); } else { CacheOther(c, s, p, a, q); }
    }
  }

  // ---------------------------------------------------------------- schedules

  /** Who moves next, and what Check-Host would answer. */
  datatype Move = Move(p: nat, a: Answer)

  /** s' is reached from s by these moves, none of them blocked when it is made. */
  ghost predicate Executes(c: Config, s: State, moves: seq<Move>, s': State)
    requires Shaped(c, s)
    decreases |moves|
  {
    if moves == [] then s' == s
    else
      var p, a := moves[0].p, moves[0].a;
      p < |c.plan| && CanStep(c, s, p) && Executes(c, StepOf(c, s, p, a), moves[1..], s')
  }

  /** Every interleaving keeps the invariant and is at most eleven steps per proxy long. */
  lemma {:induction false} RunsKeepInv(c: Config, s: State, moves: seq<Move>, s': State)
    requires Consistent(c) && Inv(c, s) && Executes(c, s, moves, s')
    ensures Inv(c, s') && |moves| + StepsLeft(s'.pc) <= StepsLeft(s.pc)
    decreases |moves|
  {
    if moves != [] {
      StepKeepsInv(c, s, moves[0].p, moves[0].a);
      RunsKeepInv(c, StepOf(c, s, moves[0].p, moves[0].a), moves[1..], s');
    }
  }

  ghost predicate Finished(c: Config, s: State, p: nat)
    requires p < |c.plan|
  {
    p < |s.pc| && s.pc[p].Done?
  }

  /** At most one Check-Host request per key, in every interleaving. */
  lemma {:induction false} AtMostOneCallPerKey(c: Config, moves: seq<Move>, s: State)
    requires Consistent(c) && Executes(c, Init(c), moves, s)
    ensures forall i, j | 0 <= i < j < |s.calls| :: s.calls[i] != s.calls[j]
    ensures c.limit > 0 ==> InSlots(s.pc) <= c.limit
    ensures |moves| <= 11 * |c.plan|
  {
    hide StepOf, Executes, MutexesOk, CacheOk;
    InitInv(c);
    RunsKeepInv(c, Init(c), moves, s);
    TotalUniform(false, Init(c).pc, Start);
  }

  /** Finished offline proxies with the same key report the same cache entry, from one request if any was due. */
  lemma {:induction false} SameKeySameAnswer(c: Config, moves: seq<Move>, s: State, p: nat, q: nat)
    requires Consistent(c) && Executes(c, Init(c), moves, s)
    requires p < |c.plan| && q < |c.plan| && Finished(c, s, p) && Finished(c, s, q)
    requires c.plan[p].Offline? && c.plan[q].Offline? && c.plan[p].key == c.plan[q].key
    ensures |s.report| == |c.plan| && c.plan[p].key in s.cache
    ensures s.report[p] == s.report[q] == Some(Some(s.cache[c.plan[p].key]))
    ensures !c.plan[p].probe.NoProbe? ==> multiset(s.calls)[c.plan[p].key] == 1
  {
    InitInv(c);
    RunsKeepInv(c, Init(c), moves, s);
    assert CacheOk(c, s, p) && CacheOk(c, s, q);
    if c.plan[p].key in s.calls { OccursOnce(s.calls, c.plan[p].key); }
  }

  lemma OccursOnce(calls: seq<string>, key: string)
    requires NoDuplicates(calls) && key in calls
    ensures multiset(calls)[key] == 1
  {
    var i :| 0 <= i < |calls| && calls[i] == key;
    assert calls == calls[..i] + [key] + calls[i + 1..];
    assert key !in calls[..i] && key !in calls[i + 1..];
  }

  ghost predicate Movable(c: Config, s: State)
    requires Shaped(c, s)
  {
    exists p | 0 <= p < |c.plan| :: CanStep(c, s, p)
  }

  /** No deadlock: until every process is done, some process can move. */
  lemma {:induction false} SomeoneCanMove(c: Config, moves: seq<Move>, s: State)
    requires Consistent(c) && Executes(c, Init(c), moves, s)
    ensures Shaped(c, s)
    ensures (forall p | 0 <= p < |c.plan| :: s.pc[p].Done?) || Movable(c, s)
  {
    hide Executes, StepOf, CacheOk, MutexOk, Consistent, Init, Weight;
    InitInv(c);
    RunsKeepInv(c, Init(c), moves, s);
    NothingInSlots(s.pc);
    if !Movable(c, s) {
      forall p | 0 <= p < |c.plan| ensures s.pc[p].Start? || s.pc[p].Done? {
        NotBlockedInLock(c, s, p);
        assert !CanStep(c, s, p);
      }
      assert s.active == 0;
      forall p | 0 <= p < |c.plan| ensures s.pc[p].Done? { assert !CanStep(c, s, p); }
    }
  }

  lemma NothingInSlots(pcs: seq<PC>)
    ensures (forall p | 0 <= p < |pcs| :: pcs[p].Start? || pcs[p].Done?) ==> InSlots(pcs) == 0
  {
    if forall p | 0 <= p < |pcs| :: pcs[p].Start? || pcs[p].Done? { TotalUniform(true, pcs, Done); }
  }

  /** A process waiting for a mutex waits for one that can move. */
  lemma NotBlockedInLock(c: Config, s: State, p: nat)
    requires Inv(c, s) && p < |c.plan|
    ensures s.pc[p].Lock? ==> Movable(c, s)
  {
    if s.pc[p].Lock? && s.mu[p] in s.holder {
      assert CanStep(c, s, s.holder[s.mu[p]]);
    } else if s.pc[p].Lock? {
      assert CanStep(c, s, p);
    }
  }

  // ---------------------------------------------------------------- the proxies of a run

  /** A proxy as its probes find it; udp is what its protocol says, offline that no target could be reached. */
  datatype Job = Job(udp: bool, server: string, port: int, offline: bool)

  function PlanOf(j: Job): Plan {
    if j.offline && j.server != ""
    then Offline(CheckKey(j.udp, j.server, j.port), ProbeOf(j.udp, j.server, j.port))
    else Settled
  }

  function ConfigFor(jobs: seq<Job>, limit: int): (c: Config)
    ensures |c.plan| == |jobs| && c.limit == limit && forall i | 0 <= i < |jobs| :: c.plan[i] == PlanOf(jobs[i])
  {
    Config(seq(|jobs|, i requires 0 <= i < |jobs| => PlanOf(jobs[i])), limit)
  }

  lemma PlansConsistent(jobs: seq<Job>, limit: int)
    ensures Consistent(ConfigFor(jobs, limit))
  {
    hide CheckKey, ProbeOf;
    var c := ConfigFor(jobs, limit);
    forall p, q | 0 <= p < |c.plan| && 0 <= q < |c.plan| && c.plan[p].Offline? && c.plan[q].Offline?
        && c.plan[p].key == c.plan[q].key
      ensures c.plan[p].probe == c.plan[q].probe
    {
      var a, b := jobs[p], jobs[q];
      SameKeySameProbe(a.udp, a.server, a.port, b.udp, b.server, b.port);
    }
  }

  /** For any proxies and any interleaving: at most one request per key, bounded entry, and never a standstill. */
  lemma {:induction false} DiagnosticsSound(jobs: seq<Job>, limit: int, moves: seq<Move>, s: State)
    requires Executes(ConfigFor(jobs, limit), Init(ConfigFor(jobs, limit)), moves, s)
    ensures NoDuplicates(s.calls) && |moves| <= 11 * |jobs| && (limit > 0 ==> InSlots(s.pc) <= limit)
    ensures var c := ConfigFor(jobs, limit);
            Shaped(c, s) && ((forall p | 0 <= p < |jobs| :: s.pc[p].Done?) || Movable(c, s))
  {
    hide Executes, Consistent, ConfigFor;
    PlansConsistent(jobs, limit);
    AtMostOneCallPerKey(ConfigFor(jobs, limit), moves, s);
    SomeoneCanMove(ConfigFor(jobs, limit), moves, s);
  }

  // ---------------------------------------------------------------- what is asked, and what is reported

  /** Request number i is the one the proxy of process p calls for. */
  ghost predicate AskedFor(c: Config, s: State, i: nat, p: nat) {
    && p < |c.plan| && i < |s.calls| && i < |s.asked|
    && Asks(c, p) && c.plan[p].key == s.calls[i] && c.plan[p].probe == s.asked[i].probe
  }

  ghost predicate AskedForSome(c: Config, s: State, i: nat) {
    exists p: nat :: AskedFor(c, s, i, p)
  }

  /** Request number i was for this key and got this answer. */
  ghost predicate AnsweredAt(s: State, i: nat, key: string, entry: Answer) {
    i < |s.calls| && i < |s.asked| && s.calls[i] == key && s.asked[i].answer == entry
  }

  /** What process p may report: an answer to a request for its key, or Nothing where none is made. */
  ghost predicate EntryOk(c: Config, s: State, p: nat, entry: Answer)
    requires p < |c.plan|
  {
    if Asks(c, p) then exists i: nat :: AnsweredAt(s, i, KeyOf(c, p), entry) else entry == Nothing
  }

  ghost predicate EntriesOk(c: Config, s: State, p: nat)
    requires Shaped(c, s) && p < |c.plan|
  {
    c.plan[p].Offline? ==>
      && (s.seen[p].Some? ==> EntryOk(c, s, p, s.seen[p].value))
      && (c.plan[p].key in s.cache ==> EntryOk(c, s, p, s.cache[c.plan[p].key]))
  }

  /** Requests are those of offline proxies, and whatever was cached or read is an answer to one. */
  ghost predicate AskedOk(c: Config, s: State)
    requires Shaped(c, s)
  {
    && |s.asked| == |s.calls|
    && (forall i: nat | i < |s.calls| :: AskedForSome(c, s, i))
    && (forall p | 0 <= p < |c.plan| :: EntriesOk(c, s, p))
  }

  lemma EntryStays(c: Config, s: State, p: nat, a: Answer, q: nat, entry: Answer)
    requires Shaped(c, s) && p < |c.plan| && q < |c.plan| && |s.asked| == |s.calls| && EntryOk(c, s, q, entry)
    ensures EntryOk(c, StepOf(c, s, p, a), q, entry)
  {
    var s' := StepOf(c, s, p, a);
    if Asks(c, q) {
      var i: nat :| AnsweredAt(s, i, KeyOf(c, q), entry);
      assert AnsweredAt(s', i, KeyOf(c, q), entry);
    }
  }

  lemma AskedStays(c: Config, s: State, p: nat, a: Answer, i: nat)
    requires Shaped(c, s) && p < |c.plan| && |s.asked| == |s.calls|
    requires i < |s.calls| ==> AskedForSome(c, s, i)
    ensures i < |StepOf(c, s, p, a).calls| ==> AskedForSome(c, StepOf(c, s, p, a), i)
  {
    var s' := StepOf(c, s, p, a);
    if i < |s.calls| {
      var q: nat :| AskedFor(c, s, i, q);
      assert AskedFor(c, s', i, q);
    } else if i < |s'.calls| {
      assert AskedFor(c, s', i, p);
    }
  }

  /** Entries of the moving process, and those of its key, are fresh answers or old ones. */
  lemma EntriesStep(c: Config, s: State, p: nat, a: Answer, q: nat)
    requires Inv(c, s) && Consistent(c) && AskedOk(c, s) && p < |c.plan| && q < |c.plan|
    ensures EntriesOk(c, StepOf(c, s, p, a), q)
  {
    hide EntryOk, CacheOk;
    var s' := StepOf(c, s, p, a);
    assert MutexOk(c, s, p) && EntriesOk(c, s, p) && EntriesOk(c, s, q);
    forall e | EntryOk(c, s, q, e) ensures EntryOk(c, s', q, e) { EntryStays(c, s, p, a, q, e); }
    if c.plan[q].Offline? && c.plan[p].Offline? && c.plan[p].key == c.plan[q].key {
      forall e ensures EntryOk(c, s, p, e) == EntryOk(c, s, q, e) { SameKeySameEntries(c, s, p, q, e); }
    }
    if p == q && s.pc[p].Call? { CallAnswered(c, s, p, a); }
  }

  lemma SameKeySameEntries(c: Config, s: State, p: nat, q: nat, e: Answer)
    requires Consistent(c) && p < |c.plan| && q < |c.plan|
    requires c.plan[q].Offline? && c.plan[p].Offline? && c.plan[p].key == c.plan[q].key
    ensures EntryOk(c, s, p, e) == EntryOk(c, s, q, e)
  {
    assert KeyOf(c, p) == KeyOf(c, q) && Asks(c, p) == Asks(c, q);
  }

  lemma CallAnswered(c: Config, s: State, p: nat, a: Answer)
    requires Shaped(c, s) && p < |c.plan| && |s.asked| == |s.calls| && s.pc[p].Call?
    ensures var s' := StepOf(c, s, p, a); s'.seen[p].Some? && EntryOk(c, s', p, s'.seen[p].value)
  {
    var s' := StepOf(c, s, p, a);
    if Asks(c, p) { assert AnsweredAt(s', |s.calls|, KeyOf(c, p), a); }
  }

  lemma AskedStep(c: Config, s: State, p: nat, a: Answer)
    requires Inv(c, s) && Consistent(c) && AskedOk(c, s) && p < |c.plan|
    ensures AskedOk(c, StepOf(c, s, p, a))
  {
    hide EntriesOk, AskedForSome, SlotsOk, MutexesOk, CachesOk;
    var s' := StepOf(c, s, p, a);
    forall i: nat | i < |s'.calls| ensures AskedForSome(c, s', i) { AskedStays(c, s, p, a, i); }
    forall q | 0 <= q < |c.plan| ensures EntriesOk(c, s', q) { EntriesStep(c, s, p, a, q); }
  }

  /** Requests are added at the end, each with the answer its move was given. */
  ghost predicate Grows(s: State, s': State, moves: seq<Move>) {
    && |s.asked| <= |s'.asked| && s.asked == s'.asked[..|s.asked|]
    && forall i | |s.asked| <= i < |s'.asked| :: Gives(moves, s'.asked[i].answer)
  }

  ghost predicate Gives(moves: seq<Move>, a: Answer) {
    exists j | 0 <= j < |moves| :: moves[j].a == a
  }

  lemma GrowsStep(c: Config, s: State, s': State, moves: seq<Move>)
    requires Shaped(c, s) && moves != [] && moves[0].p < |c.plan|
    requires Grows(StepOf(c, s, moves[0].p, moves[0].a), s', moves[1..])
    ensures Grows(s, s', moves)
  {
    var mid := StepOf(c, s, moves[0].p, moves[0].a);
    forall i | |s.asked| <= i < |s'.asked| ensures Gives(moves, s'.asked[i].answer) {
      if i < |mid.asked| {
        assert s'.asked[i] == s'.asked[..|mid.asked|][i];
        assert moves[0].a == s'.asked[i].answer;
      } else {
        var j :| 0 <= j < |moves[1..]| && moves[1..][j].a == s'.asked[i].answer;
        assert moves[j + 1].a == s'.asked[i].answer;
      }
    }
    assert s.asked == mid.asked[..|s.asked|] == s'.asked[..|mid.asked|][..|s.asked|];
  }

  lemma {:induction false} RunsKeepAsked(c: Config, s: State, moves: seq<Move>, s': State)
    requires Consistent(c) && Inv(c, s) && AskedOk(c, s) && Executes(c, s, moves, s')
    ensures Inv(c, s') && AskedOk(c, s') && Grows(s, s', moves)
    decreases |moves|
  {
    hide SlotsOk, MutexesOk, CachesOk, AskedOk, StepOf, Grows;
    if moves != [] {
      var p, a := moves[0].p, moves[0].a;
      StepKeepsInv(c, s, p, a);
      AskedStep(c, s, p, a);
      RunsKeepAsked(c, StepOf(c, s, p, a), moves[1..], s');
      GrowsStep(c, s, s', moves);
    } else {
      GrowsNot(s);
    }
  }

  lemma GrowsNot(s: State)
    ensures Grows(s, s, [])
  {
  }

  lemma InitAsked(c: Config)
    ensures AskedOk(c, Init(c))
  {
  }

  /** The key and the request Check-Host is asked with for an offline proxy; a TCP proxy needs a port. */
  predicate IsRequestOf(j: Job, key: string, probe: Probe) {
    && j.offline && j.server != ""
    && if j.udp then key == "ping:" + j.server && probe == Ping(j.server)
       else j.port > 0 && key == "tcp:" + j.server + ":" + Itoa(j.port) && probe == Tcp(j.server, j.port)
  }

  /** Request number i is the only one with its key, is the one made for this proxy, and got this answer. */
  ghost predicate OnlyRequest(s: State, j: Job, i: nat, entry: Answer) {
    && i < |s.calls| == |s.asked| && IsRequestOf(j, s.calls[i], s.asked[i].probe) && s.asked[i].answer == entry
    && forall k | 0 <= k < |s.calls| && k != i :: s.calls[k] != s.calls[i]
  }

  lemma PlanMeans(j: Job)
    ensures PlanOf(j).Offline? <==> j.offline && j.server != ""
    ensures PlanOf(j).Offline? ==>
              && PlanOf(j).key == (if j.udp then "ping:" + j.server else "tcp:" + j.server + ":" + Itoa(j.port))
              && (PlanOf(j).probe.NoProbe? <==> !j.udp && j.port <= 0)
              && (!PlanOf(j).probe.NoProbe? ==> IsRequestOf(j, PlanOf(j).key, PlanOf(j).probe))
  {
    hide Itoa;
    assert "tcp:" + (j.server + [':'] + Itoa(j.port)) == "tcp:" + j.server + ":" + Itoa(j.port);
  }

  /** Nobody is asked about but offline proxies with a server, each for what it needs. */
  lemma RequestsAreDue(jobs: seq<Job>, limit: int, moves: seq<Move>, s: State, i: nat)
    requires Executes(ConfigFor(jobs, limit), Init(ConfigFor(jobs, limit)), moves, s) && i < |s.calls|
    ensures |s.asked| == |s.calls|
    ensures exists p :: 0 <= p < |jobs| && IsRequestOf(jobs[p], s.calls[i], s.asked[i].probe)
  {
    hide Executes, Inv, Consistent, PlanOf, IsRequestOf;
    var c := ConfigFor(jobs, limit);
    AskedAlong(jobs, limit, moves, s);
    assert AskedForSome(c, s, i);
    var p: nat :| AskedFor(c, s, i, p);
    PlanMeans(jobs[p]);
    assert IsRequestOf(jobs[p], s.calls[i], s.asked[i].probe);
  }

  lemma AskedAlong(jobs: seq<Job>, limit: int, moves: seq<Move>, s: State)
    requires Executes(ConfigFor(jobs, limit), Init(ConfigFor(jobs, limit)), moves, s)
    ensures Inv(ConfigFor(jobs, limit), s) && AskedOk(ConfigFor(jobs, limit), s) && Consistent(ConfigFor(jobs, limit))
    ensures |s.asked| == |s.calls| && forall i | 0 <= i < |s.asked| :: Gives(moves, s.asked[i].answer)
  {
    hide Executes, Consistent, ConfigFor, SlotsOk, MutexesOk, CachesOk;
    var c := ConfigFor(jobs, limit);
    PlansConsistent(jobs, limit);
    InitInv(c);
    InitAsked(c);
    RunsKeepAsked(c, Init(c), moves, s);
  }

  /**
   What a finished proxy reports, in every interleaving. Offline with a server: the answer to the only request with its
   key, or Nothing and no request for a TCP proxy without a port. Any other: no entry.
   */
  lemma ReportsMean(jobs: seq<Job>, limit: int, moves: seq<Move>, s: State, p: nat)
    requires Executes(ConfigFor(jobs, limit), Init(ConfigFor(jobs, limit)), moves, s)
    requires p < |jobs| && Finished(ConfigFor(jobs, limit), s, p)
    ensures |s.report| == |jobs|
    ensures !(jobs[p].offline && jobs[p].server != "") ==> s.report[p] == Some(None)
    ensures jobs[p].offline && jobs[p].server != "" && (jobs[p].udp || jobs[p].port > 0) ==>
              exists i: nat, entry :: s.report[p] == Some(Some(entry)) && OnlyRequest(s, jobs[p], i, entry)
                                      && Gives(moves, entry)
    ensures jobs[p].offline && jobs[p].server != "" && !jobs[p].udp && jobs[p].port <= 0 ==>
              s.report[p] == Some(Some(Nothing)) && "tcp:" + jobs[p].server + ":" + Itoa(jobs[p].port) !in s.calls
  {
    hide Executes, Consistent, PlanOf, IsRequestOf, SlotsOk, MutexesOk, Itoa;
    var c := ConfigFor(jobs, limit);
    AskedAlong(jobs, limit, moves, s);
    PlanMeans(jobs[p]);
    assert CacheOk(c, s, p) && EntriesOk(c, s, p);
    if c.plan[p].Offline? {
      if Asks(c, p) {
        var entry := s.seen[p].value;
        var i: nat :| AnsweredAt(s, i, KeyOf(c, p), entry);
        RequestFor(c, s, i, p);
        assert OnlyRequest(s, jobs[p], i, entry);
      } else {
        NotAskedFor(c, s, p);
      }
    }
  }

  lemma RequestFor(c: Config, s: State, i: nat, p: nat)
    requires Consistent(c) && Shaped(c, s) && AskedOk(c, s) && p < |c.plan| && Asks(c, p) && i < |s.calls|
    requires s.calls[i] == KeyOf(c, p)
    ensures s.asked[i].probe == c.plan[p].probe
  {
    assert AskedForSome(c, s, i);
    var q: nat :| AskedFor(c, s, i, q);
  }

  lemma NotAskedFor(c: Config, s: State, p: nat)
    requires Consistent(c) && Shaped(c, s) && AskedOk(c, s) && p < |c.plan| && c.plan[p].Offline? && !Asks(c, p)
    ensures c.plan[p].key !in s.calls
  {
    forall i | 0 <= i < |s.calls| ensures s.calls[i] != c.plan[p].key {
      assert AskedForSome(c, s, i);
      var q: nat :| AskedFor(c, s, i, q);
    }
  }
}
