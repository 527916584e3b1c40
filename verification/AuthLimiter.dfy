/** The lockout after failed logins, and the sweep that keeps its table small. Times are whole nanoseconds. */
module AuthLimiter {
  import opened Options
  import opened Text

  /** lockedUntil is None where the source has the zero time, which lies before every reading of the clock. */
  datatype Record = Record(count: int, firstFail: int, lockedUntil: Option<int>)

  type Records = map<string, Record>

  datatype Limits = Limits(maxFailures: int, lock: int, window: int)

  const TEN_MINUTES := 600_000_000_000
  const CROWDED := 1000

  function IsLocked(m: Records, ip: string, now: int): bool {
    ip in m && m[ip].lockedUntil.Some? && now < m[ip].lockedUntil.value
  }

  predicate Stale(r: Record, now: int) {
    now - r.firstFail > TEN_MINUTES && (r.lockedUntil.Some? ==> now > r.lockedUntil.value)
  }

  function Swept(m: Records, now: int): (r: Records)
    ensures forall k :: k in r <==> k in m && !(|m| > CROWDED && Stale(m[k], now))
    ensures forall k | k in r :: r[k] == m[k]
  {
    if |m| > CROWDED then map k | k in m && !Stale(m[k], now) :: m[k] else m
  }

  function Counted(l: Limits, m: Records, ip: string, now: int): Record {
    if ip !in m || now - m[ip].firstFail > l.window then Record(1, now, None)
    else m[ip].(count := m[ip].count + 1)
  }

  function Failed(l: Limits, m: Records, ip: string, now: int): Record {
    var r := Counted(l, m, ip, now);
    if r.count >= l.maxFailures then r.(lockedUntil := Some(now + l.lock)) else r
  }

  /** What the middleware answers. */
  datatype Status = TooManyRequests | Unauthorized | Passed

  class Limiter {
    const limits: Limits
    var failures: Records

    constructor (maxFailures: int, lock: int, window: int)
      ensures limits == Limits(maxFailures, lock, window) && failures == map[]
    {
      limits := Limits(maxFailures, lock, window);
      failures := map[];
    }

    method CheckLocked(ip: string, now: int) returns (locked: bool)
      ensures locked == IsLocked(failures, ip, now)
    {
      if ip !in failures { return false; }
      return failures[ip].lockedUntil.Some? && now < failures[ip].lockedUntil.value;
    }

    method RecordFailure(ip: string, now: int) returns (locked: bool, count: int)
      modifies this
      ensures failures == Swept(old(failures), now)[ip := Failed(limits, Swept(old(failures), now), ip, now)]
      ensures count == failures[ip].count && locked == (count >= limits.maxFailures)
    {
      if |failures| > CROWDED { Sweep(now); }
      if ip !in failures || now - failures[ip].firstFail > limits.window {
        failures := failures[ip := Record(1, now, None)];
      } else {
        failures := failures[ip := failures[ip].(count := failures[ip].count + 1)];
      }
      if failures[ip].count >= limits.maxFailures {
        failures := failures[ip := failures[ip].(lockedUntil := Some(now + limits.lock))];
        return true, failures[ip].count;
      }
      return false, failures[ip].count;
    }

    method Sweep(now: int)
      modifies this
      ensures failures == map k | k in old(failures) && !Stale(old(failures)[k], now) :: old(failures)[k]
    {
      ghost var was := failures;
      var todo := failures.Keys;
      while todo != {}
        invariant todo <= failures.Keys <= was.Keys
        invariant forall k | k in failures :: failures[k] == was[k] && (k !in todo ==> !Stale(was[k], now))
        invariant forall k | k in was && k !in failures :: Stale(was[k], now)
      {
        var k :| k in todo;
        todo := todo - {k};
        if Stale(failures[k], now) { failures := failures - {k}; }
      }
    }

    method RecordSuccess(ip: string)
      modifies this
      ensures failures == old(failures) - {ip}
    {
      failures := failures - {ip};
    }

    /** The middleware around one request; the clock is read once for the check and once for the record. */
    method Authenticate(ip: string, valid: bool, checkedAt: int, failedAt: int) returns (status: Status)
      modifies this
      ensures status == if IsLocked(old(failures), ip, checkedAt) then TooManyRequests else if valid then Passed
                else Unauthorized
      ensures failures == match status
                          case TooManyRequests => old(failures)
                          case Passed => old(failures) - {ip}
                          case Unauthorized =>
                            var m := Swept(old(failures), failedAt);
                            m[ip := Failed(limits, m, ip, failedAt)]
    {
      var locked := CheckLocked(ip, checkedAt);
      if locked { return TooManyRequests; }
      if !valid {
        var now, count := RecordFailure(ip, failedAt);
        return Unauthorized;
      }
      RecordSuccess(ip);
      return Passed;
    }
  }

  // ---------------------------------------------------------------- runs

  datatype Event = Check(ip: string, now: int) | Fail(ip: string, now: int) | Success(ip: string, now: int)
  datatype Answer = Locked(locked: bool) | Recorded(nowLocked: bool, count: int) | Forgotten

  function AfterFail(l: Limits, m: Records, ip: string, now: int): Records {
    m[ip := Failed(l, m, ip, now)]
  }

  /** One call; sweeping says whether the table is swept, as the source does, or left to grow. */
  function Step(l: Limits, m: Records, e: Event, sweeping: bool): Records {
    match e
    case Check(_, _) => m
    case Fail(ip, now) => AfterFail(l, if sweeping then Swept(m, now) else m, ip, now)
    case Success(ip, _) => m - {ip}
  }

  function Reply(l: Limits, m: Records, e: Event, sweeping: bool): Answer {
    match e
    case Check(ip, now) => Locked(IsLocked(m, ip, now))
    case Fail(ip, now) =>
      var r := Failed(l, if sweeping then Swept(m, now) else m, ip, now);
      Recorded(r.count >= l.maxFailures, r.count)
    case Success(_, _) => Forgotten
  }

  function Replies(l: Limits, m: Records, run: seq<Event>, sweeping: bool): seq<Answer>
    decreases |run|
  {
    if run == [] then []
    else [Reply(l, m, run[0], sweeping)] + Replies(l, Step(l, m, run[0], sweeping), run[1..], sweeping)
  }

  function Final(l: Limits, m: Records, run: seq<Event>): Records
    decreases |run|
  {
    if run == [] then m else Final(l, Step(l, m, run[0], true), run[1..])
  }

  ghost predicate Nondecreasing(from: int, run: seq<Event>) {
    (forall i | 0 <= i < |run| :: from <= run[i].now) && forall i, j | 0 <= i < j < |run| :: run[i].now <= run[j].now
  }

  // ---------------------------------------------------------------- how much one record absorbs

  /** No failure is recorded for an address that is locked: the check and the record are one step. */
  ghost predicate Guarded(l: Limits, m: Records, run: seq<Event>)
    decreases |run|
  {
    run == [] ||
    ((run[0].Fail? ==> !IsLocked(m, run[0].ip, run[0].now)) && Guarded(l, Step(l, m, run[0], true), run[1..]))
  }

  function Threshold(l: Limits): int {
    if l.maxFailures > 1 then l.maxFailures else 1
  }

  /** Once locking, each further failure came a whole lock after the one before, and still within the window. */
  ghost predicate Spaced(l: Limits, r: Record) {
    && r.count >= 1
    && (r.count < Threshold(l) ==> r.lockedUntil == None)
    && (r.count >= Threshold(l) ==>
          && r.lockedUntil.Some?
          && r.lockedUntil.value - l.lock >= r.firstFail + (r.count - Threshold(l)) * l.lock
          && (r.count == 1 || r.lockedUntil.value - l.lock <= r.firstFail + l.window))
  }

  ghost predicate AllSpaced(l: Limits, m: Records) {
    forall ip | ip in m :: Spaced(l, m[ip])
  }

  lemma FailSpaced(l: Limits, m: Records, ip: string, now: int)
    requires l.lock > 0 && AllSpaced(l, m) && !IsLocked(m, ip, now) && (ip in m ==> m[ip].firstFail <= now)
    ensures Spaced(l, Failed(l, m, ip, now))
  {
    if ip in m && now - m[ip].firstFail <= l.window {
      var r := m[ip];
      assert Spaced(l, r);
      if r.count >= Threshold(l) {
        assert (r.count + 1 - Threshold(l)) * l.lock == (r.count - Threshold(l)) * l.lock + l.lock;
      }
    }
  }

  ghost predicate Past(m: Records, now: int) {
    forall ip | ip in m :: m[ip].firstFail <= now
  }

  lemma StepSpaced(l: Limits, m: Records, e: Event)
    requires l.lock > 0 && AllSpaced(l, m) && Past(m, e.now) && (e.Fail? ==> !IsLocked(m, e.ip, e.now))
    ensures AllSpaced(l, Step(l, m, e, true)) && Past(Step(l, m, e, true), e.now)
  {
    hide Spaced, Failed;
    if e.Fail? {
      FailSpaced(l, Swept(m, e.now), e.ip, e.now);
      FirstFailPast(l, Swept(m, e.now), e.ip, e.now);
    }
  }

  lemma FirstFailPast(l: Limits, m: Records, ip: string, now: int)
    requires Past(m, now)
    ensures Failed(l, m, ip, now).firstFail <= now
  {
  }

  lemma {:induction false} RunSpaced(l: Limits, m: Records, run: seq<Event>, from: int)
    requires l.lock > 0 && AllSpaced(l, m) && Past(m, from) && Nondecreasing(from, run) && Guarded(l, m, run)
    ensures AllSpaced(l, Final(l, m, run))
    decreases |run|
  {
    hide Step, AllSpaced;
    if run != [] {
      var e := run[0];
      assert forall i | 0 <= i < |run[1..]| :: run[1..][i] == run[i + 1];
      StepSpaced(l, m, e);
      RunSpaced(l, Step(l, m, e, true), run[1..], e.now);
    }
  }

  /** In every run, whatever other addresses do, one record absorbs at most maxFailures + window / lock failures. */
  lemma FailuresPerRecord(l: Limits, run: seq<Event>, from: int, ip: string)
    requires l.lock > 0 && l.window >= 0 && Nondecreasing(from, run) && Guarded(l, map[], run)
    ensures var m := Final(l, map[], run); ip in m ==> 1 <= m[ip].count <= Threshold(l) + l.window / l.lock
  {
    hide Final;
    RunSpaced(l, map[], run, from);
    var m := Final(l, map[], run);
    if ip in m && m[ip].count > Threshold(l) {
      var extra := m[ip].count - Threshold(l);
      assert Spaced(l, m[ip]);
      assert extra * l.lock <= l.window;
      Quotient(extra, l.lock, l.window);
    } else if ip in m {
      assert Spaced(l, m[ip]);
      Quotient(0, l.lock, l.window);
    }
  }

  lemma Quotient(n: int, d: int, w: int)
    requires d > 0 && n * d <= w
    ensures n <= w / d
  {
    Remainder(w, d);
    if n > w / d { Monotone(w / d + 1, n, d); }
  }

  lemma Remainder(w: int, d: int)
    requires d > 0
    ensures w < (w / d + 1) * d && (w / d) * d <= w
  {
    assert w == (w / d) * d + w % d;
  }

  /** The given number of failures of one address, all at once. */
  function Together(ip: string, at: int, n: nat): seq<Event> {
    if n == 0 then [] else [Fail(ip, at)] + Together(ip, at, n - 1)
  }

  /** Failures number j to q, each at the instant the lock set by the one before ends. */
  function Patient(ip: string, at: int, lock: int, j: nat, q: nat): seq<Event>
    decreases q - j + 1
  {
    if j > q then [] else [Fail(ip, at + j * lock)] + Patient(ip, at, lock, j + 1, q)
  }

  lemma {:induction false} PatientCounts(l: Limits, ip: string, at: int, j: nat, q: nat)
    requires l.lock > 0 && 1 <= j <= q + 1 && q * l.lock <= l.window
    ensures var m := map[ip := Record(Threshold(l) + j - 1, at, Some(at + j * l.lock))];
            && Guarded(l, m, Patient(ip, at, l.lock, j, q))
            && Final(l, m, Patient(ip, at, l.lock, j, q))
                == map[ip := Record(Threshold(l) + q, at, Some(at + (q + 1) * l.lock))]
    decreases q - j + 1
  {
    hide Step, IsLocked;
    if j <= q {
      Monotone(j, q, l.lock);
      Distribute(j, l.lock);
      OneMore(l, ip, Record(Threshold(l) + j - 1, at, Some(at + j * l.lock)), at + j * l.lock);
      PatientCounts(l, ip, at, j + 1, q);
      assert Patient(ip, at, l.lock, j, q)[1..] == Patient(ip, at, l.lock, j + 1, q);
    }
  }

  lemma Distribute(a: int, d: int)
    ensures (a + 1) * d == a * d + d
  {
  }

  /** A guarded failure within the window adds one to the record. */
  lemma OneMore(l: Limits, ip: string, r: Record, now: int)
    requires now - r.firstFail <= l.window && (r.lockedUntil.Some? ==> now >= r.lockedUntil.value)
    ensures var next := r.(count := r.count + 1);
            && !IsLocked(map[ip := r], ip, now)
            && Step(l, map[ip := r], Fail(ip, now), true)
               == map[ip := if next.count >= l.maxFailures then next.(lockedUntil := Some(now + l.lock)) else next]
  {
    var m := map[ip := r];
    assert Swept(m, now) == m;
  }

  lemma Monotone(a: int, b: int, d: int)
    requires d > 0 && a <= b
    ensures a * d <= b * d
  {
  }

  lemma {:induction false} TogetherCounts(l: Limits, ip: string, at: int, n: nat, rest: seq<Event>)
    requires l.lock > 0 && l.window >= 0 && n < Threshold(l)
    ensures var m := map[ip := Record(Threshold(l) - n, at, if n == 0 then Some(at + l.lock) else None)];
            var locked := map[ip := Record(Threshold(l), at, Some(at + l.lock))];
            && (Guarded(l, locked, rest) ==> Guarded(l, m, Together(ip, at, n) + rest))
            && Final(l, m, Together(ip, at, n) + rest) == Final(l, locked, rest)
    decreases n
  {
    hide Step, IsLocked;
    if n == 0 {
      assert [] + rest == rest;
    } else {
      OneMore(l, ip, Record(Threshold(l) - n, at, None), at);
      assert (Together(ip, at, n) + rest)[1..] == Together(ip, at, n - 1) + rest;
      TogetherCounts(l, ip, at, n - 1, rest);
    }
  }

  /** The bound is met: a caller that waits out each lock reaches it, for any settings. */
  lemma BoundMet(l: Limits, ip: string, at: int)
    requires l.lock > 0 && l.window >= 0
    ensures var run := Together(ip, at, Threshold(l)) + Patient(ip, at, l.lock, 1, Whole(l.window, l.lock));
            && Guarded(l, map[], run) && ip in Final(l, map[], run)
            && Final(l, map[], run)[ip].count == Threshold(l) + l.window / l.lock
  {
    hide Final, Guarded, Together, Patient, Threshold;
    Quotient(0, l.lock, l.window);
    Remainder(l.window, l.lock);
    PatientBurst(l, ip, at, Whole(l.window, l.lock));
  }

  /** How many whole locks fit in the window. */
  function Whole(window: int, lock: int): (n: nat)
    requires lock > 0 && window >= 0
    ensures n == window / lock
  {
    Quotient(0, lock, window);
    window / lock
  }

  lemma PatientBurst(l: Limits, ip: string, at: int, q: nat)
    requires l.lock > 0 && l.window >= 0 && q * l.lock <= l.window
    ensures var run := Together(ip, at, Threshold(l)) + Patient(ip, at, l.lock, 1, q);
            Guarded(l, map[], run) && ip in Final(l, map[], run) && Final(l, map[], run)[ip].count == Threshold(l) + q
  {
    hide Final, Guarded, Threshold;
    var n := Threshold(l) - 1;
    ThresholdPositive(l);
    var rest := Patient(ip, at, l.lock, 1, q);
    var run := Together(ip, at, n + 1) + rest;
    PatientCounts(l, ip, at, 1, q);
    TogetherCounts(l, ip, at, n, rest);
    assert run[1..] == Together(ip, at, n) + rest;
    FirstStep(l, ip, at, run);
  }

  lemma ThresholdPositive(l: Limits)
    ensures Threshold(l) >= 1
  {
  }

  lemma FirstStep(l: Limits, ip: string, at: int, run: seq<Event>)
    requires run != [] && run[0] == Fail(ip, at)
    ensures var first := map[ip := Record(1, at, if Threshold(l) == 1 then Some(at + l.lock) else None)];
            Final(l, map[], run) == Final(l, first, run[1..])
                && (Guarded(l, first, run[1..]) ==> Guarded(l, map[], run))
  {
    assert Swept(map[], at) == map[];
    assert Step(l, map[], Fail(ip, at), true)
        == map[ip := Record(1, at, if Threshold(l) == 1 then Some(at + l.lock) else None)];
    hide Step;
  }

  // ---------------------------------------------------------------- when the sweep shows

  /**
   Settings under which a record can be old enough to be swept and yet count: a long window, and locks that a
   record outlives - always so if one failure does not lock.
   */
  predicate SweepShows(l: Limits) {
    l.window > TEN_MINUTES && (l.maxFailures > 1 || l.lock < l.window)
  }

  /** What every record of a run satisfies. */
  ghost predicate Held(l: Limits, r: Record, now: int) {
    && r.count >= 1 && r.firstFail <= now
    && (l.maxFailures <= 1 ==> r.lockedUntil.Some? && r.lockedUntil.value >= r.firstFail + l.lock)
  }

  ghost predicate AllHeld(l: Limits, m: Records, now: int) {
    forall ip | ip in m :: Held(l, m[ip], now)
  }

  /** A record the next failure would reset anyway and that no longer locks. */
  ghost predicate Dead(l: Limits, r: Record, now: int) {
    now - r.firstFail > l.window && (r.lockedUntil.Some? ==> now > r.lockedUntil.value)
  }

  lemma StaleIsDead(l: Limits, r: Record, now: int)
    requires !SweepShows(l) && Held(l, r, now) && Stale(r, now)
    ensures Dead(l, r, now)
  {
  }

  /** The swept table lacks only dead records. */
  ghost predicate Mirrors(l: Limits, m: Records, full: Records, now: int) {
    && (forall ip | ip in m :: ip in full && full[ip] == m[ip])
    && (forall ip | ip in full && ip !in m :: Dead(l, full[ip], now))
    && AllHeld(l, full, now)
  }

  lemma MirrorsLater(l: Limits, m: Records, full: Records, from: int, now: int)
    requires Mirrors(l, m, full, from) && from <= now
    ensures Mirrors(l, m, full, now)
  {
  }

  lemma SweptMirrors(l: Limits, m: Records, full: Records, now: int)
    requires !SweepShows(l) && Mirrors(l, m, full, now)
    ensures Mirrors(l, Swept(m, now), full, now)
  {
    hide Dead, Held, Stale, SweepShows;
    var s := Swept(m, now);
    forall ip | ip in full && ip !in s ensures Dead(l, full[ip], now) {
      if ip in m { StaleIsDead(l, full[ip], now); }
    }
  }

  lemma FailAlike(l: Limits, m: Records, full: Records, ip: string, now: int)
    requires Mirrors(l, m, full, now)
    ensures Failed(l, m, ip, now) == Failed(l, full, ip, now) && Held(l, Failed(l, full, ip, now), now)
  {
    assert ip in full ==> Held(l, full[ip], now);
    assert ip in full && ip !in m ==> Dead(l, full[ip], now);
  }

  lemma StepMirrors(l: Limits, m: Records, full: Records, e: Event, from: int)
    requires !SweepShows(l) && Mirrors(l, m, full, from) && from <= e.now
    ensures Mirrors(l, Step(l, m, e, true), Step(l, full, e, false), e.now)
    ensures Reply(l, m, e, true) == Reply(l, full, e, false)
  {
    hide Swept, Failed, Mirrors, SweepShows;
    MirrorsLater(l, m, full, from, e.now);
    match e
    case Check(ip, now) => LockedAlike(l, m, full, ip, now);
    case Fail(ip, now) =>
      SweptMirrors(l, m, full, now);
      FailAlike(l, Swept(m, now), full, ip, now);
      SetMirrors(l, Swept(m, now), full, ip, Failed(l, full, ip, now), now);
    case Success(ip, now) => ForgetMirrors(l, m, full, ip, now);
  }

  lemma LockedAlike(l: Limits, m: Records, full: Records, ip: string, now: int)
    requires Mirrors(l, m, full, now)
    ensures IsLocked(m, ip, now) == IsLocked(full, ip, now)
  {
    assert ip in full && ip !in m ==> Dead(l, full[ip], now);
  }

  lemma SetMirrors(l: Limits, m: Records, full: Records, ip: string, r: Record, now: int)
    requires Mirrors(l, m, full, now) && Held(l, r, now)
    ensures Mirrors(l, m[ip := r], full[ip := r], now)
  {
    hide Held, Dead;
  }

  lemma ForgetMirrors(l: Limits, m: Records, full: Records, ip: string, now: int)
    requires Mirrors(l, m, full, now)
    ensures Mirrors(l, m - {ip}, full - {ip}, now)
  {
    hide Held, Dead;
  }

  /** Otherwise sweeping changes no answer of any run. */
  lemma {:induction false} SweepInvisible(l: Limits, m: Records, full: Records, run: seq<Event>, from: int)
    requires !SweepShows(l) && Mirrors(l, m, full, from) && Nondecreasing(from, run)
    ensures Replies(l, m, run, true) == Replies(l, full, run, false)
    decreases |run|
  {
    hide Step, Reply, Mirrors, SweepShows;
    if run != [] {
      assert forall i | 0 <= i < |run[1..]| :: run[1..][i] == run[i + 1];
      StepMirrors(l, m, full, run[0], from);
      SweepInvisible(l, Step(l, m, run[0], true), Step(l, full, run[0], false), run[1..], run[0].now);
    }
  }

  /** The table after a run, swept or not. */
  function End(l: Limits, m: Records, run: seq<Event>, sweeping: bool): Records
    decreases |run|
  {
    if run == [] then m else End(l, Step(l, m, run[0], sweeping), run[1..], sweeping)
  }

  lemma {:induction false} LastReply(l: Limits, m: Records, run: seq<Event>, e: Event, sweeping: bool)
    ensures var r := Replies(l, m, run + [e], sweeping);
            |r| == |run| + 1 && r[|run|] == Reply(l, End(l, m, run, sweeping), e, sweeping)
    decreases |run|
  {
    hide Step, Reply;
    if run == [] {
      assert (run + [e])[0] == e && (run + [e])[1..] == [];
    } else {
      assert (run + [e])[1..] == run[1..] + [e] && (run + [e])[0] == run[0];
      LastReply(l, Step(l, m, run[0], sweeping), run[1..], e, sweeping);
    }
  }

  lemma {:induction false} EndLast(l: Limits, m: Records, run: seq<Event>, e: Event, sweeping: bool)
    ensures End(l, m, run + [e], sweeping) == Step(l, End(l, m, run, sweeping), e, sweeping)
    decreases |run|
  {
    hide Step;
    if run == [] {
      assert (run + [e])[0] == e && (run + [e])[1..] == [];
    } else {
      assert (run + [e])[1..] == run[1..] + [e] && (run + [e])[0] == run[0];
      EndLast(l, Step(l, m, run[0], sweeping), run[1..], e, sweeping);
    }
  }

  /** One failure each of n addresses, all at time 0, and the table they make. */
  function Crowd(n: nat): seq<Event> {
    if n == 0 then [] else Crowd(n - 1) + [Fail(Utoa(n - 1), 0)]
  }

  function First(l: Limits): Record {
    Record(1, 0, if l.maxFailures <= 1 then Some(l.lock) else None)
  }

  function CrowdTable(l: Limits, n: nat): Records {
    if n == 0 then map[] else CrowdTable(l, n - 1)[Utoa(n - 1) := First(l)]
  }

  lemma {:induction false} CrowdTableShape(l: Limits, n: nat)
    ensures |CrowdTable(l, n)| == n
    ensures forall ip | ip in CrowdTable(l, n) :: CrowdTable(l, n)[ip] == First(l)
    ensures forall k: nat | k < n :: Utoa(k) in CrowdTable(l, n)
    ensures forall k: nat | k >= n :: Utoa(k) !in CrowdTable(l, n)
  {
    if n > 0 {
      CrowdTableShape(l, n - 1);
      forall k: nat | k >= n ensures Utoa(k) != Utoa(n - 1) {
        ValueOfUtoa(k);
        ValueOfUtoa(n - 1);
      }
    }
  }

  lemma {:induction false} CrowdEnds(l: Limits, n: nat, sweeping: bool)
    ensures End(l, map[], Crowd(n), sweeping) == CrowdTable(l, n)
    ensures forall i | 0 <= i < |Crowd(n)| :: Crowd(n)[i].now == 0
  {
    hide Step, Utoa;
    if n > 0 {
      CrowdEnds(l, n - 1, sweeping);
      EndLast(l, map[], Crowd(n - 1), Fail(Utoa(n - 1), 0), sweeping);
      CrowdStep(l, n - 1, sweeping);
    }
  }

  lemma CrowdStep(l: Limits, n: nat, sweeping: bool)
    ensures Step(l, CrowdTable(l, n), Fail(Utoa(n), 0), sweeping) == CrowdTable(l, n + 1)
  {
    hide Utoa;
    CrowdTableShape(l, n);
    var m := CrowdTable(l, n);
    assert forall ip | ip in m :: !Stale(m[ip], 0);
    assert Swept(m, 0) == m;
  }

  /** A crowd, and then a second failure of one of it at the end of its window. */
  function CrowdedRun(l: Limits): seq<Event> {
    Crowd(CROWDED + 1) + [Fail(Utoa(0), l.window)]
  }

  lemma SweepShowsOn(l: Limits)
    requires SweepShows(l)
    ensures Nondecreasing(0, CrowdedRun(l))
              && Replies(l, map[], CrowdedRun(l), true) != Replies(l, map[], CrowdedRun(l), false)
  {
    hide Replies, Reply, CrowdTable, Crowd, Utoa, End;
    var crowd, e := Crowd(CROWDED + 1), Fail(Utoa(0), l.window);
    CrowdEnds(l, CROWDED + 1, true);
    CrowdEnds(l, CROWDED + 1, false);
    LastReply(l, map[], crowd, e, true);
    LastReply(l, map[], crowd, e, false);
    SecondCountDiffers(l);
    InOrder(crowd, e);
  }

  lemma InOrder(run: seq<Event>, e: Event)
    requires e.now >= 0 && forall i | 0 <= i < |run| :: run[i].now == 0
    ensures Nondecreasing(0, run + [e])
  {
  }

  lemma SecondCountDiffers(l: Limits)
    requires SweepShows(l)
    ensures var m, e := CrowdTable(l, CROWDED + 1), Fail(Utoa(0), l.window);
            Reply(l, m, e, true) != Reply(l, m, e, false)
  {
    CrowdTableShape(l, CROWDED + 1);
    hide CrowdTable, Utoa;
    var m, ip := CrowdTable(l, CROWDED + 1), Utoa(0);
    assert ip in m && m[ip] == First(l);
    assert Stale(First(l), l.window);
    assert ip !in Swept(m, l.window);
  }

  /** Sweeping is invisible over every run exactly under the other settings. */
  lemma SweepInvisibleIff(l: Limits)
    ensures (forall from, run | Nondecreasing(from, run) ::
              Replies(l, map[], run, true) == Replies(l, map[], run, false))
         <==> l.window <= 600_000_000_000 || (l.maxFailures <= 1 && l.lock >= l.window)
  {
    hide Replies, CrowdedRun;
    if SweepShows(l) {
      SweepShowsOn(l);
    } else {
      forall from, run | Nondecreasing(from, run)
          ensures Replies(l, map[], run, true) == Replies(l, map[], run, false) {
        SweepInvisible(l, map[], map[], run, from);
      }
    }
  }

  /** Call by call: one failure's answer changes exactly when its own live record is swept. */
  lemma SweepSeen(l: Limits, m: Records, ip: string, now: int)
    requires AllSpaced(l, m)
    ensures Reply(l, m, Fail(ip, now), true) != Reply(l, m, Fail(ip, now), false) <==>
              && |m| > 1000 && ip in m && 600_000_000_000 < now - m[ip].firstFail <= l.window
              && (m[ip].lockedUntil.Some? ==> now > m[ip].lockedUntil.value)
  {
    hide Swept;
    if ip in m { assert Spaced(l, m[ip]); }
  }
}
