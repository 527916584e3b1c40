/** The token bucket in front of the Check-Host API. Times and levels are real numbers, in seconds and tokens. */
module RateLimiter {

  datatype Bucket = Bucket(tokens: real, last: real)

  datatype Limits = Limits(rate: real, burst: real)

  /** Tokens that flow in between two instants. */
  function Inflow(rate: real, from: real, to: real): real {
    (to - from) * rate
  }

  function Level(l: Limits, b: Bucket, now: real): real {
    var t := b.tokens + Inflow(l.rate, b.last, now);
    if t > l.burst then l.burst else t
  }

  function Granted(l: Limits, b: Bucket, now: real): bool {
    Level(l, b, now) >= 1.0
  }

  function Poll(l: Limits, b: Bucket, now: real): Bucket {
    Bucket(if Granted(l, b, now) then Level(l, b, now) - 1.0 else Level(l, b, now), now)
  }

  /** How long a refused caller is told to sleep. */
  function WaitTime(l: Limits, b: Bucket): real
    requires l.rate > 0.0
  {
    (1.0 - b.tokens) / l.rate
  }

  class TokenBucket {
    const limits: Limits
    var tokens: real
    var lastRefill: real

    constructor (rate: real, burst: int, now: real)
      ensures limits == Limits(rate, burst as real) && tokens == burst as real && lastRefill == now
    {
      limits := Limits(rate, burst as real);
      tokens, lastRefill := burst as real, now;
    }

    function View(): Bucket
      reads this
    {
      Bucket(tokens, lastRefill)
    }

    /** One turn of the loop, the part under the lock: granted, or the time to sleep. */
    method Attempt(now: real) returns (granted: bool, sleep: real)
      requires limits.rate > 0.0
      modifies this
      ensures granted == Granted(limits, old(View()), now) && View() == Poll(limits, old(View()), now)
      ensures !granted ==> sleep == WaitTime(limits, View())
    {
      var elapsed := now - lastRefill;
      assert elapsed * limits.rate == Inflow(limits.rate, lastRefill, now);
      hide Inflow;
      lastRefill := now;
      tokens := tokens + elapsed * limits.rate;
      if tokens > limits.burst { tokens := limits.burst; }
      if tokens >= 1.0 {
        tokens := tokens - 1.0;
        return true, 0.0;
      }
      var needed := 1.0 - tokens;
      return false, needed / limits.rate;
    }

    /** The whole loop, given the clock readings it gets before its context ends. */
    method Wait(clock: seq<real>) returns (granted: bool, used: nat)
      requires limits.rate > 0.0
      modifies this
      ensures used <= |clock| && View() == After(limits, old(View()), clock[..used])
      ensures granted ==> used > 0 && Grants(limits, old(View()), clock[..used]) == 1
                                   && Granted(limits, After(limits, old(View()), clock[..used - 1]), clock[used - 1])
      ensures !granted ==> used == |clock| && Grants(limits, old(View()), clock) == 0
    {
      ghost var start := View();
      used := 0;
      while used < |clock|
        invariant used <= |clock| && View() == After(limits, start, clock[..used])
        invariant Grants(limits, start, clock[..used]) == 0
      {
        ghost var before := View();
        var sleep: real;
        granted, sleep := Attempt(clock[used]);
        assert clock[..used + 1][..used] == clock[..used];
        used := used + 1;
        if granted { return; }
      }
      assert clock[..|clock|] == clock;
      return false, used;
    }
  }

  // ---------------------------------------------------------------- traces

  /** The bucket after the given attempts, whoever made them. */
  function After(l: Limits, b: Bucket, times: seq<real>): Bucket {
    if times == [] then b else Poll(l, After(l, b, times[..|times| - 1]), times[|times| - 1])
  }

  function Grants(l: Limits, b: Bucket, times: seq<real>): nat {
    if times == [] then 0
    else
      var init := times[..|times| - 1];
      Grants(l, b, init) + if Granted(l, After(l, b, init), times[|times| - 1]) then 1 else 0
  }

  ghost predicate Nondecreasing(from: real, times: seq<real>) {
    (forall i | 0 <= i < |times| :: from <= times[i]) && forall i, j | 0 <= i < j < |times| :: times[i] <= times[j]
  }

  ghost predicate Valid(l: Limits, b: Bucket) {
    l.rate >= 0.0 && 0.0 <= b.tokens <= l.burst
  }

  /** The grants among the attempts numbered i to k - 1. */
  function GrantsFrom(l: Limits, b: Bucket, times: seq<real>, i: nat): int
    requires i <= |times|
  {
    Grants(l, b, times) - Grants(l, b, times[..i])
  }

  lemma InflowAdds(rate: real, r: real, s: real, t: real)
    ensures Inflow(rate, r, s) + Inflow(rate, s, t) == Inflow(rate, r, t)
    ensures Inflow(rate, s, s) == 0.0
  {
  }

  lemma InflowGrows(rate: real, s: real, t: real)
    requires rate >= 0.0 && s <= t
    ensures Inflow(rate, s, t) >= 0.0
  {
  }

  /** One attempt in linear terms. */
  lemma PollLevel(l: Limits, b: Bucket, now: real)
    requires Valid(l, b) && b.last <= now
    ensures Valid(l, Poll(l, b, now)) && Poll(l, b, now).last == now
    ensures Level(l, b, now) <= l.burst && Level(l, b, now) <= b.tokens + Inflow(l.rate, b.last, now)
    ensures Level(l, b, now) == l.burst || Level(l, b, now) == b.tokens + Inflow(l.rate, b.last, now)
    ensures Poll(l, b, now).tokens == Level(l, b, now) - if Granted(l, b, now) then 1.0 else 0.0
  {
    InflowGrows(l.rate, b.last, now);
    hide Inflow;
  }

  lemma {:induction false} AfterValid(l: Limits, b: Bucket, times: seq<real>)
    requires Valid(l, b) && Nondecreasing(b.last, times)
    ensures Valid(l, After(l, b, times))
    ensures After(l, b, times).last == if times == [] then b.last else times[|times| - 1]
  {
    hide Poll, Valid;
    if times != [] {
      var n := |times| - 1;
      AfterValid(l, b, times[..n]);
      PollLevel(l, After(l, b, times[..n]), times[n]);
    }
  }

  /** What attempt number i leaves of the budget by time now. */
  function Budget(l: Limits, b: Bucket, times: seq<real>, i: nat, now: real): real
    requires i < |times|
  {
    l.burst + Inflow(l.rate, times[i], now) - GrantsFrom(l, b, times, i) as real
  }

  /** The last attempt's part in the count. */
  lemma GrantsLast(l: Limits, b: Bucket, times: seq<real>, i: nat)
    requires i < |times|
    ensures var init := times[..|times| - 1];
            GrantsFrom(l, b, times, i) == (if i < |init| then GrantsFrom(l, b, init, i) else 0)
                                          + (if Granted(l, After(l, b, init), times[|times| - 1]) then 1 else 0)
  {
    hide After, Granted;
    var init := times[..|times| - 1];
    assert init[..i] == times[..i];
  }

  /** From any attempt on, grants never exceed the burst plus what flowed in: a bound on every window of every trace. */
  lemma {:induction false} WindowBound(l: Limits, b: Bucket, times: seq<real>, i: nat)
    requires Valid(l, b) && Nondecreasing(b.last, times) && i < |times|
    ensures After(l, b, times).tokens <= Budget(l, b, times, i, times[|times| - 1])
  {
    hide Inflow, Poll, Granted, Level, Grants, GrantsFrom, Valid;
    var n := |times| - 1;
    var init := times[..n];
    AfterValid(l, b, init);
    PollLevel(l, After(l, b, init), times[n]);
    GrantsLast(l, b, times, i);
    if i < n {
      WindowBound(l, b, init, i);
      InflowAdds(l.rate, times[i], init[n - 1], times[n]);
    } else {
      InflowAdds(l.rate, times[n], times[n], times[n]);
    }
  }

  /** At most burst + rate * T grants in any window of length T. */
  lemma GrantsInWindow(l: Limits, b: Bucket, times: seq<real>, i: nat, j: nat)
    requires Valid(l, b) && Nondecreasing(b.last, times) && i < j <= |times|
    ensures (Grants(l, b, times[..j]) - Grants(l, b, times[..i])) as real <= l.burst
              + (times[j - 1] - times[i]) * l.rate
  {
    assert (times[j - 1] - times[i]) * l.rate == Inflow(l.rate, times[i], times[j - 1]);
    hide After, Grants, Inflow;
    assert times[..j][..i] == times[..i];
    WindowBound(l, b, times[..j], i);
    AfterValid(l, b, times[..j]);
    assert Budget(l, b, times[..j], i, times[j - 1]) >= 0.0;
  }

  /** Started full, the level is exactly the least of those budgets. */
  lemma {:induction false} LevelIsLeastBudget(l: Limits, b: Bucket, times: seq<real>) returns (i: nat)
    requires Valid(l, b) && b.tokens == l.burst && Nondecreasing(b.last, times) && times != []
    ensures i < |times| && After(l, b, times).tokens == Budget(l, b, times, i, times[|times| - 1])
  {
    hide Inflow, Poll, Granted, Level, Grants, GrantsFrom, Valid;
    var n := |times| - 1;
    var init, t := times[..n], times[n];
    AfterValid(l, b, init);
    var before := After(l, b, init);
    PollLevel(l, before, t);
    InflowAdds(l.rate, t, t, t);
    if Level(l, before, t) == l.burst {
      i := n;
    } else if n > 0 {
      i := LevelIsLeastBudget(l, b, init);
      InflowAdds(l.rate, times[i], init[n - 1], t);
    } else {
      FullStaysFull(l, b, t);
    }
    GrantsLast(l, b, times, i);
  }

  lemma FullStaysFull(l: Limits, b: Bucket, now: real)
    requires Valid(l, b) && b.tokens == l.burst && b.last <= now
    ensures Level(l, b, now) == l.burst
  {
    InflowGrows(l.rate, b.last, now);
    hide Inflow;
  }

  /**
   The limiter is exact: an attempt is granted just when one more grant breaks the bound of no window ending there.
   */
  lemma GrantedIffWithinBounds(l: Limits, b: Bucket, times: seq<real>, now: real)
    requires Valid(l, b) && b.tokens == l.burst && Nondecreasing(b.last, times)
    requires forall i | 0 <= i < |times| :: times[i] <= now
    requires b.last <= now
    ensures Granted(l, After(l, b, times), now) <==>
            && l.burst >= 1.0
            && forall i | 0 <= i < |times| ::
                (GrantsFrom(l, b, times, i) + 1) as real <= l.burst + Inflow(l.rate, times[i], now)
  {
    hide Inflow, After, Poll, Level, GrantsFrom, Valid;
    var level := Level(l, After(l, b, times), now);
    AfterValid(l, b, times);
    PollLevel(l, After(l, b, times), now);
    forall i | 0 <= i < |times|
        ensures level <= l.burst + Inflow(l.rate, times[i], now) - GrantsFrom(l, b, times, i) as real {
      WindowBound(l, b, times, i);
      InflowAdds(l.rate, times[i], times[|times| - 1], now);
    }
    if times == [] {
      AfterNothing(l, b);
      FullStaysFull(l, b, now);
    } else {
      var i := LevelIsLeastBudget(l, b, times);
      InflowAdds(l.rate, times[i], times[|times| - 1], now);
      assert level == l.burst || level == Budget(l, b, times, i, now);
      assert level < 1.0 ==>
               l.burst < 1.0 || (GrantsFrom(l, b, times, i) + 1) as real > l.burst + Inflow(l.rate, times[i], now);
    }
  }

  lemma AfterNothing(l: Limits, b: Bucket)
    ensures After(l, b, []) == b
  {
  }

  // ---------------------------------------------------------------- failed attempts

  /** A refused attempt changes no later level. */
  lemma RefusalInvisible(l: Limits, b: Bucket, now: real, later: real)
    requires l.rate >= 0.0 && b.last <= now <= later && !Granted(l, b, now)
    ensures Level(l, Poll(l, b, now), later) == Level(l, b, later)
  {
    InflowGrows(l.rate, now, later);
    InflowAdds(l.rate, b.last, now, later);
    hide Inflow;
  }

  /** Hence leaving a refused attempt out of a trace changes nothing that follows it. */
  lemma {:induction false} WithoutRefusal(l: Limits, b: Bucket, now: real, rest: seq<real>)
    requires l.rate >= 0.0 && b.last <= now && !Granted(l, b, now) && Nondecreasing(now, rest)
    ensures Grants(l, Poll(l, b, now), rest) == Grants(l, b, rest)
    ensures rest != [] ==> After(l, Poll(l, b, now), rest) == After(l, b, rest)
  {
    hide Level;
    if rest != [] {
      var n := |rest| - 1;
      WithoutRefusal(l, b, now, rest[..n]);
      if n == 0 { RefusalInvisible(l, b, now, rest[0]); }
    }
  }

  // ---------------------------------------------------------------- a lone waiter

  /** After a refusal the next attempt is granted exactly if the sleep was at least the computed time. */
  lemma WakesInTime(l: Limits, b: Bucket, now: real, slept: real)
    requires l.rate > 0.0 && b.last <= now && !Granted(l, b, now) && slept >= 0.0
    ensures Granted(l, Poll(l, b, now), now + slept) <==> l.burst >= 1.0 && slept >= WaitTime(l, Poll(l, b, now))
  {
    hide Poll, Granted, Inflow, WaitTime;
    var p := Poll(l, b, now);
    PollLast(l, b, now);
    WaitIsEnough(l, p, slept);
    InflowOf(l.rate, now, slept);
    GrantedLevel(l, p, now + slept);
  }

  lemma PollLast(l: Limits, b: Bucket, now: real)
    ensures Poll(l, b, now).last == now
  {
    hide Granted, Level;
  }

  lemma InflowOf(rate: real, now: real, slept: real)
    ensures Inflow(rate, now, now + slept) == slept * rate
  {
  }

  lemma GrantedLevel(l: Limits, b: Bucket, now: real)
    ensures Granted(l, b, now) <==> l.burst >= 1.0 && b.tokens + Inflow(l.rate, b.last, now) >= 1.0
  {
    hide Inflow;
  }

  lemma WaitIsEnough(l: Limits, p: Bucket, slept: real)
    requires l.rate > 0.0
    ensures slept >= WaitTime(l, p) <==> p.tokens + slept * l.rate >= 1.0
  {
    var needed := 1.0 - p.tokens;
    QuotientTimes(needed, l.rate);
    if slept >= WaitTime(l, p) {
      NotShorter(l.rate, WaitTime(l, p), slept);
    } else {
      Shorter(l.rate, slept, WaitTime(l, p));
    }
  }

  lemma QuotientTimes(needed: real, rate: real)
    requires rate > 0.0
    ensures (needed / rate) * rate == needed
  {
  }

  lemma NotShorter(rate: real, s: real, t: real)
    requires rate > 0.0 && s <= t
    ensures s * rate <= t * rate
  {
  }

  lemma Shorter(rate: real, s: real, t: real)
    requires rate > 0.0 && s < t
    ensures s * rate < t * rate
  {
  }

  const SECOND := 1_000_000_000.0

  /** time.Duration(seconds * 1e9) for a duration that is not negative. */
  function Truncated(seconds: real): real {
    (seconds * SECOND).Floor as real / SECOND
  }

  /** The sleep is cut to whole nanoseconds: it is long enough only if nothing was cut, and one more always is. */
  lemma TruncatedSleep(l: Limits, b: Bucket, now: real)
    requires l.rate > 0.0 && b.last <= now && !Granted(l, b, now) && l.burst >= 1.0
    ensures var p := Poll(l, b, now);
            var w := WaitTime(l, p);
            && (Granted(l, p, now + Truncated(w)) <==> Truncated(w) == w)
            && Granted(l, p, now + (Truncated(w) + 1.0 / SECOND))
  {
    hide Granted;
    var p := Poll(l, b, now);
    var w := WaitTime(l, p);
    RefusedBelowOne(l, b, now);
    assert w * l.rate == 1.0 - p.tokens;
    if w <= 0.0 { NotShorter(l.rate, w, 0.0); }
    var n := (w * SECOND).Floor;
    assert n as real <= w * SECOND < n as real + 1.0;
    assert w * SECOND >= 0.0;
    assert 0.0 <= Truncated(w) <= w < Truncated(w) + 1.0 / SECOND;
    WakesInTime(l, b, now, Truncated(w));
    WakesInTime(l, b, now, Truncated(w) + 1.0 / SECOND);
  }

  lemma RefusedBelowOne(l: Limits, b: Bucket, now: real)
    requires !Granted(l, b, now)
    ensures Poll(l, b, now).tokens < 1.0
  {
  }
}
