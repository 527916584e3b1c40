/** What the login limiter answers, in terms of the requests made: the failures that count, and the lock they set. */
module LoginProofs {
  import opened Options
  import opened AuthLimiter

  /**
   The times of the failures that count against an address: those since its last success, from the first, or from the
   first that came more than a window after the one it would have been counted with.
   */
  function Counting(l: Limits, run: seq<Event>, ip: string): seq<int> {
    if run == [] then []
    else
      var before, e := Counting(l, run[..|run| - 1], ip), run[|run| - 1];
      if e.ip != ip || e.Check? then before
      else if e.Success? then []
      else if before == [] || e.now - before[0] > l.window then [e.now]
      else before + [e.now]
  }

  /** The record those failures make: the last of them locks if there are enough. */
  ghost predicate Reflects(l: Limits, m: Records, ip: string, times: seq<int>) {
    && (ip in m <==> times != [])
    && (ip in m ==>
          && m[ip].count == |times| && m[ip].firstFail == times[0]
          && m[ip].lockedUntil == if |times| >= l.maxFailures then Some(times[|times| - 1] + l.lock) else None)
  }

  lemma {:induction false} TableReflects(l: Limits, run: seq<Event>, ip: string)
    ensures Reflects(l, End(l, map[], run, false), ip, Counting(l, run, ip))
  {
    hide Step, Reflects;
    if run == [] {
      NothingReflects(l, ip);
    } else {
      var n := |run| - 1;
      TableReflects(l, run[..n], ip);
      EndLast(l, map[], run[..n], run[n], false);
      assert run[..n] + [run[n]] == run;
      StepReflects(l, End(l, map[], run[..n], false), run[n], ip, Counting(l, run[..n], ip));
    }
  }

  lemma NothingReflects(l: Limits, ip: string)
    ensures Reflects(l, End(l, map[], [], false), ip, Counting(l, [], ip))
  {
  }

  lemma StepReflects(l: Limits, m: Records, e: Event, ip: string, before: seq<int>)
    requires Reflects(l, m, ip, before)
    ensures Reflects(l, Step(l, m, e, false), ip,
                if e.ip != ip || e.Check? then before
                else if e.Success? then []
                else if before == [] || e.now - before[0] > l.window then [e.now]
                else before + [e.now])
  {
  }

  /** The answer to one more request, given the failures that count. */
  ghost predicate Answers(l: Limits, e: Event, times: seq<int>, a: Answer) {
    match e
    case Check(_, now) => a == Locked(times != [] && |times| >= l.maxFailures && now < times[|times| - 1] + l.lock)
    case Fail(_, now) =>
      var n := if times == [] || now - times[0] > l.window then 1 else |times| + 1;
      a == Recorded(n >= l.maxFailures, n)
    case Success(_, _) => a == Forgotten
  }

  lemma ReplyAnswers(l: Limits, m: Records, e: Event, times: seq<int>)
    requires Reflects(l, m, e.ip, times)
    ensures Answers(l, e, times, Reply(l, m, e, false))
  {
  }

  /** Every answer of every run of a limiter that never sweeps. */
  lemma AnswersMean(l: Limits, run: seq<Event>, e: Event)
    ensures var r := Replies(l, map[], run + [e], false);
            |r| == |run| + 1 && Answers(l, e, Counting(l, run, e.ip), r[|run|])
  {
    hide Replies, End, Reflects, Answers;
    LastReply(l, map[], run, e, false);
    TableReflects(l, run, e.ip);
    ReplyAnswers(l, End(l, map[], run, false), e, Counting(l, run, e.ip));
  }

  /** And of one that does, under settings that make the sweep invisible. */
  lemma SweepingAnswersMean(l: Limits, run: seq<Event>, e: Event, from: int)
    requires l.window <= 600_000_000_000 || (l.maxFailures <= 1 && l.lock >= l.window)
    requires Nondecreasing(from, run + [e])
    ensures var r := Replies(l, map[], run + [e], true);
            |r| == |run| + 1 && Answers(l, e, Counting(l, run, e.ip), r[|run|])
  {
    hide Replies, Counting, Answers;
    AnswersMean(l, run, e);
    SweepInvisible(l, map[], map[], run + [e], from);
  }
}
