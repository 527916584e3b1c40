/** Dropping the proxies the core refuses to build: reading the culprit from the error text, and the retry loop. */
module Pruning {
  import opened Options
  import opened Text
  import opened ValidatedConfig

  const MARKER := "with tag "
  const CHAIN := " > "

  function ExtractFailingOutboundTag(message: string): string {
    var i := Find(message, MARKER);
    if i < 0 then ""
    else
      var rest := message[i + |MARKER|..];
      var j := Find(rest, CHAIN);
      Trim(if j >= 0 then rest[..j] else rest)
  }

  /** The documented shape of a build error. */
  function Message(prefix: string, tag: string, reason: string): string {
    prefix + (MARKER + (tag + (CHAIN + reason)))
  }

  /** Names that can be read back from an error message. */
  ghost predicate CleanName(name: string) {
    !Occurs(name, CHAIN) && SpaceAhead(name) == 0
  }

  /** Names that also come through the configuration file unchanged. */
  ghost predicate SafeName(name: string) {
    CleanName(name) && ValidUtf8(name)
  }

  lemma MarkerFound(prefix: string, rest: string)
    requires !Occurs(prefix, MARKER)
    ensures Find(prefix + (MARKER + rest), MARKER) == |prefix|
  {
    hide Find;
    var s := prefix + (MARKER + rest);
    assert OccursAt(s, MARKER, |prefix|);
    assert s[|prefix|] == 'w';
    forall i | 0 <= i < |prefix| ensures !OccursAt(s, MARKER, i) {
      if i + |MARKER| <= |prefix| {
        assert prefix[i..i + |MARKER|] == s[i..i + |MARKER|];
        assert !OccursAt(prefix, MARKER, i);
      } else {
        NotAt(s, MARKER, i, |prefix| - i);
      }
    }
  }

  lemma NotAt(s: string, part: string, i: nat, d: nat)
    requires d < |part| && i + d < |s| && s[i + d] != part[d]
    ensures !OccursAt(s, part, i)
  {
    assert i + |part| <= |s| ==> s[i..i + |part|][d] == s[i + d];
  }

  /** The end of the tag is found exactly when the name does not hold the separator. */
  lemma TagEnd(p: Node, reason: string)
    ensures Find(OutboundTag(p) + (CHAIN + reason), CHAIN) == |OutboundTag(p)| <==> !Occurs(p.name, CHAIN)
    ensures 0 <= Find(OutboundTag(p) + (CHAIN + reason), CHAIN) <= |OutboundTag(p)|
  {
    hide Find, Itoa;
    var tag := OutboundTag(p);
    var s := tag + (CHAIN + reason);
    ItoaHasNo(p.index, ' ');
    assert OccursAt(s, CHAIN, |tag|);
    assert s[|p.name|] == '_';
    forall i | 0 <= i < |tag| ensures OccursAt(s, CHAIN, i) <==> OccursAt(p.name, CHAIN, i) {
      if i > |p.name| {
        assert s[i] == Itoa(p.index)[i - |p.name| - 1];
        NotAt(s, CHAIN, i, 0);
      } else if i + |CHAIN| > |p.name| {
        NotAt(s, CHAIN, i, |p.name| - i);
      } else {
        assert s[i..i + |CHAIN|] == p.name[i..i + |CHAIN|];
      }
    }
  }

  /** A tag in a build error is read back exactly for clean names. */
  lemma TagReadBack(prefix: string, p: Node, reason: string)
    requires !Occurs(prefix, MARKER)
    ensures ExtractFailingOutboundTag(Message(prefix, OutboundTag(p), reason)) == OutboundTag(p) <==> CleanName(p.name)
  {
    hide Find, Itoa, TrimLeft, TrimRight, Trim, Occurs;
    var tag := OutboundTag(p);
    var rest := tag + (CHAIN + reason);
    MarkerFound(prefix, rest);
    var message := Message(prefix, tag, reason);
    assert message[|prefix| + |MARKER|..] == rest;
    TagEnd(p, reason);
    var j := Find(rest, CHAIN);
    TagTrimmed(p);
    if j == |tag| {
      assert rest[..j] == tag;
    } else {
      TrimShrinks(rest[..j]);
    }
  }

  /**
   The core complains of the tag it read from the file, and this is taken for the proxy's own exactly for safe names.
   */
  lemma ReadsBack(prefix: string, p: Node, reason: string)
    requires !Occurs(prefix, MARKER)
    ensures ExtractFailingOutboundTag(Message(prefix, Coerced(OutboundTag(p)), reason)) == OutboundTag(p) <==>
              SafeName(p.name)
  {
    hide Message, OutboundTag, CleanName, Occurs, ExtractFailingOutboundTag, Coerced, ValidUtf8;
    var q := CoercedNode(p);
    OutboundTagCoerced(p);
    TagReadBack(prefix, q, reason);
    CoercedMeans(p.name);
    CoercedMeans(OutboundTag(p));
    NameInTag(p);
    if !ValidUtf8(p.name) { ExtractedValid(prefix, q, reason) by { CoercedValid(p.name); } }
  }

  lemma NameInTag(p: Node)
    ensures ValidUtf8(OutboundTag(p)) <==> ValidUtf8(p.name)
  {
    hide Itoa, ValidUtf8;
    ItoaAscii(p.index);
    AsciiValid(['_'] + Itoa(p.index));
    ValidConcat(p.name, ['_'] + Itoa(p.index));
    assert OutboundTag(p) == p.name + (['_'] + Itoa(p.index));
  }

  /** What is read back from a valid tag is valid. */
  lemma ExtractedValid(prefix: string, p: Node, reason: string)
    requires !Occurs(prefix, MARKER) && ValidUtf8(p.name)
    ensures ValidUtf8(ExtractFailingOutboundTag(Message(prefix, OutboundTag(p), reason)))
  {
    hide Find, OutboundTag, Trim, Occurs, ValidUtf8;
    var tag := OutboundTag(p);
    var rest := tag + (CHAIN + reason);
    MarkerFound(prefix, rest);
    assert Message(prefix, tag, reason)[|prefix| + |MARKER|..] == rest;
    TagEnd(p, reason);
    NameInTag(p);
    var j := Find(rest, CHAIN);
    assert OccursAt(rest, CHAIN, j) && CHAIN[0] == ' ';
    assert rest[j..j + |CHAIN|][0] == ' ';
    assert j < |tag| ==> tag[j] == ' ';
    assert rest[..j] == tag[..j] && tag == tag[..j] + tag[j..];
    ValidConcat(tag[..j], tag[j..]);
    TrimValid(tag[..j]);
  }

  lemma TrimShrinks(s: string)
    ensures |Trim(s)| <= |s|
  {
  }

  lemma TagTrimmed(p: Node)
    ensures Trim(OutboundTag(p)) == OutboundTag(p) <==> SpaceAhead(p.name) == 0
  {
    hide Itoa, TrimLeft, TrimRight, Trim;
    var tag, n := OutboundTag(p), Itoa(p.index);
    assert tag[|tag| - 1] == n[|n| - 1];
    assert IsDigit(n[|n| - 1]) || n[|n| - 1] == '-' by { if |n| > 1 { assert n[|n| - 1] == n[1..][|n| - 2]; } }
    VisibleEnds(tag);
    UnderscoreAfter(p.name, n);
    hide SpaceAhead, SpaceBehind;
  }

  /** The character after a name completes no white space. */
  lemma UnderscoreAfter(name: string, more: string)
    ensures SpaceAhead(name + ['_'] + more) == 0 <==> SpaceAhead(name) == 0
  {
    var s := name + ['_'] + more;
    assert forall i | 0 <= i < |name| :: s[i] == name[i];
    assert s[|name|] == '_';
  }

  /** For one, a name that starts with a no-break space (U+00A0) is not clean. */
  lemma NoBreakSpaceNotClean(name: string)
    requires |name| >= 2 && name[0] == '\U{C2}' && name[1] == '\U{A0}'
    ensures !CleanName(name)
  {
    hide Occurs;
  }

  /** Nor is a name that is not UTF-8 safe, clean or not: for one, a name that starts with the byte FF. */
  lemma LoneByteNotSafe(name: string)
    requires name != "" && name[0] == '\U{FF}'
    ensures !SafeName(name)
  {
    hide CleanName;
  }

  /** Any message: the tag is what stands, trimmed, between the first "with tag " and the " > " after it, or the end. */
  lemma ExtractMeans(message: string, prefix: string, rest: string, tag: string, reason: string)
    ensures !Occurs(message, "with tag ") ==> ExtractFailingOutboundTag(message) == ""
    ensures message == prefix + ("with tag " + rest) && !Occurs(prefix, "with tag ") && !Occurs(rest, " > ") ==>
              ExtractFailingOutboundTag(message) == Trim(rest)
    ensures message == prefix + ("with tag " + rest) && !Occurs(prefix, "with tag ")
              && rest == tag + (" > " + reason) && (forall i | 0 <= i < |tag| :: !OccursAt(rest, " > ", i)) ==>
              ExtractFailingOutboundTag(message) == Trim(tag)
  {
    hide Find, Trim, Occurs;
    if message == prefix + ("with tag " + rest) && !Occurs(prefix, "with tag ") {
      MarkerFound(prefix, rest);
      assert message[|prefix| + |MARKER|..] == rest;
      if rest == tag + (" > " + reason) && (forall i | 0 <= i < |tag| :: !OccursAt(rest, " > ", i)) {
        assert rest[..|tag|] == tag;
        FoundAt(rest, CHAIN, |tag|);
      }
    }
  }

  lemma FoundAt(s: string, part: string, k: nat)
    requires OccursAt(s, part, k) && forall i | 0 <= i < k :: !OccursAt(s, part, i)
    ensures Find(s, part) == k
  {
    hide Find;
  }

  // ---------------------------------------------------------------- the culprit

  predicate HasTag(p: Node, tag: string) {
    OutboundTag(p) == tag
  }

  function IndexOfTag(ps: seq<Node>, tag: string): (r: int)
    ensures -1 <= r < |ps|
    ensures r == -1 <==> forall i | 0 <= i < |ps| :: !HasTag(ps[i], tag)
    ensures r >= 0 ==> HasTag(ps[r], tag) && forall i | 0 <= i < r :: !HasTag(ps[i], tag)
  {
    hide HasTag;
    IndexFrom(ps, tag, 0)
  }

  function IndexFrom(ps: seq<Node>, tag: string, k: nat): (r: int)
    requires k <= |ps|
    ensures r == -1 || (k <= r < |ps| && HasTag(ps[r], tag))
    ensures forall i | k <= i < (if r == -1 then |ps| else r) :: !HasTag(ps[i], tag)
    decreases |ps| - k
  {
    hide HasTag;
    if k == |ps| then -1 else if HasTag(ps[k], tag) then k else IndexFrom(ps, tag, k + 1)
  }

  function Culprit(ps: seq<Node>, message: string): (r: int)
    ensures -1 <= r < |ps|
  {
    var tag := ExtractFailingOutboundTag(message);
    if tag == "" then -1 else IndexOfTag(ps, tag)
  }

  /** The proxy that is pruned is the one the core complained of, exactly when that one's name is safe. */
  lemma NamedIsPruned(ps: seq<Node>, k: nat, prefix: string, reason: string)
    requires DistinctIndexes(ps) && k < |ps| && !Occurs(prefix, MARKER)
    ensures Culprit(ps, Message(prefix, Coerced(OutboundTag(ps[k])), reason)) == k <==> SafeName(ps[k].name)
  {
    hide ExtractFailingOutboundTag, Message, OutboundTag, SafeName, IndexOfTag, Coerced;
    ReadsBack(prefix, ps[k], reason);
    TagNotEmpty(ps[k]);
    forall i | 0 <= i < |ps| && OutboundTag(ps[i]) == OutboundTag(ps[k]) ensures i == k {
      OutboundTagIndex(ps[i], ps[k]);
    }
  }

  lemma TagNotEmpty(p: Node)
    ensures OutboundTag(p) != ""
  {
  }

  /** A name that continues another proxy's tag with the separator gets that other proxy pruned. */
  lemma AnotherIsPruned(ps: seq<Node>, k: nat, victim: nat, more: string, prefix: string, reason: string)
    requires DistinctIndexes(ps) && k < |ps| && victim < |ps| && victim != k && !Occurs(prefix, MARKER)
    requires SafeName(ps[victim].name) && ps[k].name == OutboundTag(ps[victim]) + (CHAIN + more)
    ensures Culprit(ps, Message(prefix, Coerced(OutboundTag(ps[k])), reason)) == victim
  {
    hide ExtractFailingOutboundTag, CleanName, IndexOfTag, Culprit, Occurs, Itoa, Coerced, OutboundTag, ValidUtf8;
    var v := OutboundTag(ps[victim]);
    CoercedName(ps[k], v, more);
    NameInTag(ps[victim]);
    CoercedMeans(v);
    var tail := Coerced(more + (['_'] + Itoa(ps[k].index))) + (CHAIN + reason);
    assert Coerced(OutboundTag(ps[k])) + (CHAIN + reason) == v + (CHAIN + tail);
    NamedIsPruned(ps, victim, prefix, tail);
  }

  lemma CoercedName(p: Node, v: string, more: string)
    requires p.name == v + (CHAIN + more)
    ensures Coerced(OutboundTag(p)) == Coerced(v) + (CHAIN + Coerced(more + (['_'] + Itoa(p.index))))
  {
    hide Coerced, Itoa;
    var rest := more + (['_'] + Itoa(p.index));
    assert OutboundTag(p) == v + (CHAIN + rest);
    CoercedConcat(v, CHAIN + rest);
    ChainFirst(rest);
  }

  lemma ChainFirst(s: string)
    ensures Coerced(CHAIN + s) == CHAIN + Coerced(s)
  {
    hide Coerced;
    AsciiFirst(' ', ">" + (" " + s));
    AsciiFirst('>', " " + s);
    AsciiFirst(' ', s);
    assert CHAIN + s == [' '] + (['>'] + ([' '] + s));
    assert CHAIN + Coerced(s) == [' '] + (['>'] + ([' '] + Coerced(s)));
  }

  // ---------------------------------------------------------------- the retry loop

  datatype Build = Built | Rejected(message: string)

  /** What the core answers to the n-th configuration it is shown; it need not answer consistently. */
  type Builder = (nat, Config) -> Build

  datatype Outcome = Outcome(survivors: seq<Node>, builds: nat, written: Option<Config>, failed: bool)

  function Without(ps: seq<Node>, k: nat): seq<Node>
    requires k < |ps|
  {
    ps[..k] + ps[k + 1..]
  }

  function Save(ps: seq<Node>, c: Config, writes: bool, builds: nat): Outcome {
    if writes then Outcome(ps, builds, Some(c), false) else Outcome(ps, builds, None, true)
  }

  /** One turn of the loop: it ends the run, or drops the proxy at k. */
  datatype Turn = Stop(outcome: Outcome) | Drop(k: nat)

  function TurnOf(ps: seq<Node>, start: int, marshals: Config -> bool, build: Builder, writes: bool,
        attempt: nat): (t: Turn)
    ensures t.Drop? ==> t.k < |ps|
  {
    hide Culprit;
    var file := FileOf(ps, start);
    if !marshals(ConfigOf(ps, start)) then Stop(Outcome(ps, attempt, None, true))
    else
      match build(attempt, file)
      case Built => Stop(Save(ps, file, writes, attempt + 1))
      case Rejected(message) =>
        var k := Culprit(ps, message);
        if k < 0 then Stop(Save(ps, file, writes, attempt + 1)) else Drop(k)
  }

  function Validated(ps: seq<Node>, start: int, marshals: Config -> bool, build: Builder, writes: bool,
        attempt: nat): Outcome
    decreases |ps|
  {
    hide TurnOf;
    match TurnOf(ps, start, marshals, build, writes, attempt)
    case Stop(outcome) => outcome
    case Drop(k) => Validated(Without(ps, k), start, marshals, build, writes, attempt + 1)
  }

  lemma ValidatedUnfolds(ps: seq<Node>, start: int, marshals: Config -> bool, build: Builder, writes: bool,
        attempt: nat)
    ensures Validated(ps, start, marshals, build, writes, attempt) ==
              match TurnOf(ps, start, marshals, build, writes, attempt)
              case Stop(outcome) => outcome
              case Drop(k) => Validated(Without(ps, k), start, marshals, build, writes, attempt + 1)
  {
    hide TurnOf;
  }

  lemma StopShape(ps: seq<Node>, start: int, marshals: Config -> bool, build: Builder, writes: bool, attempt: nat)
    requires TurnOf(ps, start, marshals, build, writes, attempt).Stop?
    ensures var o := TurnOf(ps, start, marshals, build, writes, attempt).outcome;
            && o.survivors == ps && attempt <= o.builds <= attempt + 1
            && o.written == if o.failed then None else Some(FileOf(ps, start))
  {
    hide ConfigOf, FileOf, Culprit;
  }

  method GenerateValidatedConfig(ps: seq<Node>, start: int, marshals: Config -> bool, build: Builder, writes: bool)
        returns (o: Outcome)
    ensures o == Validated(ps, start, marshals, build, writes, 0)
    ensures o.builds + |o.survivors| <= |ps| + 1
  {
    hide ConfigOf, TurnOf, Validated, Without;
    FewBuilds(ps, start, marshals, build, writes, 0);
    var current, attempt: nat := ps, 0;
    while true
      invariant Validated(current, start, marshals, build, writes, attempt)
                  == Validated(ps, start, marshals, build, writes, 0)
      decreases |current|
    {
      ValidatedUnfolds(current, start, marshals, build, writes, attempt);
      var turn := TakeTurn(current, start, marshals, build, writes, attempt);
      if turn.Stop? { return turn.outcome; }
      CutOut(current, turn.k);
      current := current[..turn.k] + current[turn.k + 1..];
      attempt := attempt + 1;
    }
  }

  lemma CutOut(ps: seq<Node>, k: nat)
    requires k < |ps|
    ensures Without(ps, k) == ps[..k] + ps[k + 1..] && |Without(ps, k)| == |ps| - 1
  {
  }

  /** The body of the loop: generate, build, and look for the proxy to blame. */
  method TakeTurn(current: seq<Node>, start: int, marshals: Config -> bool, build: Builder, writes: bool, attempt: nat)
      returns (turn: Turn)
    ensures turn == TurnOf(current, start, marshals, build, writes, attempt)
  {
    hide ConfigOf, ExtractFailingOutboundTag, IndexOfTag, Rendered;
    var c := GenerateConfig(current, start);
    if !marshals(c) { return Stop(Outcome(current, attempt, None, true)); }
    var file := Rendered(c);
    match build(attempt, file) {
      case Built => return Stop(Save(current, file, writes, attempt + 1));
      case Rejected(message) =>
        var tag := ExtractFailingOutboundTag(message);
        var idx := -1;
        if tag != "" { idx := FindTag(current, tag); }
        if idx < 0 { return Stop(Save(current, file, writes, attempt + 1)); }
        return Drop(idx);
    }
  }

  method FindTag(ps: seq<Node>, tag: string) returns (idx: int)
    ensures idx == IndexOfTag(ps, tag)
  {
    hide HasTag, IndexOfTag;
    for i := 0 to |ps|
      invariant forall k | 0 <= k < i :: !HasTag(ps[k], tag)
    {
      if HasTag(ps[i], tag) { return i; }
    }
    return -1;
  }

  /** t with some elements left out, order kept. */
  ghost predicate Subsequence(s: seq<Node>, t: seq<Node>) {
    s == [] || (t != [] && ((s[0] == t[0] && Subsequence(s[1..], t[1..])) || Subsequence(s, t[1..])))
  }

  lemma {:induction false} SubsequenceOfItself(s: seq<Node>)
    ensures Subsequence(s, s)
  {
    if s != [] { SubsequenceOfItself(s[1..]); }
  }

  lemma {:induction false} SubsequenceWithout(s: seq<Node>, t: seq<Node>, k: nat)
    requires k < |t| && Subsequence(s, Without(t, k))
    ensures Subsequence(s, t)
    decreases |t|
  {
    if k == 0 {
      assert Without(t, 0) == t[1..];
    } else if s != [] {
      var w := Without(t, k);
      assert w[1..] == Without(t[1..], k - 1) && w[0] == t[0];
      if s[0] == t[0] && Subsequence(s[1..], w[1..]) {
        SubsequenceWithout(s[1..], t[1..], k - 1);
      } else {
        SubsequenceWithout(s, t[1..], k - 1);
      }
    }
  }

  /** Each build but the last costs one proxy, so there are never more builds than proxies plus one. */
  lemma {:induction false} FewBuilds(ps: seq<Node>, start: int, marshals: Config -> bool, build: Builder, writes: bool,
        attempt: nat)
    ensures var o := Validated(ps, start, marshals, build, writes, attempt);
            attempt + |ps| <= o.builds + |o.survivors| <= attempt + |ps| + 1
    decreases |ps|
  {
    hide TurnOf, Validated, Without;
    ValidatedUnfolds(ps, start, marshals, build, writes, attempt);
    var turn := TurnOf(ps, start, marshals, build, writes, attempt);
    if turn.Stop? {
      StopShape(ps, start, marshals, build, writes, attempt);
    } else {
      CutOut(ps, turn.k);
      FewBuilds(Without(ps, turn.k), start, marshals, build, writes, attempt + 1);
    }
  }

  /** Survivors keep their order and their Index, and what is on disk is the configuration of exactly them. */
  lemma {:induction false} SurvivorsInOrder(ps: seq<Node>, start: int, marshals: Config -> bool, build: Builder,
        writes: bool, attempt: nat)
    ensures var o := Validated(ps, start, marshals, build, writes, attempt);
            && Subsequence(o.survivors, ps)
            && o.written == (if o.failed then None else Some(FileOf(o.survivors, start)))
    decreases |ps|
  {
    hide TurnOf, Validated, Without, FileOf;
    ValidatedUnfolds(ps, start, marshals, build, writes, attempt);
    var turn := TurnOf(ps, start, marshals, build, writes, attempt);
    if turn.Stop? {
      StopShape(ps, start, marshals, build, writes, attempt);
      SubsequenceOfItself(ps);
    } else {
      CutOut(ps, turn.k);
      SurvivorsInOrder(Without(ps, turn.k), start, marshals, build, writes, attempt + 1);
      SubsequenceWithout(Validated(Without(ps, turn.k), start, marshals, build, writes, attempt + 1).survivors, ps,
          turn.k);
    }
  }

  /** No proxy of the list has the tag the message is read to name. */
  ghost predicate NamesNone(ps: seq<Node>, message: string) {
    forall i | 0 <= i < |ps| :: OutboundTag(ps[i]) != ExtractFailingOutboundTag(message)
  }

  /**
   However the core answers, the run ends with a configuration it built, or rejected without naming a proxy still in it;
   that one is written, and the run fails only if it cannot be rendered or written.
   */
  lemma {:induction false} RunEnds(ps: seq<Node>, start: int, marshals: Config -> bool, build: Builder, writes: bool,
        attempt: nat)
    ensures var o := Validated(ps, start, marshals, build, writes, attempt);
            var file := FileOf(o.survivors, start);
            if !marshals(ConfigOf(o.survivors, start)) then o.failed && o.written == None
            else
              && o.builds > attempt
              && (build(o.builds - 1, file).Rejected? ==> NamesNone(o.survivors, build(o.builds - 1, file).message))
              && o.failed == !writes && o.written == if writes then Some(file) else None
    decreases |ps|
  {
    hide TurnOf, Validated, Without, FileOf, ConfigOf, NamesNone;
    ValidatedUnfolds(ps, start, marshals, build, writes, attempt);
    var turn := TurnOf(ps, start, marshals, build, writes, attempt);
    if turn.Stop? {
      StopMeans(ps, start, marshals, build, writes, attempt);
    } else {
      CutOut(ps, turn.k);
      RunEnds(Without(ps, turn.k), start, marshals, build, writes, attempt + 1);
    }
  }

  lemma StopMeans(ps: seq<Node>, start: int, marshals: Config -> bool, build: Builder, writes: bool, attempt: nat)
    requires TurnOf(ps, start, marshals, build, writes, attempt).Stop?
    ensures var o := TurnOf(ps, start, marshals, build, writes, attempt).outcome;
            var file := FileOf(ps, start);
            && o.survivors == ps
            && if !marshals(ConfigOf(ps, start)) then o.failed && o.written == None
               else
                 && o.builds == attempt + 1
                 && (build(attempt, file).Rejected? ==> NamesNone(ps, build(attempt, file).message))
                 && o.failed == !writes && o.written == if writes then Some(file) else None
  {
    hide ConfigOf, FileOf, ExtractFailingOutboundTag, IndexOfTag, OutboundTag;
    var answer := build(attempt, FileOf(ps, start));
    if answer.Rejected? { NoCulprit(ps, answer.message); }
  }

  lemma NoCulprit(ps: seq<Node>, message: string)
    ensures Culprit(ps, message) == -1 <==> NamesNone(ps, message)
  {
    hide ExtractFailingOutboundTag, OutboundTag, IndexOfTag;
    var tag := ExtractFailingOutboundTag(message);
    if tag == "" {
      forall i | 0 <= i < |ps| ensures OutboundTag(ps[i]) != tag { TagNotEmpty(ps[i]); }
    }
  }

  lemma {:induction false} SubsequenceMembers(s: seq<Node>, t: seq<Node>)
    requires Subsequence(s, t) && DistinctIndexes(t)
    ensures DistinctIndexes(s) && forall p | p in s :: p in t
    decreases |t|
  {
    if s != [] {
      assert DistinctIndexes(t[1..]);
      if s[0] == t[0] && Subsequence(s[1..], t[1..]) {
        SubsequenceMembers(s[1..], t[1..]);
        assert s == [s[0]] + s[1..];
        forall j | 1 <= j < |s| ensures s[j].index != s[0].index {
          assert s[j] == s[1..][j - 1] && s[j] in t[1..];
          var m :| 0 <= m < |t[1..]| && t[1..][m] == s[j];
          assert t[m + 1] == s[j];
        }
        assert forall i, j | 1 <= i < j < |s| :: s[i] == s[1..][i - 1] && s[j] == s[1..][j - 1];
      } else {
        SubsequenceMembers(s, t[1..]);
      }
    }
  }

  /** In whatever configuration is finally written, every surviving proxy still answers on its own port. */
  lemma WrittenConfigRoutes(ps: seq<Node>, start: int, marshals: Config -> bool, build: Builder, writes: bool, k: nat)
    requires DistinctIndexes(ps)
    ensures var o := Validated(ps, start, marshals, build, writes, 0);
            k < |o.survivors| && o.written.Some? ==>
              Route(o.written.value, start + o.survivors[k].index) == Some(Via(o.survivors[k]))
  {
    hide FileOf, Validated, Route, DistinctIndexes;
    var o := Validated(ps, start, marshals, build, writes, 0);
    SurvivorsInOrder(ps, start, marshals, build, writes, 0);
    SubsequenceMembers(o.survivors, ps);
    if k < |o.survivors| { PortReachesItsProxy(o.survivors, start, k); }
  }

  // ---------------------------------------------------------------- exactly the refused ones

  /** A core that builds a configuration unless it refuses one of its proxies, and then names one it refuses. */
  ghost predicate NamesRefused(build: Builder, start: int, refused: Node -> bool) {
    forall n: nat, ps | DistinctIndexes(ps) :: Answers(build(n, FileOf(ps, start)), ps, refused)
  }

  ghost predicate Answers(answer: Build, ps: seq<Node>, refused: Node -> bool) {
    match answer
    case Built => forall i | 0 <= i < |ps| :: !refused(ps[i])
    case Rejected(message) =>
      exists k, prefix, reason ::
        0 <= k < |ps| && refused(ps[k]) && !Occurs(prefix, MARKER)
            && message == Message(prefix, Coerced(OutboundTag(ps[k])), reason)
  }

  /** Marshalling that does not fail. */
  function Always(c: Config): bool {
    true
  }

  function Keep(ps: seq<Node>, refused: Node -> bool): seq<Node> {
    if ps == [] then [] else if refused(ps[0]) then Keep(ps[1..], refused) else [ps[0]] + Keep(ps[1..], refused)
  }

  lemma {:induction false} KeepConcat(a: seq<Node>, b: seq<Node>, refused: Node -> bool)
    ensures Keep(a + b, refused) == Keep(a, refused) + Keep(b, refused)
  {
    if a == [] {
      assert a + b == b;
    } else {
      assert (a + b)[1..] == a[1..] + b;
      KeepConcat(a[1..], b, refused);
    }
  }

  lemma KeepWithout(ps: seq<Node>, k: nat, refused: Node -> bool)
    requires k < |ps| && refused(ps[k])
    ensures Keep(Without(ps, k), refused) == Keep(ps, refused)
  {
    KeepConcat(ps[..k], ps[k + 1..], refused);
    KeepConcat(ps[..k], ps[k..], refused);
    assert ps[..k] + ps[k..] == ps && ps[k..][1..] == ps[k + 1..];
  }

  lemma {:induction false} KeepAll(ps: seq<Node>, refused: Node -> bool)
    requires forall i | 0 <= i < |ps| :: !refused(ps[i])
    ensures Keep(ps, refused) == ps
  {
    if ps != [] { KeepAll(ps[1..], refused); }
  }

  /** With a core that names what it refuses, safe names lose exactly the refused proxies, whatever the order. */
  lemma {:induction false} ExactlyTheRefused(ps: seq<Node>, start: int, build: Builder, refused: Node -> bool,
        attempt: nat)
    requires NamesRefused(build, start, refused) && DistinctIndexes(ps) && RefusedAreSafe(ps, refused)
    ensures var o := Validated(ps, start, Always, build, true, attempt);
            && o.survivors == Keep(ps, refused)
            && o.builds == attempt + |ps| - |o.survivors| + 1
            && o.written == Some(FileOf(o.survivors, start))
    decreases |ps|
  {
    hide FileOf, Keep, Validated, Without, NamesRefused, RefusedAreSafe, DistinctIndexes, Answers, TurnOf;
    AnswerOf(build, start, refused, attempt, ps);
    ValidatedUnfolds(ps, start, Always, build, true, attempt);
    match build(attempt, FileOf(ps, start))
    case Built =>
      TurnBuilt(ps, start, build, attempt);
      NoneRefused(ps, refused);
    case Rejected(message) =>
      var k := RefusedIn(message, ps, refused);
      TurnDrops(ps, start, build, attempt, message, k);
      KeepWithout(ps, k, refused);
      WithoutDistinct(ps, k, refused);
      ExactlyTheRefused(Without(ps, k), start, build, refused, attempt + 1);
  }

  ghost predicate RefusedAreSafe(ps: seq<Node>, refused: Node -> bool) {
    forall i | 0 <= i < |ps| && refused(ps[i]) :: SafeName(ps[i].name)
  }

  lemma TurnBuilt(ps: seq<Node>, start: int, build: Builder, attempt: nat)
    requires build(attempt, FileOf(ps, start)).Built?
    ensures TurnOf(ps, start, Always, build, true, attempt)
              == Stop(Outcome(ps, attempt + 1, Some(FileOf(ps, start)), false))
  {
    hide FileOf, ConfigOf, Culprit;
  }

  lemma TurnDrops(ps: seq<Node>, start: int, build: Builder, attempt: nat, message: string, k: nat)
    requires build(attempt, FileOf(ps, start)) == Rejected(message) && Culprit(ps, message) == k
    ensures TurnOf(ps, start, Always, build, true, attempt) == Drop(k)
  {
    hide FileOf, ConfigOf, Culprit;
  }

  lemma NoneRefused(ps: seq<Node>, refused: Node -> bool)
    requires Answers(Built, ps, refused)
    ensures Keep(ps, refused) == ps
  {
    KeepAll(ps, refused);
  }

  lemma AnswerOf(build: Builder, start: int, refused: Node -> bool, n: nat, ps: seq<Node>)
    requires NamesRefused(build, start, refused) && DistinctIndexes(ps)
    ensures Answers(build(n, FileOf(ps, start)), ps, refused)
  {
    hide Answers, FileOf;
  }

  /** The proxy that a complaint gets dropped is one of the refused. */
  lemma RefusedIn(message: string, ps: seq<Node>, refused: Node -> bool) returns (k: nat)
    requires Answers(Rejected(message), ps, refused) && DistinctIndexes(ps) && RefusedAreSafe(ps, refused)
    ensures k < |ps| && refused(ps[k]) && Culprit(ps, message) == k
  {
    hide Culprit, SafeName, OutboundTag, Message, Occurs, Coerced;
    var n, prefix, reason :| 0 <= n < |ps| && refused(ps[n]) && !Occurs(prefix, MARKER)
                             && message == Message(prefix, Coerced(OutboundTag(ps[n])), reason);
    NamedIsPruned(ps, n, prefix, reason);
    k := n;
  }

  lemma WithoutDistinct(ps: seq<Node>, k: nat, refused: Node -> bool)
    requires k < |ps| && DistinctIndexes(ps) && RefusedAreSafe(ps, refused)
    ensures DistinctIndexes(Without(ps, k)) && |Without(ps, k)| == |ps| - 1 && RefusedAreSafe(Without(ps, k), refused)
  {
    hide SafeName;
    var w := Without(ps, k);
    assert forall i | 0 <= i < |w| :: w[i] == ps[if i < k then i else i + 1];
  }

  // ---------------------------------------------------------------- and only with safe names

  function Proxies(outbounds: seq<Outbound>): seq<Node> {
    if outbounds == [] then []
    else (if outbounds[0].kind.Via? then [outbounds[0].kind.node] else []) + Proxies(outbounds[1..])
  }

  lemma {:induction false} ProxiesOf(outbounds: seq<Outbound>, ps: seq<Node>)
    requires |outbounds| == |ps| && forall i | 0 <= i < |ps| :: outbounds[i].kind == Via(ps[i])
    ensures Proxies(outbounds) == ps
  {
    if ps != [] {
      ProxiesOf(outbounds[1..], ps[1..]);
      assert ps == [ps[0]] + ps[1..];
    }
  }

  lemma ProxiesOfFile(ps: seq<Node>, start: int)
    ensures Proxies(FileOf(ps, start).outbounds) == ps
  {
    FileLength(ps, start);
    FixedInFile(ps, start);
    hide FileOf, Proxies, OutboundTag, InboundTag;
    var out := FileOf(ps, start).outbounds;
    forall i | 0 <= i < |ps| ensures out[2..][i].kind == Via(ps[i]) { TagsInFile(ps, start, i); }
    ProxiesOf(out[2..], ps);
    assert out == FIXED + out[2..] by { assert out == out[..2] + out[2..]; }
    FixedFirst(out[2..]);
  }

  lemma FixedFirst(more: seq<Outbound>)
    ensures Proxies(FIXED + more) == Proxies(more)
  {
    var out := FIXED + more;
    assert out[0] == FIXED[0] && out[1..][0] == FIXED[1] && out[1..][1..] == more;
    assert Proxies(out) == [] + Proxies(out[1..]);
    assert Proxies(out[1..]) == [] + Proxies(more);
  }

  /** The first refused proxy, or -1. */
  function FirstRefused(ps: seq<Node>, refused: Node -> bool, k: nat): (r: int)
    requires k <= |ps|
    ensures r == -1 || (k <= r < |ps| && refused(ps[r]))
    ensures r == -1 ==> forall i | k <= i < |ps| :: !refused(ps[i])
    decreases |ps| - k
  {
    if k == |ps| then -1 else if refused(ps[k]) then k else FirstRefused(ps, refused, k + 1)
  }

  /** A core that complains of one proxy as long as it is there, and of the first refused one otherwise. */
  function Stubborn(p: Node, refused: Node -> bool): Builder {
    (n: nat, c: Config) =>
      var ps := Proxies(c.outbounds);
      if p in ps then Rejected(Message("", Coerced(OutboundTag(p)), ""))
      else
        var k := FirstRefused(ps, refused, 0);
        if k == -1 then Built else Rejected(Message("", Coerced(OutboundTag(ps[k])), ""))
  }

  lemma NoMarkerInNothing()
    ensures !Occurs("", MARKER)
  {
  }

  lemma StubbornAnswers(p: Node, refused: Node -> bool, n: nat, ps: seq<Node>, start: int)
    requires refused(p)
    ensures Answers(Stubborn(p, refused)(n, FileOf(ps, start)), ps, refused)
    ensures p in ps ==> Stubborn(p, refused)(n, FileOf(ps, start)) == Rejected(Message("", Coerced(OutboundTag(p)), ""))
  {
    hide OutboundTag, Message, Occurs, Proxies, Coerced, FileOf;
    ProxiesOfFile(ps, start);
    NoMarkerInNothing();
    if p in ps {
      var k :| 0 <= k < |ps| && ps[k] == p;
      assert refused(ps[k]) && Message("", Coerced(OutboundTag(p)), "") == Message("", Coerced(OutboundTag(ps[k])), "");
    }
  }

  lemma StubbornNames(p: Node, refused: Node -> bool, start: int)
    requires refused(p)
    ensures NamesRefused(Stubborn(p, refused), start, refused)
  {
    hide Answers, Stubborn, FileOf;
    forall n: nat, ps | DistinctIndexes(ps) ensures Answers(Stubborn(p, refused)(n, FileOf(ps, start)), ps, refused) {
      StubbornAnswers(p, refused, n, ps, start);
    }
  }

  /** Such a core never gets rid of a proxy whose name is not safe. */
  lemma {:induction false} UnsafeSurvives(ps: seq<Node>, k: nat, start: int, refused: Node -> bool, attempt: nat)
    requires DistinctIndexes(ps) && k < |ps| && refused(ps[k]) && !SafeName(ps[k].name)
    ensures ps[k] in Validated(ps, start, Always, Stubborn(ps[k], refused), true, attempt).survivors
    decreases |ps|
  {
    hide ConfigOf, FileOf, Culprit, SafeName, OutboundTag, Message, Occurs, Validated, Stubborn, Coerced;
    var p := ps[k];
    var build := Stubborn(p, refused);
    StubbornAnswers(p, refused, attempt, ps, start);
    NoMarkerInNothing();
    NamedIsPruned(ps, k, "", "");
    ValidatedUnfolds(ps, start, Always, build, true, attempt);
    var gone := Culprit(ps, Message("", Coerced(OutboundTag(p)), ""));
    if gone >= 0 {
      CutOut(ps, gone);
      var rest := Without(ps, gone);
      var k' := if k < gone then k else k - 1;
      assert rest[k'] == p;
      UnsafeSurvives(rest, k', start, refused, attempt + 1);
    }
  }

  lemma {:induction false} KeepDrops(ps: seq<Node>, refused: Node -> bool, p: Node)
    requires refused(p)
    ensures p !in Keep(ps, refused)
  {
    if ps != [] { KeepDrops(ps[1..], refused, p); }
  }

  /** Whatever core of that kind: exactly the refused proxies are dropped. */
  ghost predicate OnlyRefusedDropped(ps: seq<Node>, start: int, refused: Node -> bool) {
    forall build | NamesRefused(build, start, refused) ::
        Validated(ps, start, Always, build, true, 0).survivors == Keep(ps, refused)
  }

  /** That is so if and only if the refused proxies have safe names. */
  lemma OnlyRefusedIffSafe(ps: seq<Node>, start: int, refused: Node -> bool)
    requires DistinctIndexes(ps)
    ensures OnlyRefusedDropped(ps, start, refused) <==> RefusedAreSafe(ps, refused)
  {
    hide NamesRefused, SafeName, Validated, Stubborn, DistinctIndexes, Keep;
    if RefusedAreSafe(ps, refused) {
      forall build | NamesRefused(build, start, refused)
        ensures Validated(ps, start, Always, build, true, 0).survivors == Keep(ps, refused)
      {
        ExactlyTheRefused(ps, start, build, refused, 0);
      }
    } else {
      var k :| 0 <= k < |ps| && refused(ps[k]) && !SafeName(ps[k].name);
      StubbornNames(ps[k], refused, start);
      UnsafeSurvives(ps, k, start, refused, 0);
      KeepDrops(ps, refused, ps[k]);
      assert Validated(ps, start, Always, Stubborn(ps[k], refused), true, 0).survivors != Keep(ps, refused);
    }
  }
}
