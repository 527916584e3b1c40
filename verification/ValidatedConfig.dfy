/**
 The generated Xray configuration: one inbound, one outbound and one rule for each proxy, and the loop that
 drops a proxy the core refuses to build and tries again.
 */
module ValidatedConfig {
  import opened Options
  import opened Text

  datatype Node = Node(name: string, protocol: string, index: int)

  datatype Kind = Freedom | Blackhole | Via(node: Node)

  datatype Inbound = Inbound(port: int, tag: string)
  datatype Outbound = Outbound(tag: string, kind: Kind)
  datatype Rule = Rule(inboundTag: string, outboundTag: string)
  datatype Config = Config(inbounds: seq<Inbound>, outbounds: seq<Outbound>, rules: seq<Rule>)

  // ---------------------------------------------------------------- tags

  function OutboundTag(p: Node): string {
    p.name + ['_'] + Itoa(p.index)
  }

  function InboundTag(p: Node): string {
    p.name + "_" + p.protocol + ['_'] + Itoa(p.index) + "_Inbound"
  }

  lemma OutboundTagIndex(p: Node, q: Node)
    ensures OutboundTag(p) == OutboundTag(q) <==> p.name == q.name && p.index == q.index
  {
    hide Itoa;
    ItoaHasNo(p.index, '_');
    ItoaHasNo(q.index, '_');
    if OutboundTag(p) == OutboundTag(q) {
      LastSeparatorUnique(p.name, Itoa(p.index), q.name, Itoa(q.index), '_');
      ItoaInjective(p.index, q.index);
    }
  }

  /** Names and protocols are free text, yet the index can be read back from an inbound tag. */
  lemma InboundTagIndex(p: Node, q: Node)
    requires InboundTag(p) == InboundTag(q)
    ensures p.index == q.index
  {
    hide Itoa;
    ItoaHasNo(p.index, '_');
    ItoaHasNo(q.index, '_');
    var a, b := p.name + "_" + p.protocol, q.name + "_" + q.protocol;
    assert InboundTag(p) == (a + ['_'] + Itoa(p.index)) + "_Inbound";
    assert InboundTag(q) == (b + ['_'] + Itoa(q.index)) + "_Inbound";
    assert a + ['_'] + Itoa(p.index) == InboundTag(p)[..|InboundTag(p)| - 8] == b + ['_'] + Itoa(q.index);
    LastSeparatorUnique(a, Itoa(p.index), b, Itoa(q.index), '_');
    ItoaInjective(p.index, q.index);
  }

  // ---------------------------------------------------------------- generation

  function InboundOf(p: Node, start: int): Inbound {
    Inbound(start + p.index, InboundTag(p))
  }

  function InboundsOf(ps: seq<Node>, start: int): (r: seq<Inbound>)
    ensures |r| == |ps| && forall i | 0 <= i < |ps| :: r[i] == InboundOf(ps[i], start)
  {
    seq(|ps|, i requires 0 <= i < |ps| => InboundOf(ps[i], start))
  }

  const FIXED := [Outbound("direct", Freedom), Outbound("block", Blackhole)]

  function OutboundOf(p: Node): Outbound {
    Outbound(OutboundTag(p), Via(p))
  }

  function OutboundsOf(ps: seq<Node>): (r: seq<Outbound>)
    ensures |r| == |ps| + 2 && r[..2] == FIXED && forall i | 0 <= i < |ps| :: r[i + 2] == OutboundOf(ps[i])
  {
    FIXED + seq(|ps|, i requires 0 <= i < |ps| => OutboundOf(ps[i]))
  }

  function RuleOf(p: Node): Rule {
    Rule(InboundTag(p), OutboundTag(p))
  }

  function RulesOf(ps: seq<Node>): (r: seq<Rule>)
    ensures |r| == |ps| && forall i | 0 <= i < |ps| :: r[i] == RuleOf(ps[i])
  {
    seq(|ps|, i requires 0 <= i < |ps| => RuleOf(ps[i]))
  }

  function ConfigOf(ps: seq<Node>, start: int): Config {
    Config(InboundsOf(ps, start), OutboundsOf(ps), RulesOf(ps))
  }

  method GenerateInbounds(ps: seq<Node>, start: int) returns (inbounds: seq<Inbound>)
    ensures inbounds == InboundsOf(ps, start)
  {
    hide InboundTag;
    inbounds := [];
    for i := 0 to |ps|
      invariant |inbounds| == i && forall k | 0 <= k < i :: inbounds[k] == InboundOf(ps[k], start)
    {
      inbounds := inbounds + [Inbound(start + ps[i].index, InboundTag(ps[i]))];
    }
  }

  method GenerateOutbounds(ps: seq<Node>) returns (outbounds: seq<Outbound>)
    ensures outbounds == OutboundsOf(ps)
  {
    hide OutboundTag, OutboundsOf;
    outbounds := [Outbound("direct", Freedom)];
    outbounds := outbounds + [Outbound("block", Blackhole)];
    FixedOnly(outbounds);
    for i := 0 to |ps|
      invariant outbounds == OutboundsOf(ps[..i])
    {
      OutboundsSnoc(ps, i);
      outbounds := outbounds + [Outbound(OutboundTag(ps[i]), Via(ps[i]))];
    }
    assert ps[..|ps|] == ps;
  }

  lemma FixedOnly(outbounds: seq<Outbound>)
    requires outbounds == [Outbound("direct", Freedom)] + [Outbound("block", Blackhole)]
    ensures outbounds == OutboundsOf([])
  {
    assert OutboundsOf([]) == FIXED + [];
  }

  lemma OutboundsSnoc(ps: seq<Node>, i: nat)
    requires i < |ps|
    ensures OutboundsOf(ps[..i + 1]) == OutboundsOf(ps[..i]) + [Outbound(OutboundTag(ps[i]), Via(ps[i]))]
  {
    hide OutboundTag;
    var a, b := OutboundsOf(ps[..i + 1]), OutboundsOf(ps[..i]) + [OutboundOf(ps[i])];
    assert a[..2] == FIXED && b[..2] == FIXED;
    forall k | 2 <= k < |a| ensures a[k] == b[k] {
      assert a[k - 2 + 2] == OutboundOf(ps[..i + 1][k - 2]);
      assert k < |b| - 1 ==> b[k] == OutboundsOf(ps[..i])[k - 2 + 2];
    }
    assert a[0] == a[..2][0] && a[1] == a[..2][1] && b[0] == b[..2][0] && b[1] == b[..2][1];
  }

  method GenerateRouting(ps: seq<Node>) returns (rules: seq<Rule>)
    ensures rules == RulesOf(ps)
  {
    hide InboundTag, OutboundTag;
    rules := [];
    for i := 0 to |ps|
      invariant |rules| == i && forall k | 0 <= k < i :: rules[k] == RuleOf(ps[k])
    {
      rules := rules + [Rule(InboundTag(ps[i]), OutboundTag(ps[i]))];
    }
  }

  method GenerateConfig(ps: seq<Node>, start: int) returns (config: Config)
    ensures config == ConfigOf(ps, start)
  {
    var inbounds := GenerateInbounds(ps, start);
    var outbounds := GenerateOutbounds(ps);
    var rules := GenerateRouting(ps);
    config := Config(inbounds, outbounds, rules);
  }

  // ---------------------------------------------------------------- routing

  function ListenerOn(inbounds: seq<Inbound>, port: int): Option<string> {
    if inbounds == [] then None
    else if inbounds[0].port == port then Some(inbounds[0].tag)
    else ListenerOn(inbounds[1..], port)
  }

  /** The first rule that matches decides. */
  function RuleFor(rules: seq<Rule>, tag: string): Option<string> {
    if rules == [] then None
    else if rules[0].inboundTag == tag then Some(rules[0].outboundTag)
    else RuleFor(rules[1..], tag)
  }

  function Tagged(outbounds: seq<Outbound>, tag: string): Option<Kind> {
    if outbounds == [] then None
    else if outbounds[0].tag == tag then Some(outbounds[0].kind)
    else Tagged(outbounds[1..], tag)
  }

  /** Where a connection to a local port leaves; unmatched traffic uses the first outbound. */
  function Route(c: Config, port: int): Option<Kind> {
    match ListenerOn(c.inbounds, port)
    case None => None
    case Some(tag) =>
      match RuleFor(c.rules, tag)
      case None => if c.outbounds == [] then None else Some(c.outbounds[0].kind)
      case Some(out) => Tagged(c.outbounds, out)
  }

  ghost predicate DistinctIndexes(ps: seq<Node>) {
    forall i, j | 0 <= i < j < |ps| :: ps[i].index != ps[j].index
  }

  lemma {:induction false} FirstListener(s: seq<Inbound>, port: int, k: nat)
    requires k < |s| && s[k].port == port && forall i | 0 <= i < |s| && s[i].port == port :: i == k
    ensures ListenerOn(s, port) == Some(s[k].tag)
  {
    if k > 0 {
      assert forall i | 0 <= i < |s[1..]| && s[1..][i].port == port :: s[i + 1].port == port;
      FirstListener(s[1..], port, k - 1);
    }
  }

  lemma {:induction false} NoListener(s: seq<Inbound>, port: int)
    ensures ListenerOn(s, port) == None <==> forall i | 0 <= i < |s| :: s[i].port != port
  {
    if s != [] {
      NoListener(s[1..], port);
      assert forall i | 0 < i < |s| :: s[i] == s[1..][i - 1];
    }
  }

  lemma {:induction false} FirstRule(s: seq<Rule>, tag: string, k: nat)
    requires k < |s| && s[k].inboundTag == tag && forall i | 0 <= i < k :: s[i].inboundTag != tag
    ensures RuleFor(s, tag) == Some(s[k].outboundTag)
  {
    if k > 0 { FirstRule(s[1..], tag, k - 1); }
  }

  lemma {:induction false} FirstOutbound(s: seq<Outbound>, tag: string, k: nat)
    requires k < |s| && s[k].tag == tag && forall i | 0 <= i < k :: s[i].tag != tag
    ensures Tagged(s, tag) == Some(s[k].kind)
  {
    if k > 0 { FirstOutbound(s[1..], tag, k - 1); }
  }

  // ---------------------------------------------------------------- what the core reads

  /** A configuration as it comes out of the JSON file: text that is not UTF-8 has been replaced. */
  function Rendered(c: Config): (r: Config)
    ensures |r.inbounds| == |c.inbounds| && |r.outbounds| == |c.outbounds| && |r.rules| == |c.rules|
    ensures forall i | 0 <= i < |c.inbounds| :: r.inbounds[i] == c.inbounds[i].(tag := Coerced(c.inbounds[i].tag))
    ensures forall i | 0 <= i < |c.outbounds| :: r.outbounds[i] == c.outbounds[i].(tag := Coerced(c.outbounds[i].tag))
    ensures forall i | 0 <= i < |c.rules| ::
              r.rules[i] == Rule(Coerced(c.rules[i].inboundTag), Coerced(c.rules[i].outboundTag))
  {
    Config(seq(|c.inbounds|, i requires 0 <= i < |c.inbounds| => c.inbounds[i].(tag := Coerced(c.inbounds[i].tag))),
           seq(|c.outbounds|, i requires 0 <= i < |c.outbounds| => c.outbounds[i].(tag := Coerced(c.outbounds[i].tag))),
           seq(|c.rules|, i requires 0 <= i < |c.rules| =>
                 Rule(Coerced(c.rules[i].inboundTag), Coerced(c.rules[i].outboundTag))))
  }

  function FileOf(ps: seq<Node>, start: int): Config {
    Rendered(ConfigOf(ps, start))
  }

  /** A proxy as the core knows it. */
  function CoercedNode(p: Node): Node {
    p.(name := Coerced(p.name), protocol := Coerced(p.protocol))
  }

  lemma ItoaAscii(n: int)
    ensures forall i | 0 <= i < |Itoa(n)| :: Itoa(n)[i] < '\U{80}'
  {
    var t := Itoa(n);
    hide Itoa;
    assert forall i | 1 <= i < |t| :: t[i] == t[1..][i - 1];
  }

  /** Replacement keeps tags apart: it is the tag of the replaced name. */
  lemma OutboundTagCoerced(p: Node)
    ensures Coerced(OutboundTag(p)) == OutboundTag(CoercedNode(p))
  {
    hide Itoa, Coerced;
    ItoaAscii(p.index);
    var tail := ['_'] + Itoa(p.index);
    AsciiValid(tail);
    CoercedConcat(p.name, tail);
    assert OutboundTag(p) == p.name + tail && OutboundTag(CoercedNode(p)) == Coerced(p.name) + tail;
  }

  lemma InboundTagCoerced(p: Node)
    ensures Coerced(InboundTag(p)) == InboundTag(CoercedNode(p))
  {
    hide Itoa, Coerced;
    ItoaAscii(p.index);
    var tail := ['_'] + Itoa(p.index) + "_Inbound";
    AsciiValid(tail);
    CoercedConcat(p.name, "_" + (p.protocol + tail));
    AsciiFirst('_', p.protocol + tail);
    CoercedConcat(p.protocol, tail);
    assert InboundTag(p) == p.name + ("_" + (p.protocol + tail));
    assert InboundTag(CoercedNode(p)) == Coerced(p.name) + ("_" + (Coerced(p.protocol) + tail));
  }

  lemma AsciiFirst(c: char, s: string)
    requires c < '\U{80}'
    ensures Coerced([c] + s) == [c] + Coerced(s)
  {
    var t := [c] + s;
    assert t[0] == c && RuneLen(t) == 1 && t[..1] == [c] && t[1..] == s;
  }

  lemma TagsInFile(ps: seq<Node>, start: int, k: nat)
    requires k < |ps|
    ensures var f := FileOf(ps, start);
            && |f.inbounds| == |f.rules| == |ps| && |f.outbounds| == |ps| + 2
            && f.inbounds[k] == Inbound(start + ps[k].index, InboundTag(CoercedNode(ps[k])))
            && f.rules[k] == Rule(InboundTag(CoercedNode(ps[k])), OutboundTag(CoercedNode(ps[k])))
            && f.outbounds[k + 2] == Outbound(OutboundTag(CoercedNode(ps[k])), Via(ps[k]))
  {
    hide Coerced, InboundTag, OutboundTag, InboundsOf, OutboundsOf, RulesOf;
    InboundTagCoerced(ps[k]);
    OutboundTagCoerced(ps[k]);
    assert OutboundsOf(ps)[k + 2] == OutboundOf(ps[k]);
  }

  /** The tags as the file has them, for a name and a protocol that may be any bytes. */
  lemma TagsWrittenOut(ps: seq<Node>, start: int, k: nat)
    requires k < |ps|
    ensures var f := FileOf(ps, start);
            var name, protocol, index := Coerced(ps[k].name), Coerced(ps[k].protocol), Itoa(ps[k].index);
            && |f.inbounds| == |f.rules| == |ps| && |f.outbounds| == |ps| + 2
            && f.inbounds[k].port == start + ps[k].index
            && f.inbounds[k].tag == f.rules[k].inboundTag == name + "_" + protocol + "_" + index + "_Inbound"
            && f.outbounds[k + 2].tag == f.rules[k].outboundTag == name + "_" + index
            && f.outbounds[k + 2].kind == Via(ps[k])
  {
    hide Coerced, FileOf, Itoa;
    TagsInFile(ps, start, k);
  }

  lemma LettersUnchanged(s: string)
    requires forall i | 0 <= i < |s| :: 'a' <= s[i] <= 'z'
    ensures Coerced(s) == s
  {
    hide Coerced;
    AsciiValid(s);
  }

  lemma FixedUnchanged()
    ensures FIXED[0].(tag := Coerced(FIXED[0].tag)) == FIXED[0] && FIXED[1].(tag := Coerced(FIXED[1].tag)) == FIXED[1]
  {
    hide Coerced;
    LettersUnchanged(FIXED[0].tag);
    LettersUnchanged(FIXED[1].tag);
  }

  lemma FixedInFile(ps: seq<Node>, start: int)
    ensures var f := FileOf(ps, start); |f.outbounds| >= 2 && f.outbounds[..2] == FIXED
  {
    FixedUnchanged();
    hide Coerced, OutboundsOf, InboundsOf, RulesOf;
    var out := OutboundsOf(ps);
    assert out[0] == out[..2][0] == FIXED[0] && out[1] == out[..2][1] == FIXED[1];
    var f := FileOf(ps, start);
    assert f.outbounds[0] == FIXED[0] && f.outbounds[1] == FIXED[1];
    assert FIXED == [FIXED[0], FIXED[1]];
  }

  lemma NotAFixedTag(p: Node)
    ensures OutboundTag(p) != "direct" && OutboundTag(p) != "block"
  {
    hide Itoa;
    var t := OutboundTag(p);
    assert t[|p.name|] == '_';
    assert '_' !in "direct" && '_' !in "block";
  }

  /** Distinct indexes are enough for every tag and port in the file to be unique, whatever the names. */
  lemma InboundsUnique(ps: seq<Node>, start: int, i: nat, j: nat)
    requires DistinctIndexes(ps) && i < j < |ps|
    ensures FileOf(ps, start).inbounds[i].tag != FileOf(ps, start).inbounds[j].tag
    ensures FileOf(ps, start).inbounds[i].port != FileOf(ps, start).inbounds[j].port
  {
    hide InboundTag, FileOf;
    TagsInFile(ps, start, i);
    TagsInFile(ps, start, j);
    var p, q := CoercedNode(ps[i]), CoercedNode(ps[j]);
    if InboundTag(p) == InboundTag(q) { InboundTagIndex(p, q); }
  }

  lemma OutboundsUnique(ps: seq<Node>, start: int, i: nat, j: nat)
    requires DistinctIndexes(ps) && i < j < |ps| + 2
    ensures |FileOf(ps, start).outbounds| == |ps| + 2
    ensures FileOf(ps, start).outbounds[i].tag != FileOf(ps, start).outbounds[j].tag
  {
    FileLength(ps, start);
    hide OutboundTag, FileOf;
    FixedInFile(ps, start);
    var out := FileOf(ps, start).outbounds;
    assert out[0] == out[..2][0] && out[1] == out[..2][1];
    if j >= 2 {
      TagsInFile(ps, start, j - 2);
      NotAFixedTag(CoercedNode(ps[j - 2]));
      if i >= 2 {
        TagsInFile(ps, start, i - 2);
        OutboundTagIndex(CoercedNode(ps[i - 2]), CoercedNode(ps[j - 2]));
      }
    }
  }

  lemma FileLength(ps: seq<Node>, start: int)
    ensures var f := FileOf(ps, start); |f.inbounds| == |f.rules| == |ps| && |f.outbounds| == |ps| + 2
  {
    hide InboundsOf, OutboundsOf, RulesOf;
  }

  /** Traffic to port start + Index leaves through that proxy and no other. */
  lemma PortReachesItsProxy(ps: seq<Node>, start: int, k: nat)
    requires DistinctIndexes(ps) && k < |ps|
    ensures Route(FileOf(ps, start), start + ps[k].index) == Some(Via(ps[k]))
  {
    hide OutboundTag, InboundTag, ListenerOn, RuleFor, Tagged, FileOf, DistinctIndexes;
    ItsListener(ps, start, k);
    ItsRule(ps, start, k);
    ItsOutbound(ps, start, k);
  }

  lemma ItsListener(ps: seq<Node>, start: int, k: nat)
    requires DistinctIndexes(ps) && k < |ps|
    ensures ListenerOn(FileOf(ps, start).inbounds, start + ps[k].index) == Some(InboundTag(CoercedNode(ps[k])))
  {
    FileLength(ps, start);
    hide InboundTag, FileOf, ListenerOn;
    var s := FileOf(ps, start).inbounds;
    forall i | 0 <= i < |s| && s[i].port == start + ps[k].index ensures i == k { TagsInFile(ps, start, i); }
    TagsInFile(ps, start, k);
    FirstListener(s, start + ps[k].index, k);
  }

  lemma ItsRule(ps: seq<Node>, start: int, k: nat)
    requires DistinctIndexes(ps) && k < |ps|
    ensures var p := CoercedNode(ps[k]); RuleFor(FileOf(ps, start).rules, InboundTag(p)) == Some(OutboundTag(p))
  {
    FileLength(ps, start);
    hide InboundTag, OutboundTag, FileOf, RuleFor;
    var s, p := FileOf(ps, start).rules, CoercedNode(ps[k]);
    forall i | 0 <= i < k ensures s[i].inboundTag != InboundTag(p) {
      TagsInFile(ps, start, i);
      if InboundTag(CoercedNode(ps[i])) == InboundTag(p) { InboundTagIndex(CoercedNode(ps[i]), p); }
    }
    TagsInFile(ps, start, k);
    FirstRule(s, InboundTag(p), k);
  }

  lemma ItsOutbound(ps: seq<Node>, start: int, k: nat)
    requires DistinctIndexes(ps) && k < |ps|
    ensures Tagged(FileOf(ps, start).outbounds, OutboundTag(CoercedNode(ps[k]))) == Some(Via(ps[k]))
  {
    FileLength(ps, start);
    hide OutboundTag, FileOf, Tagged;
    var out, tag := FileOf(ps, start).outbounds, OutboundTag(CoercedNode(ps[k]));
    TagsInFile(ps, start, k);
    forall i | 0 <= i < k + 2 ensures out[i].tag != tag { OutboundsUnique(ps, start, i, k + 2); }
    FirstOutbound(out, tag, k + 2);
  }

  /** A port that belongs to no proxy, a pruned one's included, is not open. */
  lemma OtherPortsClosed(ps: seq<Node>, start: int, port: int)
    ensures (forall k | 0 <= k < |ps| :: start + ps[k].index != port) ==> Route(FileOf(ps, start), port) == None
  {
    FileLength(ps, start);
    hide InboundTag, FileOf, ListenerOn, RuleFor, Tagged;
    if forall k | 0 <= k < |ps| :: start + ps[k].index != port {
      var s := FileOf(ps, start).inbounds;
      forall i | 0 <= i < |s| ensures s[i].port != port { TagsInFile(ps, start, i); }
      NoListener(s, port);
    }
  }
}
