/**
 Connection identities: the length-framed encoding of the fields that make up an identity, and its inverse.
 What is hashed is this encoding.
 */
module StableIds {
  import opened Options
  import opened Text
  import Sorting

  /** The connection parameters of a proxy, secrets that are not hashed left out. */
  datatype Conn = Conn(
    protocol: string, server: string, port: int, uuid: string, alterId: int, cipher: string,
    hysteriaPorts: string, hysteriaObfs: string, wgPeerPublicKey: string, wgAddresses: seq<string>,
    encryption: string, flow: string, security: string, sni: string, fingerprint: string, publicKey: string,
    shortId: string, alpn: seq<string>, net: string, headerType: string, host: string, path: string,
    serviceName: string, mode: string, rawXhttp: string, rawKcp: string)

  datatype Field = Field(key: string, val: string)

  function Join(parts: seq<string>): string {
    if parts == [] then "" else if |parts| == 1 then parts[0] else parts[0] + "," + Join(parts[1..])
  }

  function SortStrings(s: seq<string>): seq<string> {
    Sorting.Sort(s, Leq)
  }

  function Head(c: Conn): seq<Field> {
    [Field("protocol", c.protocol), Field("server", c.server), Field("port", Itoa(c.port))]
  }

  function Specific(c: Conn): seq<Field> {
    if c.protocol == "vless" then [Field("uuid", c.uuid)]
    else if c.protocol == "vmess" then [Field("uuid", c.uuid), Field("alterId", Itoa(c.alterId))]
    else if c.protocol == "shadowsocks" then [Field("method", c.cipher)]
    else if c.protocol == "hysteria" then [Field("ports", c.hysteriaPorts), Field("obfs", c.hysteriaObfs)]
    else if c.protocol == "wireguard" then [Field("wgpub", c.wgPeerPublicKey), Field("wgaddr", Join(c.wgAddresses))]
    else []
  }

  function Tail(c: Conn): seq<Field> {
    [Field("encryption", c.encryption), Field("flow", c.flow), Field("security", c.security), Field("sni", c.sni),
     Field("fp", c.fingerprint), Field("pbk", c.publicKey), Field("sid", c.shortId),
         Field("alpn", Join(SortStrings(c.alpn))),
     Field("net", c.net), Field("headerType", c.headerType), Field("host", c.host), Field("path", c.path),
     Field("serviceName", c.serviceName), Field("mode", c.mode), Field("rawXhttp", c.rawXhttp),
         Field("rawKcp", c.rawKcp)]
  }

  function Fields(c: Conn): seq<Field> {
    Head(c) + Specific(c) + Tail(c)
  }

  // ---------------------------------------------------------------- the framing and its inverse

  /** One component, `key=len:val;`. */
  function Frame(f: Field): string {
    f.key + ['='] + (Utoa(|f.val|) + [':'] + (f.val + [';']))
  }

  function Encode(fs: seq<Field>): string {
    if fs == [] then "" else Frame(fs[0]) + Encode(fs[1..])
  }

  /** The first component and what follows it. */
  function DecodeFirst(s: string): (r: Option<(Field, string)>)
    ensures r.Some? ==> |r.value.1| < |s|
  {
    var e := IndexOf(s, '=');
    if e == -1 then None else FirstValue(s[..e], s[e + 1..])
  }

  /** The length, the value of that length, and the terminator. */
  function FirstValue(key: string, rest: string): (r: Option<(Field, string)>)
    ensures r.Some? ==> |r.value.1| < |rest|
  {
    var colon := IndexOf(rest, ':');
    if colon == -1 || !AllDigits(rest[..colon]) then None
    else
      var n, body := Value(rest[..colon]), rest[colon + 1..];
      if n >= |body| || body[n] != ';' then None
      else Some((Field(key, body[..n]), body[n + 1..]))
  }

  function Decode(s: string): Option<seq<Field>>
    decreases |s|
  {
    if s == "" then Some([])
    else
      match DecodeFirst(s)
      case None => None
      case Some(first) =>
        match Decode(first.1)
        case None => None
        case Some(fs) => Some([first.0] + fs)
  }

  ghost predicate PlainKeys(fs: seq<Field>) {
    forall i | 0 <= i < |fs| :: '=' !in fs[i].key
  }

  lemma {:induction false} DecodeEncode(fs: seq<Field>)
    requires PlainKeys(fs)
    ensures Decode(Encode(fs)) == Some(fs)
  {
    hide Frame, DecodeFirst;
    if fs != [] {
      DecodeEncode(fs[1..]);
      DecodeFrame(fs[0], Encode(fs[1..]));
      assert fs == [fs[0]] + fs[1..];
    }
  }

  /** The decoder takes off exactly the first frame. */
  lemma DecodeFrame(f: Field, more: string)
    requires '=' !in f.key
    ensures DecodeFirst(Frame(f) + more) == Some((f, more))
  {
    hide Utoa, IndexOf, FirstValue;
    var rest := Utoa(|f.val|) + [':'] + (f.val + [';'] + more);
    var s := Frame(f) + more;
    assert s == f.key + ['='] + rest;
    IndexOfFirst(f.key, '=', rest);
    assert s[|f.key| + 1..] == rest && s[..|f.key|] == f.key;
    DecodeValue(f, more);
  }

  lemma DecodeValue(f: Field, more: string)
    ensures FirstValue(f.key, Utoa(|f.val|) + [':'] + (f.val + [';'] + more)) == Some((f, more))
  {
    hide Utoa, IndexOf, Value;
    var len, body := Utoa(|f.val|), f.val + [';'] + more;
    var rest := len + [':'] + body;
    IndexOfFirst(len, ':', body);
    assert rest[..|len|] == len && rest[|len| + 1..] == body;
    ValueOfUtoa(|f.val|);
    assert body[|f.val|] == ';' && body[..|f.val|] == f.val && body[|f.val| + 1..] == more;
  }

  lemma FieldKeysPlain(c: Conn)
    ensures PlainKeys(Fields(c))
  {
    hide Head, Specific, Tail;
    PlainHead(c);
    PlainSpecific(c);
    PlainTail(c);
    PlainConcat(Head(c), Specific(c));
    PlainConcat(Head(c) + Specific(c), Tail(c));
  }

  lemma PlainConcat(a: seq<Field>, b: seq<Field>)
    requires PlainKeys(a) && PlainKeys(b)
    ensures PlainKeys(a + b)
  {
  }

  lemma PlainHead(c: Conn)
    ensures PlainKeys(Head(c))
  {
    hide Itoa;
    assert '=' !in "protocol" && '=' !in "server" && '=' !in "port";
  }

  lemma PlainSpecific(c: Conn)
    ensures PlainKeys(Specific(c))
  {
    hide Join, Itoa;
    assert '=' !in "uuid" && '=' !in "alterId" && '=' !in "method" && '=' !in "ports" && '=' !in "obfs";
    assert '=' !in "wgpub" && '=' !in "wgaddr";
  }

  lemma PlainTail(c: Conn)
    ensures PlainKeys(Tail(c))
  {
    hide Join, SortStrings;
    assert '=' !in "encryption" && '=' !in "flow" && '=' !in "security" && '=' !in "sni";
    assert '=' !in "fp" && '=' !in "pbk" && '=' !in "sid" && '=' !in "alpn";
    assert '=' !in "net" && '=' !in "headerType" && '=' !in "host" && '=' !in "path";
    assert '=' !in "serviceName" && '=' !in "mode" && '=' !in "rawXhttp" && '=' !in "rawKcp";
  }

  /** Texts that commas can separate. */
  ghost predicate Separable(parts: seq<string>) {
    forall i | 0 <= i < |parts| :: parts[i] != "" && ',' !in parts[i]
  }

  lemma {:induction false} JoinUnique(a: seq<string>, b: seq<string>)
    requires Separable(a) && Separable(b) && Join(a) == Join(b)
    ensures a == b
  {
    if a != [] && b != [] {
      JoinFirst(a);
      JoinFirst(b);
      if |a| > 1 && |b| > 1 {
        FirstSeparatorUnique(a[0], Join(a[1..]), b[0], Join(b[1..]), ',');
        JoinUnique(a[1..], b[1..]);
        assert a == [a[0]] + a[1..] && b == [b[0]] + b[1..];
      }
    }
  }

  lemma JoinFirst(s: seq<string>)
    requires s != [] && Separable(s)
    ensures Join(s) != ""
    ensures |s| == 1 ==> Join(s) == s[0] && ',' !in Join(s)
    ensures |s| > 1 ==> Join(s) == s[0] + [','] + Join(s[1..]) && ',' in Join(s)
  {
    if |s| > 1 { assert Join(s)[|s[0]|] == ','; }
  }

  lemma SortedStrings(a: seq<string>, b: seq<string>)
    ensures multiset(SortStrings(a)) == multiset(a)
    ensures multiset(a) == multiset(b) ==> SortStrings(a) == SortStrings(b)
  {
    hide Leq;
    forall x, y ensures (Leq(x, y) || Leq(y, x)) && (Leq(x, y) && Leq(y, x) ==> x == y) {
      LeqTotal(x, y);
      if Leq(x, y) && Leq(y, x) { LeqAntisymmetric(x, y); }
    }
    forall x, y, z ensures Leq(x, y) && Leq(y, z) ==> Leq(x, z) {
      if Leq(x, y) && Leq(y, z) { LeqTransitive(x, y, z); }
    }
    Sorting.SortSorts(a, Leq);
    Sorting.SortSorts(b, Leq);
    if multiset(a) == multiset(b) { Sorting.SortedUnique(SortStrings(a), SortStrings(b), Leq); }
  }

  /** Of lists the identity keeps the order, and of the ALPN list only what it holds and how often. */
  lemma ListsIdentified(a: seq<string>, b: seq<string>)
    requires Separable(a) && Separable(b)
    ensures Join(a) == Join(b) <==> a == b
    ensures Join(SortStrings(a)) == Join(SortStrings(b)) <==> multiset(a) == multiset(b)
  {
    hide Join, SortStrings;
    SortedStrings(a, b);
    SortedStrings(b, a);
    SortedSeparable(a);
    SortedSeparable(b);
    if Join(a) == Join(b) { JoinUnique(a, b); }
    if Join(SortStrings(a)) == Join(SortStrings(b)) { JoinUnique(SortStrings(a), SortStrings(b)); }
  }

  lemma SortedSeparable(s: seq<string>)
    requires Separable(s) && multiset(SortStrings(s)) == multiset(s)
    ensures Separable(SortStrings(s))
  {
    var t := SortStrings(s);
    forall i | 0 <= i < |t| ensures t[i] != "" && ',' !in t[i] {
      assert t[i] in multiset(t);
      assert t[i] in s;
    }
  }

  /** Two configurations that agree on everything the identity covers. */
  ghost predicate SameIdentity(a: Conn, b: Conn) {
    && a.protocol == b.protocol && a.server == b.server && a.port == b.port
    && (a.protocol in {"vless", "vmess"} ==> a.uuid == b.uuid)
    && (a.protocol == "vmess" ==> a.alterId == b.alterId)
    && (a.protocol == "shadowsocks" ==> a.cipher == b.cipher)
    && (a.protocol == "hysteria" ==> a.hysteriaPorts == b.hysteriaPorts && a.hysteriaObfs == b.hysteriaObfs)
    && (a.protocol == "wireguard"
        ==> a.wgPeerPublicKey == b.wgPeerPublicKey && Join(a.wgAddresses) == Join(b.wgAddresses))
    && a.encryption == b.encryption && a.flow == b.flow && a.security == b.security && a.sni == b.sni
    && a.fingerprint == b.fingerprint && a.publicKey == b.publicKey && a.shortId == b.shortId
    && Join(SortStrings(a.alpn)) == Join(SortStrings(b.alpn))
    && a.net == b.net && a.headerType == b.headerType && a.host == b.host && a.path == b.path
    && a.serviceName == b.serviceName && a.mode == b.mode && a.rawXhttp == b.rawXhttp && a.rawKcp == b.rawKcp
  }

  lemma SameFields(a: Conn, b: Conn)
    requires Fields(a) == Fields(b)
    ensures Head(a) == Head(b) && Specific(a) == Specific(b) && Tail(a) == Tail(b)
  {
    hide Join, SortStrings, Itoa;
    var fa, fb := Fields(a), Fields(b);
    assert Head(a) == fa[..3] == fb[..3] == Head(b);
    assert Head(a)[0].val == Head(b)[0].val;
    var k := |Specific(a)|;
    assert |Specific(b)| == k;
    assert Specific(a) == fa[3..3 + k] && Specific(b) == fb[3..3 + k];
    assert Tail(a) == fa[3 + k..] && Tail(b) == fb[3 + k..];
  }

  lemma TailsAgree(a: Conn, b: Conn)
    requires Tail(a) == Tail(b)
    ensures a.encryption == b.encryption && a.flow == b.flow && a.security == b.security && a.sni == b.sni
    ensures a.fingerprint == b.fingerprint && a.publicKey == b.publicKey && a.shortId == b.shortId
    ensures Join(SortStrings(a.alpn)) == Join(SortStrings(b.alpn))
    ensures a.net == b.net && a.headerType == b.headerType && a.host == b.host && a.path == b.path
    ensures a.serviceName == b.serviceName && a.mode == b.mode && a.rawXhttp == b.rawXhttp && a.rawKcp == b.rawKcp
  {
    hide Join, SortStrings;
    var ta, tb := Tail(a), Tail(b);
    assert forall i | 0 <= i < 16 :: ta[i].val == tb[i].val;
    assert ta[0].val == a.encryption && ta[1].val == a.flow && ta[2].val == a.security && ta[3].val == a.sni;
    assert ta[4].val == a.fingerprint && ta[5].val == a.publicKey && ta[6].val == a.shortId;
    assert ta[7].val == Join(SortStrings(a.alpn)) && ta[8].val == a.net && ta[9].val == a.headerType;
    assert ta[10].val == a.host && ta[11].val == a.path && ta[12].val == a.serviceName;
    assert ta[13].val == a.mode && ta[14].val == a.rawXhttp && ta[15].val == a.rawKcp;
  }

  /** The hashed string identifies a configuration: same string exactly for the same identity. */
  lemma EncodingIsIdentity(a: Conn, b: Conn)
    ensures Encode(Fields(a)) == Encode(Fields(b)) <==> SameIdentity(a, b)
  {
    hide Join, SortStrings, Itoa, Encode, Decode, Tail;
    if Encode(Fields(a)) == Encode(Fields(b)) {
      FieldKeysPlain(a);
      FieldKeysPlain(b);
      DecodeEncode(Fields(a));
      DecodeEncode(Fields(b));
      assert Fields(a) == Fields(b);
      SameFields(a, b);
      assert Head(a)[0].val == Head(b)[0].val && Head(a)[1].val == Head(b)[1].val && Head(a)[2].val == Head(b)[2].val;
      ItoaInjective(a.port, b.port);
      TailsAgree(a, b);
      SpecificsAgree(a, b);
    }
    if SameIdentity(a, b) { IdentityGivesFields(a, b); }
  }

  lemma IdentityGivesFields(a: Conn, b: Conn)
    requires SameIdentity(a, b)
    ensures Fields(a) == Fields(b)
  {
    hide Join, SortStrings, Itoa;
    assert Head(a) == Head(b);
    assert Specific(a) == Specific(b);
    assert Tail(a) == Tail(b);
  }

  lemma SpecificsAgree(a: Conn, b: Conn)
    requires a.protocol == b.protocol && Specific(a) == Specific(b)
    ensures a.protocol in {"vless", "vmess"} ==> a.uuid == b.uuid
    ensures a.protocol == "vmess" ==> a.alterId == b.alterId
    ensures a.protocol == "shadowsocks" ==> a.cipher == b.cipher
    ensures a.protocol == "hysteria" ==> a.hysteriaPorts == b.hysteriaPorts && a.hysteriaObfs == b.hysteriaObfs
    ensures a.protocol == "wireguard" ==>
              a.wgPeerPublicKey == b.wgPeerPublicKey && Join(a.wgAddresses) == Join(b.wgAddresses)
  {
    hide Join, Itoa;
    var x, y := Specific(a), Specific(b);
    assert forall i | 0 <= i < |x| :: x[i].val == y[i].val;
    if a.protocol == "vmess" {
      assert x[1].val == Itoa(a.alterId) && y[1].val == Itoa(b.alterId);
      ItoaInjective(a.alterId, b.alterId);
    }
  }
}
