/**
 AssignStableIDs: configurations whose connection hashes alike are told apart by their place in the order
 of name, subscription name and index. The result is specified by that place (`Rank`), counted directly.
 The hash is a parameter, any function on strings.
 */
module IdAssignment {
  import opened Text
  import Sorting
  import opened StableIds

  /** A configuration as AssignStableIDs sees it; id is "" until one is assigned. */
  datatype Proxy = Proxy(conn: Conn, name: string, sub: string, index: int, id: string)

  type Hash = string -> string

  function Base(hash: Hash, c: Conn): string {
    hash(Encode(Fields(c)))
  }

  function SuffixInput(base: string, n: int): string {
    base + "::" + Itoa(n)
  }

  function IdAt(hash: Hash, base: string, rank: nat): string {
    if rank == 0 then base else hash(SuffixInput(base, rank))
  }

  /** Configurations that already carry a foreign id keep it and take part in no group. */
  function Grouped(hash: Hash, p: Proxy): bool {
    p.id == "" || p.id == Base(hash, p.conn)
  }

  function InGroup(hash: Hash, p: Proxy, base: string): bool {
    Grouped(hash, p) && Base(hash, p.conn) == base
  }

  /** Positions of a group among the first n configurations, in order. */
  function Members(hash: Hash, ps: seq<Proxy>, base: string, n: nat): (r: seq<nat>)
    requires n <= |ps|
    ensures |r| <= n && forall i | 0 <= i < |r| :: r[i] < n
  {
    hide InGroup;
    if n == 0 then []
    else
      var init := Members(hash, ps, base, n - 1);
      if InGroup(hash, ps[n - 1], base) then init + [n - 1] else init
  }

  ghost predicate Ascends(s: seq<nat>) {
    forall i, j | 0 <= i < j < |s| :: s[i] < s[j]
  }

  lemma AscendsSnoc(s: seq<nat>, x: nat)
    requires Ascends(s) && forall i | 0 <= i < |s| :: s[i] < x
    ensures Ascends(s + [x])
  {
  }

  lemma {:induction false} MembersAscend(hash: Hash, ps: seq<Proxy>, base: string, n: nat)
    requires n <= |ps|
    ensures Ascends(Members(hash, ps, base, n))
  {
    hide InGroup;
    if n > 0 {
      MembersAscend(hash, ps, base, n - 1);
      AscendsSnoc(Members(hash, ps, base, n - 1), n - 1);
    }
  }

  lemma {:induction false} MembersAreInGroup(hash: Hash, ps: seq<Proxy>, base: string, n: nat)
    requires n <= |ps|
    ensures forall i | 0 <= i < n :: i in Members(hash, ps, base, n) <==> InGroup(hash, ps[i], base)
  {
    hide InGroup;
    if n > 0 { MembersAreInGroup(hash, ps, base, n - 1); }
  }

  // ---------------------------------------------------------------- the order within a group

  /** sort.SliceStable's less: name, then subscription name, then index. */
  function Less(a: Proxy, b: Proxy): bool {
    if a.name != b.name then Leq(a.name, b.name)
    else if a.sub != b.sub then Leq(a.sub, b.sub)
    else a.index < b.index
  }

  const NOBODY := Proxy(Conn("", "", 0, "", 0, "", "", "", "", [], "", "", "", "", "", "", "", [], "", "", "", "", "",
      "", "", ""), "", "", 0, "")

  function At(ps: seq<Proxy>, i: nat): Proxy {
    if i < |ps| then ps[i] else NOBODY
  }

  function NotAfter(ps: seq<Proxy>): (nat, nat) -> bool {
    (a: nat, b: nat) => !Less(At(ps, b), At(ps, a))
  }

  /** The order a stable sort gives: equal keys keep their position. */
  predicate Before(ps: seq<Proxy>, a: nat, b: nat) {
    Less(At(ps, a), At(ps, b)) || (!Less(At(ps, b), At(ps, a)) && a < b)
  }

  function BeforeThis(ps: seq<Proxy>, b: nat): nat -> bool {
    (a: nat) => Before(ps, a, b)
  }

  /** How many members of i's group come before i. */
  function Rank(hash: Hash, ps: seq<Proxy>, i: nat): nat
    requires i < |ps|
  {
    Sorting.Count(Members(hash, ps, Base(hash, ps[i].conn), |ps|), BeforeThis(ps, i))
  }

  function AssignedId(hash: Hash, ps: seq<Proxy>, i: nat): string
    requires i < |ps|
  {
    if !Grouped(hash, ps[i]) then ps[i].id
    else IdAt(hash, Base(hash, ps[i].conn), Rank(hash, ps, i))
  }

  lemma LessStrict(a: Proxy, b: Proxy, c: Proxy)
    ensures !Less(a, a)
    ensures Less(a, b) ==> !Less(b, a)
    ensures !Less(b, a) && !Less(c, b) ==> !Less(c, a)
    ensures Less(a, b) && !Less(c, b) ==> Less(a, c)
    ensures !Less(b, a) && Less(b, c) ==> Less(a, c)
    ensures !Less(a, b) && !Less(b, a) ==> a.name == b.name && a.sub == b.sub && a.index == b.index
  {
    hide Leq;
    StringOrder(a.name, b.name, c.name);
    StringOrder(a.sub, b.sub, c.sub);
  }

  lemma StringOrder(a: string, b: string, c: string)
    ensures Leq(a, b) || Leq(b, a)
    ensures Leq(a, c) || Leq(c, a)
    ensures Leq(b, c) || Leq(c, b)
    ensures Leq(a, b) && Leq(b, a) ==> a == b
    ensures Leq(b, c) && Leq(c, b) ==> b == c
    ensures Leq(a, c) && Leq(c, a) ==> a == c
    ensures Leq(a, b) && Leq(b, c) ==> Leq(a, c)
    ensures Leq(b, a) && Leq(a, c) ==> Leq(b, c)
    ensures Leq(a, c) && Leq(c, b) ==> Leq(a, b)
    ensures Leq(c, a) && Leq(a, b) ==> Leq(c, b)
    ensures Leq(b, c) && Leq(c, a) ==> Leq(b, a)
    ensures Leq(c, b) && Leq(b, a) ==> Leq(c, a)
  {
    hide Leq;
    LeqTotal(a, b);
    LeqTotal(a, c);
    LeqTotal(b, c);
    if Leq(a, b) && Leq(b, a) { LeqAntisymmetric(a, b); }
    if Leq(b, c) && Leq(c, b) { LeqAntisymmetric(b, c); }
    if Leq(a, c) && Leq(c, a) { LeqAntisymmetric(a, c); }
    if Leq(a, b) && Leq(b, c) { LeqTransitive(a, b, c); }
    if Leq(b, a) && Leq(a, c) { LeqTransitive(b, a, c); }
    if Leq(a, c) && Leq(c, b) { LeqTransitive(a, c, b); }
    if Leq(c, a) && Leq(a, b) { LeqTransitive(c, a, b); }
    if Leq(b, c) && Leq(c, a) { LeqTransitive(b, c, a); }
    if Leq(c, b) && Leq(b, a) { LeqTransitive(c, b, a); }
  }

  lemma BeforeStrict(ps: seq<Proxy>, a: nat, b: nat, c: nat)
    ensures !Before(ps, a, a)
    ensures a != b ==> Before(ps, a, b) || Before(ps, b, a)
    ensures Before(ps, a, b) ==> !Before(ps, b, a)
    ensures Before(ps, a, b) && Before(ps, b, c) ==> Before(ps, a, c)
  {
    hide Less;
    LessStrict(At(ps, a), At(ps, b), At(ps, c));
    LessStrict(At(ps, b), At(ps, c), At(ps, a));
    LessStrict(At(ps, c), At(ps, a), At(ps, b));
    LessStrict(At(ps, b), At(ps, a), At(ps, c));
  }

  // ---------------------------------------------------------------- sorted position is rank

  ghost predicate Ordered(ps: seq<Proxy>, s: seq<nat>) {
    forall i, j | 0 <= i < j < |s| :: Before(ps, s[i], s[j])
  }

  lemma {:induction false} InsertOrdered(ps: seq<Proxy>, x: nat, s: seq<nat>)
    requires Ordered(ps, s) && forall i | 0 <= i < |s| :: x < s[i]
    ensures Ordered(ps, Sorting.Insert(x, s, NotAfter(ps)))
  {
    hide Less, At;
    var r := Sorting.Insert(x, s, NotAfter(ps));
    if s == [] || !Less(At(ps, s[0]), At(ps, x)) {
      assert r == [x] + s;
      forall j | 0 <= j < |s| ensures Before(ps, x, s[j]) {
        assert Before(ps, x, s[0]);
        BeforeStrict(ps, x, s[0], s[j]);
      }
    } else {
      InsertOrdered(ps, x, s[1..]);
      var t := Sorting.Insert(x, s[1..], NotAfter(ps));
      assert r == [s[0]] + t;
      forall j | 0 <= j < |t| ensures Before(ps, s[0], t[j]) {
        assert t[j] in multiset(t);
        assert t[j] == x || t[j] in s[1..];
      }
    }
  }

  /** Stability: sorting positions that ascend puts them in the strict order Before. */
  lemma {:induction false} SortOrders(ps: seq<Proxy>, s: seq<nat>)
    requires Ascends(s)
    ensures Ordered(ps, Sorting.Sort(s, NotAfter(ps)))
  {
    hide Less, At;
    if s != [] {
      SortOrders(ps, s[1..]);
      var t := Sorting.Sort(s[1..], NotAfter(ps));
      forall i | 0 <= i < |t| ensures s[0] < t[i] {
        assert t[i] in multiset(t);
        assert t[i] in s[1..];
      }
      InsertOrdered(ps, s[0], t);
    }
  }

  lemma PlaceIsCount(ps: seq<Proxy>, s: seq<nat>, n: nat)
    requires Ordered(ps, s) && n < |s|
    ensures Sorting.Count(s, BeforeThis(ps, s[n])) == n
  {
    hide Before, Sorting.Count;
    var f := BeforeThis(ps, s[n]);
    forall i | 0 <= i < |s| ensures f(s[i]) == (i < n) {
      BeforeStrict(ps, s[i], s[n], s[n]);
      BeforeStrict(ps, s[n], s[i], s[i]);
    }
    CountFirst(s, f, n);
  }

  lemma CountFirst(s: seq<nat>, f: nat -> bool, n: nat)
    requires n <= |s| && forall i | 0 <= i < |s| :: f(s[i]) == (i < n)
    ensures Sorting.Count(s, f) == n
  {
    hide Sorting.Count;
    Sorting.CountAll(s[..n], f);
    Sorting.CountNone(s[n..], f);
    Sorting.CountConcat(s[..n], s[n..], f);
    assert s == s[..n] + s[n..];
  }

  lemma RankInGroup(hash: Hash, ps: seq<Proxy>, base: string, i: nat)
    requires i < |ps| && InGroup(hash, ps[i], base)
    ensures Rank(hash, ps, i) == Sorting.Count(Members(hash, ps, base, |ps|), BeforeThis(ps, i))
  {
    hide Base, Grouped, Members, BeforeThis, Sorting.Count;
  }

  /** The n-th member of a sorted group has rank n. */
  lemma SortedRank(hash: Hash, ps: seq<Proxy>, base: string, n: nat)
    requires n < |Members(hash, ps, base, |ps|)|
    ensures var s := Sorting.Sort(Members(hash, ps, base, |ps|), NotAfter(ps));
            && |s| == |Members(hash, ps, base, |ps|)| && s[n] in Members(hash, ps, base, |ps|)
            && Rank(hash, ps, s[n]) == n
  {
    hide InGroup, Less, At, Before, Sorting.Sort, Sorting.Count, Rank, Members;
    var g := Members(hash, ps, base, |ps|);
    var s := Sorting.Sort(g, NotAfter(ps));
    MembersAreInGroup(hash, ps, base, |ps|);
    MembersAscend(hash, ps, base, |ps|);
    SortOrders(ps, g);
    PlaceIsCount(ps, s, n);
    Sorting.CountPermutation(g, s, BeforeThis(ps, s[n]));
    assert s[n] in multiset(s);
    assert s[n] in g;
    RankInGroup(hash, ps, base, s[n]);
  }

  // ---------------------------------------------------------------- the objects

  class ProxyConfig {
    const conn: Conn
    const name: string
    const subName: string
    const labels: map<string, string>
    var index: int
    var stableID: string

    constructor (conn: Conn, name: string, subName: string, labels: map<string, string>)
      ensures this.conn == conn && this.name == name && this.subName == subName && this.labels == labels
      ensures index == 0 && stableID == ""
    {
      this.conn, this.name, this.subName, this.labels := conn, name, subName, labels;
      index, stableID := 0, "";
    }

    function View(): Proxy
      reads this
    {
      Proxy(conn, name, subName, index, stableID)
    }
  }

  function Views(proxies: seq<ProxyConfig>): (r: seq<Proxy>)
    reads proxies
    ensures |r| == |proxies| && forall i | 0 <= i < |r| :: r[i] == proxies[i].View()
  {
    if proxies == [] then [] else [proxies[0].View()] + Views(proxies[1..])
  }

  /** Groups by base id, in order of first appearance. */
  method GroupByBase(hash: Hash, ps: seq<Proxy>) returns (groups: map<string, seq<nat>>, order: seq<string>)
    ensures NoDuplicates(order) && forall b :: b in order <==> b in groups
    ensures forall b | b in groups :: groups[b] == Members(hash, ps, b, |ps|)
    ensures forall i | 0 <= i < |ps| && Grouped(hash, ps[i]) :: Base(hash, ps[i].conn) in groups
  {
    hide Base;
    groups, order := map[], [];
    for i := 0 to |ps|
      invariant NoDuplicates(order) && forall b :: b in order <==> b in groups
      invariant forall b | b in groups :: groups[b] == Members(hash, ps, b, i)
      invariant forall b | b !in groups :: Members(hash, ps, b, i) == []
      invariant forall k | 0 <= k < i && Grouped(hash, ps[k]) :: Base(hash, ps[k].conn) in groups
    {
      var base := Base(hash, ps[i].conn);
      if ps[i].id != "" && ps[i].id != base { continue; }
      if base !in groups {
        order := order + [base];
        groups := groups[base := [i]];
      } else {
        groups := groups[base := groups[base] + [i]];
      }
    }
  }

  /** What SortedRank says of a whole sorted group: each member occurs once, at its rank. */
  lemma SortedGroup(hash: Hash, ps: seq<Proxy>, base: string, s: seq<nat>)
    requires s == Sorting.Sort(Members(hash, ps, base, |ps|), NotAfter(ps))
    ensures forall n | 0 <= n < |s| :: s[n] in Members(hash, ps, base, |ps|) && Rank(hash, ps, s[n]) == n
    ensures forall i | i in Members(hash, ps, base, |ps|) :: Rank(hash, ps, i) < |s| && s[Rank(hash, ps, i)] == i
  {
    hide Rank, Members, InGroup, NotAfter, Sorting.Sort;
    var g := Members(hash, ps, base, |ps|);
    forall n | 0 <= n < |s| ensures s[n] in g && Rank(hash, ps, s[n]) == n { SortedRank(hash, ps, base, n); }
    forall i | i in g ensures Rank(hash, ps, i) < |s| && s[Rank(hash, ps, i)] == i {
      assert i in multiset(s);
      var n :| 0 <= n < |s| && s[n] == i;
    }
  }

  /** One group's ids: the bare hash for the first in order, a suffixed hash for every other. */
  method WriteGroup(proxies: seq<ProxyConfig>, hash: Hash, ps: seq<Proxy>, base: string, group: seq<nat>)
    requires forall i, j | 0 <= i < j < |proxies| :: proxies[i] != proxies[j]
    requires |ps| == |proxies| && group == Members(hash, ps, base, |ps|)
    modifies proxies
    ensures forall i | 0 <= i < |proxies| :: proxies[i].index == old(proxies[i].index)
    ensures forall i | 0 <= i < |ps| ::
              proxies[i].stableID == if i in group then IdAt(hash, base, Rank(hash, ps, i))
                  else old(proxies[i].stableID)
  {
    hide Rank, Members, InGroup, NotAfter, SuffixInput, Sorting.Sort, Itoa;
    SortedGroup(hash, ps, base, Sorting.Sort(group, NotAfter(ps)));
    if |group| == 1 {
      assert Rank(hash, ps, group[0]) == 0;
      proxies[group[0]].stableID := base;
      return;
    }
    var sorted := Sorting.Sort(group, NotAfter(ps));
    for n := 0 to |sorted|
      invariant forall i | 0 <= i < |ps| :: proxies[i].index == old(proxies[i].index)
      invariant forall i | 0 <= i < |ps| ::
                  proxies[i].stableID == if i in group && Rank(hash, ps, i) < n then IdAt(hash, base, Rank(hash, ps, i))
                                         else old(proxies[i].stableID)
    {
      assert Rank(hash, ps, sorted[n]) == n;
      if n == 0 {
        proxies[sorted[n]].stableID := base;
      } else {
        proxies[sorted[n]].stableID := hash(SuffixInput(base, n));
      }
    }
  }

  method AssignStableIDs(proxies: seq<ProxyConfig>, hash: Hash)
    requires forall i, j | 0 <= i < j < |proxies| :: proxies[i] != proxies[j]
    modifies proxies
    ensures forall i | 0 <= i < |proxies| :: proxies[i].index == old(proxies[i].index)
    ensures forall i | 0 <= i < |proxies| :: proxies[i].stableID == AssignedId(hash, old(Views(proxies)), i)
  {
    hide Base, IdAt, Rank, Grouped, Members, AssignedId, IdAfter;
    var ps := Views(proxies);
    var groups, order := GroupByBase(hash, ps);
    NothingWritten(hash, ps, order);
    for k := 0 to |order|
      invariant forall i | 0 <= i < |proxies| :: proxies[i].index == old(proxies[i].index)
      invariant forall i | 0 <= i < |proxies| :: proxies[i].stableID == IdAfter(hash, ps, order[..k], i)
    {
      GroupWritten(hash, ps, order, k);
      WriteGroup(proxies, hash, ps, order[k], groups[order[k]]);
    }
    AllWritten(hash, ps, order);
  }

  /** The id of configuration i once the given groups have been written. */
  ghost function IdAfter(hash: Hash, ps: seq<Proxy>, bases: seq<string>, i: nat): string
    requires i < |ps|
  {
    if Grouped(hash, ps[i]) && Base(hash, ps[i].conn) in bases then AssignedId(hash, ps, i) else ps[i].id
  }

  lemma NothingWritten(hash: Hash, ps: seq<Proxy>, order: seq<string>)
    ensures forall i | 0 <= i < |ps| :: IdAfter(hash, ps, order[..0], i) == ps[i].id
  {
    hide Grouped, Base, AssignedId;
  }

  lemma GroupWritten(hash: Hash, ps: seq<Proxy>, order: seq<string>, k: nat)
    requires k < |order| && NoDuplicates(order)
    ensures forall i | 0 <= i < |ps| ::
              IdAfter(hash, ps, order[..k + 1], i) == if i in Members(hash, ps, order[k], |ps|)
                                                      then IdAt(hash, order[k], Rank(hash, ps, i))
                                                      else IdAfter(hash, ps, order[..k], i)
  {
    hide Base, Rank, IdAt, Grouped, Members;
    MembersAreInGroup(hash, ps, order[k], |ps|);
    assert order[..k + 1] == order[..k] + [order[k]];
  }

  lemma AllWritten(hash: Hash, ps: seq<Proxy>, order: seq<string>)
    requires forall i | 0 <= i < |ps| && Grouped(hash, ps[i]) :: Base(hash, ps[i].conn) in order
    ensures forall i | 0 <= i < |ps| :: IdAfter(hash, ps, order[..|order|], i) == AssignedId(hash, ps, i)
  {
    hide Base, Rank, IdAt, Grouped;
    assert order[..|order|] == order;
  }
}
