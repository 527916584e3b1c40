/** Stable ids over whole sets: distinct, unchanged by a second assignment, independent of the order of the set. */
module IdProofs {
  import opened Text
  import Sorting
  import opened StableIds
  import opened IdAssignment

  // ---------------------------------------------------------------- what is hashed

  function Encoding(p: Proxy): string {
    Encode(Fields(p.conn))
  }

  /** The strings an assignment over ps may hash. */
  ghost predicate Hashed(hash: Hash, ps: seq<Proxy>, s: string) {
    || (exists i :: 0 <= i < |ps| && s == Encoding(ps[i]))
    || (exists i, n :: 0 <= i < |ps| && 0 < n < |ps| && s == SuffixInput(Base(hash, ps[i].conn), n))
  }

  /** The hash does not collide on those strings and is never empty on them. */
  ghost predicate Ideal(hash: Hash, ps: seq<Proxy>) {
    && (forall s, t | Hashed(hash, ps, s) && Hashed(hash, ps, t) && hash(s) == hash(t) :: s == t)
    && (forall s | Hashed(hash, ps, s) :: hash(s) != "")
  }

  /** The string whose hash becomes the id of a grouped configuration. */
  function HashedFor(hash: Hash, ps: seq<Proxy>, i: nat): string
    requires i < |ps|
  {
    if Rank(hash, ps, i) == 0 then Encoding(ps[i]) else SuffixInput(Base(hash, ps[i].conn), Rank(hash, ps, i))
  }

  lemma RankBelow(hash: Hash, ps: seq<Proxy>, i: nat)
    requires i < |ps| && Grouped(hash, ps[i])
    ensures Rank(hash, ps, i) < |ps|
  {
    hide Base, Grouped, Rank, Members, Sorting.Sort, NotAfter;
    var base := Base(hash, ps[i].conn);
    MembersAreInGroup(hash, ps, base, |ps|);
    SortedGroup(hash, ps, base, Sorting.Sort(Members(hash, ps, base, |ps|), NotAfter(ps)));
  }

  lemma IdIsHash(hash: Hash, ps: seq<Proxy>, i: nat)
    requires i < |ps| && Grouped(hash, ps[i])
    ensures AssignedId(hash, ps, i) == hash(HashedFor(hash, ps, i)) && Hashed(hash, ps, HashedFor(hash, ps, i))
  {
    hide Encode, Fields, Rank, SuffixInput, Grouped;
    RankBelow(hash, ps, i);
  }

  /** Within a group, no two configurations have the same rank. */
  lemma RanksDiffer(hash: Hash, ps: seq<Proxy>, i: nat, j: nat)
    requires i < |ps| && j < |ps| && Grouped(hash, ps[i]) && Grouped(hash, ps[j])
    requires Base(hash, ps[i].conn) == Base(hash, ps[j].conn) && Rank(hash, ps, i) == Rank(hash, ps, j)
    ensures i == j
  {
    hide Base, Grouped, Rank, Members, Sorting.Sort, NotAfter;
    var base := Base(hash, ps[i].conn);
    MembersAreInGroup(hash, ps, base, |ps|);
    SortedGroup(hash, ps, base, Sorting.Sort(Members(hash, ps, base, |ps|), NotAfter(ps)));
  }

  lemma EncodingEnds(fs: seq<Field>)
    requires fs != []
    ensures Encode(fs) != "" && Encode(fs)[|Encode(fs)| - 1] == ';'
  {
    if |fs| > 1 { EncodingEnds(fs[1..]); }
  }

  /** An encoding is never the input of a suffixed hash: one ends in `;`, the other in a digit. */
  lemma EncodingIsNoSuffix(p: Proxy, base: string, n: int)
    ensures Encoding(p) != SuffixInput(base, n)
  {
    hide Encode, Utoa, Specific, Tail;
    EncodingEnds(Fields(p.conn));
    var t := Itoa(n);
    assert t[|t| - 1] != ';' by { ItoaHasNo(n, ';'); }
    var s := SuffixInput(base, n);
    assert s[|s| - 1] == t[|t| - 1];
  }

  lemma SuffixInputsDiffer(b: string, m: int, b': string, n: int)
    requires SuffixInput(b, m) == SuffixInput(b', n)
    ensures b == b' && m == n
  {
    hide Itoa;
    ItoaHasNo(m, ':');
    ItoaHasNo(n, ':');
    assert SuffixInput(b, m) == (b + ":") + [':'] + Itoa(m);
    assert SuffixInput(b', n) == (b' + ":") + [':'] + Itoa(n);
    LastSeparatorUnique(b + ":", Itoa(m), b' + ":", Itoa(n), ':');
    assert b == (b + ":")[..|b|] == b';
    ItoaInjective(m, n);
  }

  /** Configurations without a foreign id all get different ids. */
  lemma IdsDistinct(hash: Hash, ps: seq<Proxy>, i: nat, j: nat)
    requires Ideal(hash, ps) && i < |ps| && j < |ps| && Grouped(hash, ps[i]) && Grouped(hash, ps[j])
    ensures AssignedId(hash, ps, i) == AssignedId(hash, ps, j) <==> i == j
  {
    hide Encoding, Grouped, Rank, SuffixInput, AssignedId, Hashed;
    if AssignedId(hash, ps, i) == AssignedId(hash, ps, j) {
      IdIsHash(hash, ps, i);
      IdIsHash(hash, ps, j);
      assert HashedFor(hash, ps, i) == HashedFor(hash, ps, j);
      EncodingIsNoSuffix(ps[i], Base(hash, ps[j].conn), Rank(hash, ps, j));
      EncodingIsNoSuffix(ps[j], Base(hash, ps[i].conn), Rank(hash, ps, i));
      SameHashedSameBase(hash, ps, i, j);
      RanksDiffer(hash, ps, i, j);
    }
  }

  lemma SameHashedSameBase(hash: Hash, ps: seq<Proxy>, i: nat, j: nat)
    requires i < |ps| && j < |ps| && HashedFor(hash, ps, i) == HashedFor(hash, ps, j)
    ensures Base(hash, ps[i].conn) == Base(hash, ps[j].conn) && Rank(hash, ps, i) == Rank(hash, ps, j)
  {
    hide Encode, Fields, Rank, SuffixInput;
    var m, n := Rank(hash, ps, i), Rank(hash, ps, j);
    EncodingIsNoSuffix(ps[i], Base(hash, ps[j].conn), n);
    EncodingIsNoSuffix(ps[j], Base(hash, ps[i].conn), m);
    if m > 0 && n > 0 { SuffixInputsDiffer(Base(hash, ps[i].conn), m, Base(hash, ps[j].conn), n); }
  }

  /** An ideal hash gives the same bare id exactly to configurations that describe the same connection. */
  lemma BaseIsIdentity(hash: Hash, ps: seq<Proxy>, i: nat, j: nat)
    requires Ideal(hash, ps) && i < |ps| && j < |ps|
    ensures Base(hash, ps[i].conn) == Base(hash, ps[j].conn) <==> SameIdentity(ps[i].conn, ps[j].conn)
  {
    hide Encode, Fields, SameIdentity, SuffixInput;
    assert Hashed(hash, ps, Encoding(ps[i])) && Hashed(hash, ps, Encoding(ps[j]));
    EncodingIsIdentity(ps[i].conn, ps[j].conn);
  }

  // ---------------------------------------------------------------- a second assignment

  function Renamed(hash: Hash, ps: seq<Proxy>): (r: seq<Proxy>)
    ensures |r| == |ps| && forall i | 0 <= i < |ps| :: r[i] == ps[i].(id := AssignedId(hash, ps, i))
  {
    hide AssignedId;
    seq(|ps|, i requires 0 <= i < |ps| => ps[i].(id := AssignedId(hash, ps, i)))
  }

  /** After an assignment only the first of each group still looks unassigned. */
  lemma GroupedAfter(hash: Hash, ps: seq<Proxy>, i: nat)
    requires Ideal(hash, ps) && i < |ps|
    ensures Grouped(hash, Renamed(hash, ps)[i]) <==> Grouped(hash, ps[i]) && Rank(hash, ps, i) == 0
  {
    hide Encode, Fields, Rank, SuffixInput, Renamed, Hashed;
    if Grouped(hash, ps[i]) {
      IdIsHash(hash, ps, i);
      BaseHashed(hash, ps, i);
      if Rank(hash, ps, i) > 0 { EncodingIsNoSuffix(ps[i], Base(hash, ps[i].conn), Rank(hash, ps, i)); }
    }
  }

  lemma BaseHashed(hash: Hash, ps: seq<Proxy>, i: nat)
    requires i < |ps|
    ensures Hashed(hash, ps, Encoding(ps[i]))
  {
    hide Encoding, Base;
  }

  lemma FirstTwoDiffer(g: seq<nat>)
    requires Ascends(g)
    ensures |g| < 2 || g[0] != g[1]
  {
  }

  lemma AloneAfter(hash: Hash, ps: seq<Proxy>, i: nat)
    requires Ideal(hash, ps) && i < |ps| && Grouped(hash, ps[i]) && Rank(hash, ps, i) == 0
    ensures Members(hash, Renamed(hash, ps), Base(hash, ps[i].conn), |ps|) == [i]
  {
    hide Base, Rank, Members, Renamed, Grouped, AssignedId, Ideal;
    var qs, base := Renamed(hash, ps), Base(hash, ps[i].conn);
    MembersAreInGroup(hash, qs, base, |ps|);
    var g := Members(hash, qs, base, |ps|);
    GroupedAfter(hash, ps, i);
    assert i in g;
    forall k | 0 <= k < |g| ensures g[k] == i {
      assert g[k] in g;
      GroupedAfter(hash, ps, g[k]);
      RanksDiffer(hash, ps, i, g[k]);
    }
    MembersAscend(hash, qs, base, |qs|);
    FirstTwoDiffer(g);
  }

  /** Assigning again over an assigned set changes nothing, foreign ids included. */
  lemma SecondAssignmentChangesNothing(hash: Hash, ps: seq<Proxy>, i: nat)
    requires Ideal(hash, ps) && i < |ps|
    ensures AssignedId(hash, Renamed(hash, ps), i) == AssignedId(hash, ps, i)
  {
    hide Base, Members, Renamed, Grouped, Ideal, Before, SuffixInput;
    var qs := Renamed(hash, ps);
    GroupedAfter(hash, ps, i);
    if Grouped(hash, qs[i]) {
      AloneAfter(hash, ps, i);
      BeforeStrict(qs, i, i, i);
      Sorting.CountNone([i], BeforeThis(qs, i));
    }
  }

  // ---------------------------------------------------------------- the order of the set

  /** Everything but the position. */
  function Strip(p: Proxy): Proxy {
    p.(index := 0)
  }

  function Stripped(ps: seq<Proxy>): (r: seq<Proxy>)
    ensures |r| == |ps| && forall i | 0 <= i < |ps| :: r[i] == Strip(ps[i])
  {
    seq(|ps|, i requires 0 <= i < |ps| => Strip(ps[i]))
  }

  /** No two members of one group share both name and subscription name. */
  ghost predicate Distinguished(hash: Hash, ps: seq<Proxy>) {
    forall i, j | 0 <= i < j < |ps| && Grouped(hash, ps[i]) && Grouped(hash, ps[j])
        && Base(hash, ps[i].conn) == Base(hash, ps[j].conn) ::
      ps[i].name != ps[j].name || ps[i].sub != ps[j].sub
  }

  /** Whether a configuration of p's group comes before p by name, then subscription name. */
  predicate Ahead(hash: Hash, q: Proxy, p: Proxy) {
    InGroup(hash, q, Base(hash, p.conn)) && Less(Strip(q), Strip(p))
  }

  function AheadOf(hash: Hash, p: Proxy): Proxy -> bool {
    (q: Proxy) => Ahead(hash, q, p)
  }

  lemma AheadIsBefore(hash: Hash, ps: seq<Proxy>, i: nat, j: nat)
    requires Distinguished(hash, ps) && i < |ps| && j < |ps| && Grouped(hash, ps[i])
    requires InGroup(hash, ps[j], Base(hash, ps[i].conn))
    ensures Ahead(hash, Strip(ps[j]), Strip(ps[i])) == Before(ps, j, i)
  {
    hide Base, Leq;
    assert Grouped(hash, ps[j]) && Grouped(hash, Strip(ps[j]));
    StringOrder(ps[i].name, ps[j].name, ps[i].name);
    StringOrder(ps[i].sub, ps[j].sub, ps[i].sub);
    if i != j { assert ps[i].name != ps[j].name || ps[i].sub != ps[j].sub; }
  }

  lemma {:induction false} RankCounts(hash: Hash, ps: seq<Proxy>, i: nat, n: nat)
    requires Distinguished(hash, ps) && i < |ps| && n <= |ps| && Grouped(hash, ps[i])
    ensures Sorting.Count(Members(hash, ps, Base(hash, ps[i].conn), n), BeforeThis(ps, i))
         == Sorting.Count(Stripped(ps)[..n], AheadOf(hash, Strip(ps[i])))
  {
    hide Base, Distinguished, Grouped, InGroup, Before, Ahead, Stripped, Strip;
    var base, f, g := Base(hash, ps[i].conn), BeforeThis(ps, i), AheadOf(hash, Strip(ps[i]));
    if n > 0 {
      RankCounts(hash, ps, i, n - 1);
      var s := Stripped(ps);
      assert s[..n] == s[..n - 1] + [s[n - 1]];
      Sorting.CountConcat(s[..n - 1], [s[n - 1]], g);
      var last: seq<nat> := [n - 1];
      Sorting.CountConcat<nat>(Members(hash, ps, base, n - 1), last, f);
      assert Sorting.Count(last, f) == if Before(ps, n - 1, i) then 1 else 0;
      assert Sorting.Count([s[n - 1]], g) == if Ahead(hash, Strip(ps[n - 1]), Strip(ps[i])) then 1 else 0;
      if InGroup(hash, ps[n - 1], base) {
        AheadIsBefore(hash, ps, i, n - 1);
      } else {
        NotAhead(hash, ps[n - 1], ps[i]);
      }
    }
  }

  lemma NotAhead(hash: Hash, q: Proxy, p: Proxy)
    requires !InGroup(hash, q, Base(hash, p.conn))
    ensures !Ahead(hash, Strip(q), Strip(p))
  {
    hide Base, Less;
  }

  lemma TwoPlaces<T>(s: seq<T>, x: T)
    requires multiset(s)[x] >= 2
    ensures exists i, j :: 0 <= i < j < |s| && s[i] == s[j] == x
  {
    assert x in multiset(s);
    var i :| 0 <= i < |s| && s[i] == x;
    Sorting.TakeOut(s, i);
    var rest := s[..i] + s[i + 1..];
    assert x in multiset(rest);
    var k :| 0 <= k < |rest| && rest[k] == x;
    if k < i { assert s[k] == x; } else { assert s[k + 1] == x; }
  }

  lemma AtLeastTwo<T>(s: seq<T>, i: nat, j: nat)
    requires i < j < |s| && s[i] == s[j]
    ensures multiset(s)[s[i]] >= 2
  {
    Sorting.TakeOut(s, j);
    var rest := s[..j] + s[j + 1..];
    assert rest[i] == s[i];
    assert s[i] in multiset(rest);
  }

  /** Two members of one group that share both names. */
  ghost predicate Clash(hash: Hash, p: Proxy, q: Proxy) {
    Grouped(hash, p) && Grouped(hash, q) && Base(hash, p.conn) == Base(hash, q.conn) && p.name == q.name
        && p.sub == q.sub
  }

  lemma ClashStrips(hash: Hash, p: Proxy, q: Proxy)
    ensures Clash(hash, p, q) <==> Clash(hash, Strip(p), Strip(q))
  {
    hide Base;
  }

  lemma DistinguishedIsNoClash(hash: Hash, ps: seq<Proxy>)
    ensures Distinguished(hash, ps) <==> forall i, j | 0 <= i < j < |ps| :: !Clash(hash, ps[i], ps[j])
  {
    hide Base, Grouped;
  }

  lemma ClashSymmetric(hash: Hash, p: Proxy, q: Proxy)
    requires Clash(hash, p, q)
    ensures Clash(hash, q, p)
  {
    hide Base, Grouped;
  }

  lemma PlaceOf(ps: seq<Proxy>, qs: seq<Proxy>, a: nat) returns (i: nat)
    requires multiset(Stripped(ps)) == multiset(Stripped(qs)) && a < |qs|
    ensures i < |ps| && Strip(ps[i]) == Strip(qs[a])
  {
    hide Stripped, Strip;
    assert Stripped(qs)[a] in multiset(Stripped(qs));
    assert Stripped(qs)[a] in Stripped(ps);
    i :| 0 <= i < |ps| && Stripped(ps)[i] == Stripped(qs)[a];
  }

  /** Whether a set is distinguished does not depend on its order. */
  lemma DistinguishedReorders(hash: Hash, ps: seq<Proxy>, qs: seq<Proxy>)
    requires multiset(Stripped(ps)) == multiset(Stripped(qs)) && Distinguished(hash, ps)
    ensures Distinguished(hash, qs)
  {
    hide Stripped, Strip, Clash, Distinguished;
    DistinguishedIsNoClash(hash, ps);
    DistinguishedIsNoClash(hash, qs);
    forall a, b | 0 <= a < b < |qs| ensures !Clash(hash, qs[a], qs[b]) {
      if Strip(qs[a]) == Strip(qs[b]) {
        AtLeastTwo(Stripped(qs), a, b);
        TwoPlaces(Stripped(ps), Strip(qs[a]));
        var i, j :| 0 <= i < j < |ps| && Stripped(ps)[i] == Stripped(ps)[j] == Strip(qs[a]);
        SameClash(hash, ps[i], ps[j], qs[a], qs[b]);
      } else {
        var i := PlaceOf(ps, qs, a);
        var j := PlaceOf(ps, qs, b);
        SameClash(hash, ps[i], ps[j], qs[a], qs[b]);
        if Clash(hash, ps[i], ps[j]) { ClashSymmetric(hash, ps[i], ps[j]); }
        assert i != j;
      }
    }
  }

  lemma SameClash(hash: Hash, p: Proxy, q: Proxy, p': Proxy, q': Proxy)
    requires Strip(p) == Strip(p') && Strip(q) == Strip(q')
    ensures Clash(hash, p, q) <==> Clash(hash, p', q')
  {
    hide Strip, Clash;
    ClashStrips(hash, p, q);
    ClashStrips(hash, p', q');
  }

  /** Reordering a distinguished set, whatever positions the configurations then have, gives each the same id. */
  lemma OrderDoesNotMatter(hash: Hash, ps: seq<Proxy>, qs: seq<Proxy>, i: nat, k: nat)
    requires multiset(Stripped(ps)) == multiset(Stripped(qs)) && Distinguished(hash, ps)
    requires i < |ps| && k < |qs| && Strip(ps[i]) == Strip(qs[k])
    ensures AssignedId(hash, ps, i) == AssignedId(hash, qs, k)
  {
    hide Base, Members, Stripped, IdAt, Distinguished, AheadOf, BeforeThis, Sorting.Count;
    DistinguishedReorders(hash, ps, qs);
    assert ps[i].conn == Strip(ps[i]).conn && ps[i].id == Strip(ps[i]).id;
    assert qs[k].conn == Strip(qs[k]).conn && qs[k].id == Strip(qs[k]).id;
    if Grouped(hash, ps[i]) {
      RankCounts(hash, ps, i, |ps|);
      RankCounts(hash, qs, k, |qs|);
      assert Stripped(ps)[..|ps|] == Stripped(ps) && Stripped(qs)[..|qs|] == Stripped(qs);
      Sorting.CountPermutation(Stripped(ps), Stripped(qs), AheadOf(hash, Strip(ps[i])));
    }
  }

  /** Positions as PrepareProxyConfigs leaves them. */
  ghost predicate Positioned(ps: seq<Proxy>) {
    forall i | 0 <= i < |ps| :: ps[i].index == i
  }

  function Swapped(ps: seq<Proxy>, i: nat, j: nat): (r: seq<Proxy>)
    requires i < j < |ps|
    ensures |r| == |ps|
  {
    ps[i := ps[j].(index := i)][j := ps[i].(index := j)]
  }

  lemma SwappedIsReordered(ps: seq<Proxy>, i: nat, j: nat)
    requires i < j < |ps| && Positioned(ps)
    ensures multiset(Stripped(Swapped(ps, i, j))) == multiset(Stripped(ps)) && Positioned(Swapped(ps, i, j))
    ensures Strip(Swapped(ps, i, j)[j]) == Strip(ps[i])
  {
    var s, t := Stripped(ps), Stripped(Swapped(ps, i, j));
    assert t == s[i := s[j]][j := s[i]];
  }

  lemma {:induction false} SwappedMembers(hash: Hash, ps: seq<Proxy>, i: nat, j: nat, base: string, n: nat)
    requires i < j < |ps| && Clash(hash, ps[i], ps[j]) && n <= |ps|
    ensures Members(hash, Swapped(ps, i, j), base, n) == Members(hash, ps, base, n)
  {
    hide Base;
    if n > 0 { SwappedMembers(hash, ps, i, j, base, n - 1); }
  }

  /** Swapping two members that share both names swaps their ids: the sort falls back on position. */
  lemma SwapMovesIds(hash: Hash, ps: seq<Proxy>, i: nat, j: nat)
    requires i < j < |ps| && Positioned(ps) && Clash(hash, ps[i], ps[j])
    ensures AssignedId(hash, Swapped(ps, i, j), j) == AssignedId(hash, ps, j)
  {
    hide Base, Members, IdAt, Sorting.Count, Less;
    var qs, base := Swapped(ps, i, j), Base(hash, ps[j].conn);
    SwappedMembers(hash, ps, i, j, base, |ps|);
    forall a: nat ensures BeforeThis(qs, j)(a) == BeforeThis(ps, j)(a) { SwappedBefore(hash, ps, i, j, a); }
    CountAlike(Members(hash, ps, base, |ps|), BeforeThis(qs, j), BeforeThis(ps, j));
  }

  lemma SwappedBefore(hash: Hash, ps: seq<Proxy>, i: nat, j: nat, a: nat)
    requires i < j < |ps| && Positioned(ps) && Clash(hash, ps[i], ps[j])
    ensures Before(Swapped(ps, i, j), a, j) == Before(ps, a, j)
  {
    hide Base, Grouped, Leq;
  }

  lemma {:induction false} CountAlike(s: seq<nat>, f: nat -> bool, g: nat -> bool)
    requires forall a: nat :: f(a) == g(a)
    ensures Sorting.Count(s, f) == Sorting.Count(s, g)
  {
    if s != [] { CountAlike(s[1..], f, g); }
  }

  /** Every reordering leaves every configuration its id. */
  ghost predicate OrderFree(hash: Hash, ps: seq<Proxy>) {
    forall qs: seq<Proxy>, i: nat, k: nat | i < |ps| && k < |qs| && Positioned(qs)
                                  && multiset(Stripped(qs)) == multiset(Stripped(ps)) && Strip(ps[i]) == Strip(qs[k]) ::
      AssignedId(hash, qs, k) == AssignedId(hash, ps, i)
  }

  /** Ids survive every reordering exactly if (name, subscription name) tells the members of each group apart. */
  lemma OrderFreeIffDistinguished(hash: Hash, ps: seq<Proxy>)
    requires Ideal(hash, ps) && Positioned(ps)
    ensures OrderFree(hash, ps) <==> Distinguished(hash, ps)
  {
    hide Stripped, Strip, Distinguished, AssignedId, Ideal, Swapped, Positioned, Clash;
    if Distinguished(hash, ps) {
      forall qs: seq<Proxy>, i: nat, k: nat | i < |ps| && k < |qs| && Positioned(qs)
                                    && multiset(Stripped(qs)) == multiset(Stripped(ps)) && Strip(ps[i]) == Strip(qs[k])
        ensures AssignedId(hash, qs, k) == AssignedId(hash, ps, i)
      {
        OrderDoesNotMatter(hash, ps, qs, i, k);
      }
    } else {
      DistinguishedIsNoClash(hash, ps);
      var i, j :| 0 <= i < j < |ps| && Clash(hash, ps[i], ps[j]);
      SwappedIsReordered(ps, i, j);
      SwapMovesIds(hash, ps, i, j);
      ClashGrouped(hash, ps[i], ps[j]);
      IdsDistinct(hash, ps, i, j);
      assert AssignedId(hash, Swapped(ps, i, j), j) != AssignedId(hash, ps, i);
    }
  }

  lemma ClashGrouped(hash: Hash, p: Proxy, q: Proxy)
    requires Clash(hash, p, q)
    ensures Grouped(hash, p) && Grouped(hash, q)
  {
    hide Base, Grouped;
  }
}
