/** Who gets which id within a group, with the order of names spelled out byte by byte. */
module IdRanks {
  import opened Text
  import Sorting
  import opened StableIds
  import opened IdAssignment

  // ---------------------------------------------------------------- the order of names

  /** The strings agree on their first k bytes; there a ends, or has the smaller byte. */
  ghost predicate LessAt(a: string, b: string, k: nat) {
    k <= |a| && k < |b| && a[..k] == b[..k] && (k == |a| || a[k] < b[k])
  }

  ghost predicate ByteLess(a: string, b: string) {
    exists k: nat :: LessAt(a, b, k)
  }

  lemma LessAtTail(a: string, b: string, k: nat)
    requires a != "" && b != "" && a[0] == b[0]
    ensures LessAt(a, b, k + 1) <==> LessAt(a[1..], b[1..], k)
    ensures !LessAt(a, b, 0)
  {
    if k < |a| && k < |b| {
      assert a[..k + 1] == [a[0]] + a[1..][..k] && b[..k + 1] == [b[0]] + b[1..][..k];
      assert a[1..][..k] == a[..k + 1][1..] && b[1..][..k] == b[..k + 1][1..];
    }
  }

  /** Comparing the first bytes that differ is comparing byte by byte. */
  lemma {:induction false} LeqIsByteLess(a: string, b: string)
    ensures Leq(a, b) <==> a == b || ByteLess(a, b)
  {
    if a == "" || b == "" || a[0] != b[0] {
      if a != b && Leq(a, b) { assert LessAt(a, b, 0); }
      if k: nat :| LessAt(a, b, k) && k > 0 { assert a[..k][0] == b[..k][0]; }
      if a == b { LeqTotal(a, b); }
    } else {
      LeqIsByteLess(a[1..], b[1..]);
      assert a == [a[0]] + a[1..] && b == [b[0]] + b[1..];
      if k: nat :| LessAt(a, b, k) {
        LessAtTail(a, b, k);
        assert k > 0;
        LessAtTail(a, b, k - 1);
      }
      if k: nat :| LessAt(a[1..], b[1..], k) { LessAtTail(a, b, k); }
    }
  }

  lemma NotBelowItself(a: string)
    ensures !ByteLess(a, a)
  {
  }

  // ---------------------------------------------------------------- the order of a group

  /** By name, then subscription name, then index, then position. */
  ghost predicate Precedes(ps: seq<Proxy>, i: nat, j: nat)
    requires i < |ps| && j < |ps|
  {
    var a, b := ps[i], ps[j];
    || ByteLess(a.name, b.name)
    || (a.name == b.name && ByteLess(a.sub, b.sub))
    || (a.name == b.name && a.sub == b.sub && a.index < b.index)
    || (a.name == b.name && a.sub == b.sub && a.index == b.index && i < j)
  }

  lemma BeforeIsPrecedes(ps: seq<Proxy>, i: nat, j: nat)
    requires i < |ps| && j < |ps|
    ensures Before(ps, i, j) <==> Precedes(ps, i, j)
  {
    hide Leq, ByteLess;
    var a, b := ps[i], ps[j];
    LeqIsByteLess(a.name, b.name);
    LeqIsByteLess(a.sub, b.sub);
    StringOrder(a.name, b.name, a.name);
    StringOrder(a.sub, b.sub, a.sub);
    NotBelowItself(a.name);
    NotBelowItself(a.sub);
  }

  /** Configurations to be told apart: not carrying a foreign id, and hashing alike. */
  ghost predicate OneGroup(hash: Hash, p: Proxy, q: Proxy) {
    var base := hash(Encode(Fields(p.conn)));
    (p.id == "" || p.id == base) && base == hash(Encode(Fields(q.conn)))
  }

  /** The members of i's group, among the first n, that precede it. */
  ghost function Preceding(hash: Hash, ps: seq<Proxy>, i: nat, n: nat): set<int>
    requires i < |ps| && n <= |ps|
  {
    set j | 0 <= j < n && OneGroup(hash, ps[j], ps[i]) && Precedes(ps, j, i)
  }

  lemma GroupsAlike(hash: Hash, p: Proxy, q: Proxy)
    ensures InGroup(hash, p, Base(hash, q.conn)) <==> OneGroup(hash, p, q)
  {
    hide Encode, Fields;
  }

  lemma PrecedingSnoc(hash: Hash, ps: seq<Proxy>, i: nat, n: nat)
    requires i < |ps| && n < |ps|
    ensures Preceding(hash, ps, i, n + 1) == Preceding(hash, ps, i, n)
         + if OneGroup(hash, ps[n], ps[i]) && Precedes(ps, n, i) then {n as int} else {}
  {
    hide Precedes, OneGroup;
  }

  lemma CountOne(s: seq<nat>, x: nat, f: nat -> bool)
    ensures Sorting.Count(s + [x], f) == Sorting.Count(s, f) + if f(x) then 1 else 0
  {
    hide Sorting.Count;
    Sorting.CountConcat<nat>(s, [x], f);
    if f(x) { Sorting.CountAll<nat>([x], f); } else { Sorting.CountNone<nat>([x], f); }
  }

  lemma {:induction false} RankCountsPreceding(hash: Hash, ps: seq<Proxy>, i: nat, n: nat)
    requires i < |ps| && n <= |ps|
    ensures Sorting.Count(Members(hash, ps, Base(hash, ps[i].conn), n), BeforeThis(ps, i))
         == |Preceding(hash, ps, i, n)|
  {
    hide Precedes, Before, OneGroup, InGroup, Base, Preceding, Sorting.Count;
    if n > 0 {
      RankCountsPreceding(hash, ps, i, n - 1);
      GroupsAlike(hash, ps[n - 1], ps[i]);
      PrecedingSnoc(hash, ps, i, n - 1);
      BeforeIsPrecedes(ps, n - 1, i);
      CountOne(Members(hash, ps, Base(hash, ps[i].conn), n - 1), n - 1, BeforeThis(ps, i));
      PrecedingBelow(hash, ps, i, n - 1);
    } else {
      NonePreceding(hash, ps, i, BeforeThis(ps, i));
    }
  }

  lemma PrecedingBelow(hash: Hash, ps: seq<Proxy>, i: nat, n: nat)
    requires i < |ps| && n <= |ps|
    ensures forall j | j in Preceding(hash, ps, i, n) :: j < n
  {
  }

  lemma NonePreceding(hash: Hash, ps: seq<Proxy>, i: nat, f: nat -> bool)
    requires i < |ps|
    ensures Preceding(hash, ps, i, 0) == {} && Sorting.Count<nat>([], f) == 0
  {
  }

  /**
   The id of every configuration: a foreign one stays; otherwise the hash of the connection for the member of the group
   that nobody precedes, and for one that n members precede the hash of that hash, two colons and n.
   */
  lemma AssignedMeans(hash: Hash, ps: seq<Proxy>, i: nat)
    requires i < |ps|
    ensures var base, n := hash(Encode(Fields(ps[i].conn))), |Preceding(hash, ps, i, |ps|)|;
            AssignedId(hash, ps, i) == if ps[i].id != "" && ps[i].id != base then ps[i].id
                                       else if n == 0 then base
                                       else hash(base + "::" + Itoa(n))
  {
    hide Encode, Fields, Itoa, Preceding, Members, Sorting.Count;
    RankCountsPreceding(hash, ps, i, |ps|);
  }

  lemma {:induction false} SubsetSize<T>(a: set<T>, b: set<T>)
    requires a <= b
    ensures |a| <= |b|
  {
    if a != {} {
      var x :| x in a;
      SubsetSize(a - {x}, b - {x});
    }
  }

  /** A member that precedes another has fewer before it. */
  lemma PrecedingGrows(hash: Hash, ps: seq<Proxy>, i: nat, j: nat)
    requires i < |ps| && j < |ps| && OneGroup(hash, ps[i], ps[j]) && Precedes(ps, i, j)
    ensures |Preceding(hash, ps, i, |ps|)| < |Preceding(hash, ps, j, |ps|)|
  {
    hide Precedes, Encode, Fields;
    var a, b := Preceding(hash, ps, i, |ps|), Preceding(hash, ps, j, |ps|);
    forall k | k in a ensures k in b { PrecedesTransitive(ps, k, i, j); }
    PrecedesTransitive(ps, i, j, i);
    SubsetSize(a + {i}, b);
  }

  lemma PrecedesTransitive(ps: seq<Proxy>, i: nat, j: nat, k: nat)
    requires i < |ps| && j < |ps| && k < |ps| && Precedes(ps, i, j)
    ensures Precedes(ps, j, k) ==> Precedes(ps, i, k)
    ensures !Precedes(ps, i, i)
  {
    hide Precedes, Before;
    BeforeIsPrecedes(ps, i, j);
    BeforeIsPrecedes(ps, j, k);
    BeforeIsPrecedes(ps, i, k);
    BeforeIsPrecedes(ps, i, i);
    BeforeStrict(ps, i, j, k);
  }

  /** The bare id goes to the least member of the group by name, subscription name, index and position. */
  lemma LeastKeepsBareId(hash: Hash, ps: seq<Proxy>, i: nat)
    requires i < |ps| && OneGroup(hash, ps[i], ps[i])
    requires forall j | 0 <= j < |ps| && j != i && OneGroup(hash, ps[j], ps[i]) :: Precedes(ps, i, j)
    ensures AssignedId(hash, ps, i) == hash(Encode(Fields(ps[i].conn)))
  {
    hide Precedes, Encode, Fields, AssignedId, Itoa;
    AssignedMeans(hash, ps, i);
    forall j | j in Preceding(hash, ps, i, |ps|) ensures false {
      if j != i { PrecedesTransitive(ps, j, i, j); } else { PrecedesTransitive(ps, i, i, i); }
    }
  }
}
