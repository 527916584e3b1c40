/**
 Sets of configurations: preparation of a fresh set, and the comparison that decides whether a subscription
 changed.
 */
module ConfigSets {
  import opened Text
  import opened IdAssignment
  import opened IdProofs

  function Indexed(ps: seq<Proxy>): (r: seq<Proxy>)
    ensures |r| == |ps| && forall i | 0 <= i < |ps| :: r[i] == ps[i].(index := i)
  {
    seq(|ps|, i requires 0 <= i < |ps| => ps[i].(index := i))
  }

  /** Positions become indexes. */
  method SetIndexes(proxies: seq<ProxyConfig>)
    requires forall i, j | 0 <= i < j < |proxies| :: proxies[i] != proxies[j]
    modifies proxies
    ensures Views(proxies) == Indexed(old(Views(proxies)))
  {
    hide Indexed;
    ghost var was := Views(proxies);
    for i := 0 to |proxies|
      invariant forall k | 0 <= k < |proxies| :: proxies[k].stableID == was[k].id
      invariant forall k | 0 <= k < |proxies| :: proxies[k].index == if k < i then k else was[k].index
    {
      proxies[i].index := i;
    }
  }

  method PrepareProxyConfigs(proxies: seq<ProxyConfig>, hash: Hash)
    requires forall i, j | 0 <= i < j < |proxies| :: proxies[i] != proxies[j]
    modifies proxies
    ensures forall i | 0 <= i < |proxies| :: proxies[i].index == i
    ensures forall i | 0 <= i < |proxies| :: proxies[i].stableID == AssignedId(hash, Indexed(old(Views(proxies))), i)
    ensures Ideal(hash, Indexed(old(Views(proxies)))) && AllGrouped(hash, old(Views(proxies))) ==>
              forall i, j | 0 <= i < j < |proxies| :: proxies[i].stableID != proxies[j].stableID
  {
    hide AssignedId, Ideal, Base, AllGrouped;
    ghost var was := Views(proxies);
    SetIndexes(proxies);
    ghost var now := Views(proxies);
    assert forall i | 0 <= i < |proxies| :: now[i].index == i;
    AssignStableIDs(proxies, hash);
    if Ideal(hash, Indexed(was)) && AllGrouped(hash, was) { PreparedDistinct(hash, was); }
  }

  /** No configuration carries a foreign id. */
  ghost predicate AllGrouped(hash: Hash, ps: seq<Proxy>) {
    forall i | 0 <= i < |ps| :: Grouped(hash, ps[i])
  }

  lemma PreparedDistinct(hash: Hash, ps: seq<Proxy>)
    requires Ideal(hash, Indexed(ps)) && AllGrouped(hash, ps)
    ensures forall i, j | 0 <= i < j < |ps| :: AssignedId(hash, Indexed(ps), i) != AssignedId(hash, Indexed(ps), j)
  {
    hide AssignedId, Ideal, Base, Indexed;
    forall i, j | 0 <= i < j < |ps| ensures AssignedId(hash, Indexed(ps), i) != AssignedId(hash, Indexed(ps), j) {
      IdsDistinct(hash, Indexed(ps), i, j);
    }
  }

  // ---------------------------------------------------------------- signatures

  type Labels = map<string, string>

  const UNIT: char := '\U{1f}'
  const RECORD: char := '\U{1e}'

  function Entry(key: string, val: string): string {
    [UNIT] + (key + ([RECORD] + val))
  }

  function LabelTail(keys: seq<string>, labels: Labels): string
    requires forall k | k in keys :: k in labels
  {
    if keys == [] then "" else Entry(keys[0], labels[keys[0]]) + LabelTail(keys[1..], labels)
  }

  function Signature(base: string, labels: Labels): string {
    base + LabelTail(SortedList(labels.Keys), labels)
  }

  /** Which of the two control characters keys and values may hold. */
  datatype Alphabet = Alphabet(unitInKeys: bool, recordInKeys: bool, unitInValues: bool, recordInValues: bool)

  ghost predicate Fits(labels: Labels, a: Alphabet) {
    && (forall k | k in labels :: (UNIT in k ==> a.unitInKeys) && (RECORD in k ==> a.recordInKeys))
    && (forall k | k in labels :: (UNIT in labels[k] ==> a.unitInValues) && (RECORD in labels[k] ==> a.recordInValues))
  }

  /** A bare id is hexadecimal. */
  ghost predicate PlainId(b: string) {
    UNIT !in b && RECORD !in b
  }

  /** Any edit of id or labels within the alphabet changes the signature. */
  ghost predicate Separates(a: Alphabet) {
    forall b, m, b', m' | PlainId(b) && PlainId(b') && Fits(m, a) && Fits(m', a)
        && Signature(b, m) == Signature(b', m') ::
      b == b' && m == m'
  }

  lemma Assoc(x: string, y: string, z: string)
    ensures (x + y) + z == x + (y + z)
  {
  }

  lemma EntryMore(k: string, v: string, rest: string)
    ensures Entry(k, v + rest) == Entry(k, v) + rest
  {
    Assoc([RECORD], v, rest);
    Assoc(k, [RECORD] + v, rest);
    Assoc([UNIT], k + ([RECORD] + v), rest);
  }

  /** Text that starts with an entry, cut at its UNIT and at its RECORD. */
  lemma EntryCut(b: string, k: string, v: string, rest: string)
    ensures b + (Entry(k, v) + rest) == b + [UNIT] + (k + [RECORD] + (v + rest))
    ensures UNIT in b + (Entry(k, v) + rest)
  {
    NotPlain(b, k + [RECORD] + (v + rest), UNIT);
    EntryMore(k, v, rest);
    Assoc(b, [UNIT], k + ([RECORD] + (v + rest)));
    Assoc(k, [RECORD], v + rest);
  }

  /** Signatures can be read from the front, each key up to its RECORD and each value up to the next UNIT. */
  lemma {:induction false} TailUnique(b: string, ks: seq<string>, m: Labels, b': string, ks': seq<string>, m': Labels)
    requires UNIT !in b && UNIT !in b'
    requires (forall k | k in ks :: k in m && RECORD !in k && UNIT !in m[k])
    requires (forall k | k in ks' :: k in m' && RECORD !in k && UNIT !in m'[k])
    requires b + LabelTail(ks, m) == b' + LabelTail(ks', m')
    ensures b == b' && ks == ks' && forall k | k in ks :: m[k] == m'[k]
    decreases |ks|
  {
    hide Entry;
    BareSignature(b, ks, m);
    BareSignature(b', ks', m');
    if ks != [] { EntryCut(b, ks[0], m[ks[0]], LabelTail(ks[1..], m)); }
    if ks' != [] { EntryCut(b', ks'[0], m'[ks'[0]], LabelTail(ks'[1..], m')); }
    if ks != [] && ks' != [] {
      var k, k' := ks[0], ks'[0];
      var r, r' := m[k] + LabelTail(ks[1..], m), m'[k'] + LabelTail(ks'[1..], m');
      FirstSeparatorUnique(b, k + [RECORD] + r, b', k' + [RECORD] + r', UNIT);
      FirstSeparatorUnique(k, r, k', r', RECORD);
      TailUnique(m[k], ks[1..], m, m'[k'], ks'[1..], m');
      assert ks == [k] + ks[1..] && ks' == [k'] + ks'[1..];
    }
  }

  lemma BareSignature(b: string, ks: seq<string>, m: Labels)
    requires forall k | k in ks :: k in m
    ensures ks == [] ==> b + LabelTail(ks, m) == b
  {
    assert b + "" == b;
  }

  lemma NotPlain(x: string, y: string, c: char)
    ensures c in x + [c] + y
  {
    assert (x + [c] + y)[|x|] == c;
  }

  /** The last label of a tail. */
  lemma {:induction false} LabelTailLast(ks: seq<string>, k: string, m: Labels)
    requires k in m && forall x | x in ks :: x in m
    ensures LabelTail(ks + [k], m) == LabelTail(ks, m) + Entry(k, m[k])
  {
    hide Entry;
    if ks == [] {
      assert [k][1..] == [] && ks + [k] == [k];
    } else {
      assert (ks + [k])[1..] == ks[1..] + [k];
      LabelTailLast(ks[1..], k, m);
      Assoc(Entry(ks[0], m[ks[0]]), LabelTail(ks[1..], m), Entry(k, m[k]));
    }
  }

  /** A tail that is not empty, cut at its last RECORD and UNIT. */
  lemma BackCut(b: string, ks: seq<string>, m: Labels)
    requires ks != [] && forall k | k in ks :: k in m
    ensures var n := |ks| - 1;
            b + LabelTail(ks, m) == (b + LabelTail(ks[..n], m)) + [UNIT] + ks[n] + [RECORD] + m[ks[n]]
    ensures RECORD in b + LabelTail(ks, m)
  {
    hide LabelTail;
    var n := |ks| - 1;
    var t, k, v := LabelTail(ks[..n], m), ks[n], m[ks[n]];
    LabelTailLast(ks[..n], k, m);
    assert ks == ks[..n] + [k];
    Assoc(b, t, Entry(k, v));
    Assoc(b + t, [UNIT], k + ([RECORD] + v));
    Assoc(b + t + [UNIT], k, [RECORD] + v);
    Assoc(b + t + [UNIT] + k, [RECORD], v);
    NotPlain(b + t + [UNIT] + k, v, RECORD);
  }

  /** Or from the back, each value back to its RECORD and each key back to its UNIT. */
  lemma {:induction false} TailUniqueFromBack(b: string, ks: seq<string>, m: Labels, b': string, ks': seq<string>,
        m': Labels)
    requires RECORD !in b && RECORD !in b'
    requires (forall k | k in ks :: k in m && UNIT !in k && RECORD !in m[k])
    requires (forall k | k in ks' :: k in m' && UNIT !in k && RECORD !in m'[k])
    requires b + LabelTail(ks, m) == b' + LabelTail(ks', m')
    ensures b == b' && ks == ks' && forall k | k in ks :: m[k] == m'[k]
    decreases |ks|
  {
    hide LabelTail, Entry;
    BareSignature(b, ks, m);
    BareSignature(b', ks', m');
    if ks != [] { BackCut(b, ks, m); }
    if ks' != [] { BackCut(b', ks', m'); }
    if ks != [] && ks' != [] {
      var n, n' := |ks| - 1, |ks'| - 1;
      var r, r' := b + LabelTail(ks[..n], m), b' + LabelTail(ks'[..n'], m');
      LastSeparatorUnique(r + [UNIT] + ks[n], m[ks[n]], r' + [UNIT] + ks'[n'], m'[ks'[n']], RECORD);
      LastSeparatorUnique(r, ks[n], r', ks'[n'], UNIT);
      TailUniqueFromBack(b, ks[..n], m, b', ks'[..n'], m');
      assert ks == ks[..n] + [ks[n]] && ks' == ks'[..n'] + [ks'[n']];
    }
  }

  lemma NoLabels(m: Labels)
    ensures LabelTail([], m) == ""
  {
  }

  lemma KeysDecide(m: Labels, m': Labels)
    requires SortedList(m.Keys) == SortedList(m'.Keys)
    requires forall k | k in SortedList(m.Keys) :: k in m' && m[k] == m'[k]
    ensures m == m'
  {
    hide SortedList;
    assert forall k :: k in m.Keys <==> k in SortedList(m.Keys);
    assert forall k :: k in m'.Keys <==> k in SortedList(m'.Keys);
    assert m.Keys == m'.Keys;
  }

  /** Within an alphabet that can be read from one end or the other, signatures separate. */
  lemma SeparatedPair(a: Alphabet, b: string, m: Labels, b': string, m': Labels)
    requires (!a.unitInValues && !a.recordInKeys) || (!a.recordInValues && !a.unitInKeys)
    requires PlainId(b) && PlainId(b') && Fits(m, a) && Fits(m', a) && Signature(b, m) == Signature(b', m')
    ensures b == b' && m == m'
  {
    hide LabelTail, SortedList;
    var ks, ks' := SortedList(m.Keys), SortedList(m'.Keys);
    if !a.unitInValues && !a.recordInKeys {
      TailUnique(b, ks, m, b', ks', m');
    } else {
      TailUniqueFromBack(b, ks, m, b', ks', m');
    }
    KeysDecide(m, m');
  }

  // ---------------------------------------------------------------- collisions

  lemma OneSorted(k: string)
    ensures SortedList({k}) == [k]
  {
    assert Least({k}) == k && {k} - {k} == {};
    assert SortedList({}) == [];
    assert SortedList({k}) == [k] + SortedList({k} - {k});
  }

  lemma TwoSorted(k: string, k': string)
    requires k != k' && Leq(k, k')
    ensures SortedList({k, k'}) == [k, k']
  {
    hide Leq;
    var x := Least({k, k'});
    if Leq(k', k) { LeqAntisymmetric(k, k'); }
    assert x == k;
    OneSorted(k');
    assert {k, k'} - {k} == {k'};
    assert SortedList({k, k'}) == [k] + SortedList({k'});
  }

  lemma OneSignature(b: string, k: string, v: string)
    ensures Signature(b, map[k := v]) == b + Entry(k, v)
  {
    hide Entry, SortedList;
    var m := map[k := v];
    OneSorted(k);
    assert m.Keys == {k} && [k][1..] == [];
    NoLabels(m);
    assert LabelTail([k], m) == Entry(k, v) + LabelTail([], m);
  }

  lemma TwoSignature(b: string, k: string, v: string, k': string, v': string)
    requires k != k' && Leq(k, k')
    ensures Signature(b, map[k := v, k' := v']) == b + (Entry(k, v) + Entry(k', v'))
  {
    hide Leq, SortedList, Entry;
    var m := map[k := v, k' := v'];
    TwoSorted(k, k');
    assert m.Keys == {k, k'} && m[k] == v && m[k'] == v';
    NoLabels(m);
    assert [k, k'][1..] == [k'] && [k'][1..] == [];
    assert LabelTail([k'], m) == Entry(k', v') + LabelTail([], m);
    assert LabelTail([k, k'], m) == Entry(k, v) + LabelTail([k'], m);
  }

  /** A value that holds both characters can pass for a value and another entry. */
  lemma ValueCollision(b: string, k: string, v: string, k': string, v': string)
    requires k != k' && Leq(k, k')
    ensures Signature(b, map[k := v, k' := v']) == Signature(b, map[k := v + Entry(k', v')])
  {
    hide Leq, Signature, Entry;
    TwoSignature(b, k, v, k', v');
    OneSignature(b, k, v + Entry(k', v'));
    EntryMore(k, v, Entry(k', v'));
  }

  /** The key of an entry that stands for two. */
  function LongKey(k: string, v: string, k': string): string {
    k + ([RECORD] + (v + ([UNIT] + k')))
  }

  lemma LongEntry(k: string, v: string, k': string, v': string)
    ensures Entry(LongKey(k, v, k'), v') == Entry(k, v) + Entry(k', v')
  {
    EntryMore(k, v, Entry(k', v'));
    var r := [RECORD] + v';
    Assoc(k, [RECORD] + (v + ([UNIT] + k')), r);
    Assoc([RECORD], v + ([UNIT] + k'), r);
    Assoc(v, [UNIT] + k', r);
    Assoc([UNIT], k', r);
  }

  /** So can a key. */
  lemma KeyCollision(b: string, k: string, v: string, k': string, v': string)
    requires k != k' && Leq(k, k')
    ensures Signature(b, map[k := v, k' := v']) == Signature(b, map[LongKey(k, v, k') := v'])
  {
    hide Leq, Signature, Entry, LongKey;
    TwoSignature(b, k, v, k', v');
    OneSignature(b, LongKey(k, v, k'), v');
    LongEntry(k, v, k', v');
  }

  /** RECORD in keys and values: text moves between a key and its value. */
  lemma RecordCollision(b: string, x: string, y: string, z: string)
    ensures Signature(b, map[x + ([RECORD] + y) := z]) == Signature(b, map[x := y + ([RECORD] + z)])
  {
    hide Signature;
    OneSignature(b, x + ([RECORD] + y), z);
    OneSignature(b, x, y + ([RECORD] + z));
    Assoc(x, [RECORD] + y, [RECORD] + z);
    Assoc([RECORD], y, [RECORD] + z);
  }

  /** UNIT in keys and values: text moves between a value and the next key. */
  lemma UnitCollision(b: string, k: string, x: string, y: string, k': string, v: string)
    requires k != k' && Leq(k, k') && k != y + ([UNIT] + k') && Leq(k, y + ([UNIT] + k'))
    ensures Signature(b, map[k := x + ([UNIT] + y), k' := v]) == Signature(b, map[k := x, y + ([UNIT] + k') := v])
  {
    hide Leq, Signature;
    TwoSignature(b, k, x + ([UNIT] + y), k', v);
    TwoSignature(b, k, x, y + ([UNIT] + k'), v);
    var r := k' + ([RECORD] + v);
    EntryMore(k, x, [UNIT] + y);
    Assoc(Entry(k, x), [UNIT] + y, [UNIT] + r);
    Assoc([UNIT], y, [UNIT] + r);
    Assoc(y, [UNIT] + k', [RECORD] + v);
    Assoc([UNIT], k', [RECORD] + v);
    hide Entry;
  }

  /** One collision in every alphabet that allows one, with the key "" and one other key. */
  lemma Collides(a: Alphabet, c: string) returns (m: Labels, m': Labels)
    requires !((!a.unitInValues && !a.recordInKeys) || (!a.recordInValues && !a.unitInKeys))
    requires |c| == 1 && PlainId(c)
    ensures Fits(m, a) && Fits(m', a) && m != m' && forall b :: Signature(b, m) == Signature(b, m')
  {
    hide SortedList, LabelTail, Signature;
    if a.unitInValues && a.recordInValues {
      m, m' := map["" := "", c := ""], map["" := "" + Entry(c, "")];
      forall b ensures Signature(b, m) == Signature(b, m') { ValueCollision(b, "", "", c, ""); }
      assert c in m && c !in m';
    } else if a.recordInKeys && a.unitInKeys {
      m, m' := map["" := "", c := ""], map[LongKey("", "", c) := ""];
      forall b ensures Signature(b, m) == Signature(b, m') { KeyCollision(b, "", "", c, ""); }
      assert |LongKey("", "", c)| == 3;
      assert c in m && c !in m';
    } else if a.recordInKeys && a.recordInValues {
      m, m' := map[c + ([RECORD] + "") := ""], map[c := "" + ([RECORD] + "")];
      forall b ensures Signature(b, m) == Signature(b, m') { RecordCollision(b, c, "", ""); }
      assert |c + ([RECORD] + "")| == 2;
      assert c in m' && c !in m;
    } else {
      m, m' := map["" := "" + ([UNIT] + ""), c := ""], map["" := "", "" + ([UNIT] + c) := ""];
      forall b ensures Signature(b, m) == Signature(b, m') { UnitCollision(b, "", "", "", c, ""); }
      assert |"" + ([UNIT] + c)| == 2;
      assert c in m && c !in m';
    }
  }

  /**
   Label edits are seen exactly within the alphabets in which values hold no UNIT and keys no RECORD, or the other way
   round.
   */
  lemma SeparatesIff(a: Alphabet)
    ensures Separates(a) <==> (!a.unitInValues && !a.recordInKeys) || (!a.recordInValues && !a.unitInKeys)
  {
    hide Signature, Fits, PlainId;
    if (!a.unitInValues && !a.recordInKeys) || (!a.recordInValues && !a.unitInKeys) {
      forall b, m, b', m' | PlainId(b) && PlainId(b') && Fits(m, a) && Fits(m', a)
          && Signature(b, m) == Signature(b', m')
        ensures b == b' && m == m'
      {
        SeparatedPair(a, b, m, b', m');
      }
    } else {
      EmptyIsPlain();
      var m, m' := Collides(a, "c");
      assert Signature("", m) == Signature("", m');
    }
  }

  lemma EmptyIsPlain()
    ensures PlainId("") && PlainId("c")
  {
  }

  // ---------------------------------------------------------------- comparison

  function ConfigSignature(hash: Hash, p: ProxyConfig): string {
    Signature(Base(hash, p.conn), p.labels)
  }

  function Signatures(hash: Hash, proxies: seq<ProxyConfig>): (r: seq<string>)
    ensures |r| == |proxies| && forall i | 0 <= i < |r| :: r[i] == ConfigSignature(hash, proxies[i])
  {
    hide ConfigSignature;
    seq(|proxies|, i requires 0 <= i < |proxies| => ConfigSignature(hash, proxies[i]))
  }

  ghost predicate CountsOf(counts: map<string, nat>, s: seq<string>) {
    && (forall k :: k in counts <==> k in s)
    && (forall k | k in counts :: counts[k] == multiset(s)[k])
  }

  /** Occurrences of each signature. */
  method CountSignatures(hash: Hash, proxies: seq<ProxyConfig>) returns (counts: map<string, nat>)
    ensures CountsOf(counts, Signatures(hash, proxies))
  {
    hide ConfigSignature, Signatures;
    counts := map[];
    ghost var all := Signatures(hash, proxies);
    for i := 0 to |proxies|
      invariant CountsOf(counts, all[..i])
    {
      var sig := ConfigSignature(hash, proxies[i]);
      assert all[..i + 1] == all[..i] + [sig];
      counts := counts[sig := (if sig in counts then counts[sig] else 0) + 1];
    }
    assert all[..|proxies|] == all;
  }

  method IsConfigsEqual(hash: Hash, before: seq<ProxyConfig>, after: seq<ProxyConfig>) returns (equal: bool)
    ensures equal <==> multiset(Signatures(hash, before)) == multiset(Signatures(hash, after))
  {
    hide ConfigSignature, Signatures, CountsOf;
    ghost var b, a := Signatures(hash, before), Signatures(hash, after);
    if |before| != |after| {
      assert |multiset(b)| == |b| && |multiset(a)| == |a|;
      return false;
    }
    var oldCounts := CountSignatures(hash, before);
    var newCounts := CountSignatures(hash, after);
    if |oldCounts| != |newCounts| {
      if multiset(b) == multiset(a) { SameSupport(b, a, oldCounts, newCounts); }
      return false;
    }
    CountsDecide(b, a, oldCounts, newCounts);
    equal := Includes(newCounts, oldCounts);
  }

  /** The comparison loop; a missing signature counts as 0. */
  method Includes(more: map<string, nat>, counts: map<string, nat>) returns (all: bool)
    requires forall k | k in counts :: counts[k] > 0
    ensures all <==> forall k | k in counts :: k in more && more[k] == counts[k]
  {
    var todo := counts.Keys;
    while todo != {}
      invariant todo <= counts.Keys
      invariant forall k | k in counts && k !in todo :: k in more && more[k] == counts[k]
    {
      var sig :| sig in todo;
      if (if sig in more then more[sig] else 0) != counts[sig] { return false; }
      todo := todo - {sig};
    }
    return true;
  }

  lemma SameSupport(b: seq<string>, a: seq<string>, bc: map<string, nat>, ac: map<string, nat>)
    requires CountsOf(bc, b) && CountsOf(ac, a) && multiset(b) == multiset(a)
    ensures |bc| == |ac|
  {
    assert forall k :: k in b <==> k in multiset(b);
    assert forall k :: k in a <==> k in multiset(a);
    assert bc.Keys == ac.Keys;
    assert |bc| == |bc.Keys| && |ac| == |ac.Keys|;
  }

  /** Agreement on the keys of one side decides when the sides are equally long. */
  lemma CountsDecide(b: seq<string>, a: seq<string>, bc: map<string, nat>, ac: map<string, nat>)
    requires |b| == |a| && CountsOf(bc, b) && CountsOf(ac, a)
    ensures forall k | k in bc :: bc[k] > 0
    ensures (forall k | k in bc :: k in ac && ac[k] == bc[k]) <==> multiset(b) == multiset(a)
  {
    forall k | k in bc ensures bc[k] > 0 { assert k in multiset(b); }
    if forall k | k in bc :: k in ac && ac[k] == bc[k] {
      AgreementDecides(b, a, bc, ac);
    }
    if multiset(b) == multiset(a) {
      forall k | k in bc ensures k in ac && ac[k] == bc[k] {
        assert k in multiset(b);
        assert k in multiset(a);
      }
    }
  }

  lemma AgreementDecides(b: seq<string>, a: seq<string>, bc: map<string, nat>, ac: map<string, nat>)
    requires |b| == |a| && CountsOf(bc, b) && CountsOf(ac, a)
    requires forall k | k in bc :: k in ac && ac[k] == bc[k]
    ensures multiset(b) == multiset(a)
  {
    forall k ensures multiset(b)[k] <= multiset(a)[k] {
      if k in multiset(b) { assert k in b && k in bc; }
    }
    assert multiset(b) <= multiset(a);
    assert multiset(a) == multiset(b) + (multiset(a) - multiset(b));
    assert |multiset(a)| == |multiset(b)|;
    assert multiset(a) - multiset(b) == multiset{};
  }
}
