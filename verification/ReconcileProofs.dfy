/** What a reconciliation without failures achieves, and when. */
module ReconcileProofs {
  import opened Options
  import opened Text
  import opened UrlStore

  function ManagedSet(c: Contents): set<string> {
    set u | u in c.dynamic && Flagged(c.managed, u)
  }

  function SetOf(s: seq<string>): set<string> {
    set u | u in s
  }

  lemma TrimTwice(s: string)
    ensures Trim(Trim(s)) == Trim(s)
  {
  }

  // ---------------------------------------------------------------- adding

  lemma {:induction false} AddAllAppends(statics: seq<string>, c: Contents, urls: seq<string>)
    requires NoDuplicates(urls) && forall u | u in urls :: u !in statics && u !in c.dynamic
    ensures AddAll(statics, c, urls).dynamic == c.dynamic + urls
    ensures forall u :: Flagged(AddAll(statics, c, urls).managed, u) <==> u in urls || Flagged(c.managed, u)
  {
    if urls != [] {
      var init, last := urls[..|urls| - 1], urls[|urls| - 1];
      AddAllAppends(statics, c, init);
      assert urls == init + [last];
      assert last !in c.dynamic + init;
    }
  }

  lemma {:induction false} KeepKeepsDistinct(s: seq<string>, f: string -> bool)
    requires NoDuplicates(s)
    ensures NoDuplicates(Keep(s, f))
  {
    if s != [] { KeepKeepsDistinct(s[1..], f); }
  }

  /** The validated URLs: the desired ones the store lacked and the validator accepted. */
  lemma ValidatedMembers(statics: seq<string>, c: Contents, wanted: set<string>, valid: string -> bool)
    ensures var v := Validated(statics, c, wanted, valid);
            && NoDuplicates(v) && Ascending(v)
            && forall u :: u in v <==> u in wanted && u !in statics && u !in c.dynamic && valid(u)
  {
    hide Leq;
    SortedListAscends(wanted - Existing(statics, c));
    KeepKeepsDistinct(ToAdd(statics, c, wanted), valid);
    KeepKeepsAscending(ToAdd(statics, c, wanted), valid);
  }

  lemma {:induction false} KeepKeepsAscending(s: seq<string>, f: string -> bool)
    requires Ascending(s)
    ensures Ascending(Keep(s, f))
  {
    hide Leq;
    if s != [] {
      KeepKeepsAscending(s[1..], f);
      forall u | u in Keep(s[1..], f) ensures Leq(s[0], u) { assert u in s[1..]; }
    }
  }

  // ---------------------------------------------------------------- removing

  /** Without the first occurrence of each of these. */
  function DropFirst(s: seq<string>, out: set<string>): seq<string> {
    if s == [] then []
    else if s[0] in out then DropFirst(s[1..], out - {s[0]})
    else [s[0]] + DropFirst(s[1..], out)
  }

  lemma {:induction false} DropFirstMembers(s: seq<string>, out: set<string>, u: string)
    ensures u in DropFirst(s, out) <==> u in s && (u !in out || multiset(s)[u] >= 2)
  {
    if s != [] {
      assert s == [s[0]] + s[1..];
      var rest := if s[0] in out then out - {s[0]} else out;
      DropFirstMembers(s[1..], rest, u);
      assert u in s[1..] <==> multiset(s[1..])[u] >= 1;
    }
  }

  lemma {:induction false} DropFirstMore(s: seq<string>, out: set<string>, u: string)
    requires u !in out
    ensures WithoutFirst(DropFirst(s, out), u) == DropFirst(s, out + {u})
  {
    if s == [] {
      assert DropFirst(s, out + {u}) == [];
    } else if s[0] in out {
      DropFirstMore(s[1..], out - {s[0]}, u);
      assert (out - {s[0]}) + {u} == (out + {u}) - {s[0]};
    } else {
      var t := DropFirst(s[1..], out);
      assert ([s[0]] + t)[1..] == t;
      if s[0] == u {
        assert (out + {u}) - {u} == out;
      } else {
        DropFirstMore(s[1..], out, u);
      }
    }
  }

  lemma {:induction false} DropNothing(s: seq<string>)
    ensures DropFirst(s, {}) == s
  {
    if s != [] {
      DropNothing(s[1..]);
      assert s == [s[0]] + s[1..];
    }
  }

  /** The URLs that removing a list takes out: the trimmed forms that are flagged and stored. */
  function CutSet(c: Contents, urls: seq<string>): set<string> {
    set x | x in urls && CanRemove(c, Trim(x)) :: Trim(x)
  }

  lemma CutSetSnoc(c: Contents, init: seq<string>, x: string)
    ensures CutSet(c, init + [x]) == if CanRemove(c, Trim(x)) then CutSet(c, init) + {Trim(x)} else CutSet(c, init)
  {
    hide Trim, CanRemove;
    assert forall y :: y in init + [x] <==> y in init || y == x;
  }

  /** Removing a list, all at once: each URL to cut loses its flag and its first occurrence, whatever the list held. */
  lemma {:induction false} RemoveAllIs(c: Contents, urls: seq<string>)
    ensures RemoveAll(c, urls) == Contents(DropFirst(c.dynamic, CutSet(c, urls)), c.managed - CutSet(c, urls))
    ensures RemovedAny(c, urls) <==> CutSet(c, urls) != {}
  {
    hide Trim, WithoutFirst, DropFirst, CutSet;
    if urls == [] {
      NothingCut(c);
      DropNothing(c.dynamic);
    } else {
      var init, x := urls[..|urls| - 1], urls[|urls| - 1];
      assert urls == init + [x];
      RemoveAllIs(c, init);
      CutSetSnoc(c, init, x);
      RemoveOneMore(c, CutSet(c, init), Trim(x));
      KnownCut(c, init, Trim(x));
      if Trim(x) in CutSet(c, init) { assert CutSet(c, init) + {Trim(x)} == CutSet(c, init); }
    }
  }

  lemma NothingCut(c: Contents)
    ensures CutSet(c, []) == {}
  {
  }

  lemma KnownCut(c: Contents, urls: seq<string>, u: string)
    ensures u in CutSet(c, urls) ==> CanRemove(c, u)
  {
  }

  lemma RemoveOneMore(c: Contents, cut: set<string>, u: string)
    ensures var before := Contents(DropFirst(c.dynamic, cut), c.managed - cut);
            && (u in cut ==> !CanRemove(before, u))
            && (u !in cut ==> CanRemove(before, u) == CanRemove(c, u))
            && (u !in cut && CanRemove(c, u) ==>
                  RemoveManagedFrom(before, u) == Contents(DropFirst(c.dynamic, cut + {u}), c.managed - (cut + {u})))
  {
    hide WithoutFirst, DropFirst;
    if u !in cut {
      DropFirstMembers(c.dynamic, cut, u);
      DropFirstMore(c.dynamic, cut, u);
      assert (c.managed - cut) - {u} == c.managed - (cut + {u});
    }
  }

  // ---------------------------------------------------------------- the whole reconciliation

  /** Stored managed URLs the master no longer wants. */
  function Unwanted(c: Contents, wanted: set<string>): set<string> {
    ManagedSet(c) - wanted
  }

  /** Stored or new, and flagged, once the new URLs are in. */
  predicate Removable(c: Contents, v: seq<string>, u: string) {
    u in c.dynamic + v && (u in v || Flagged(c.managed, u))
  }

  /** What the removing loop cuts, v being the URLs added before it. */
  function Cut(c: Contents, wanted: set<string>, v: seq<string>): set<string> {
    set w | w in Unwanted(c, wanted) && Removable(c, v, Trim(w)) :: Trim(w)
  }

  lemma ToRemoveIsUnwanted(c: Contents, wanted: set<string>)
    ensures forall w :: w in ToRemove(c, wanted) <==> w in Unwanted(c, wanted)
  {
  }

  /** The store after any reconciliation without failures, tidy or not before. */
  lemma DynamicAfter(statics: seq<string>, c: Contents, wanted: set<string>, valid: string -> bool)
    ensures var v := Validated(statics, c, wanted, valid);
            var cut := Cut(c, wanted, v);
            var after := Reconciled(statics, c, wanted, valid);
            && after.dynamic == DropFirst(c.dynamic + v, cut)
            && forall u :: Flagged(after.managed, u) <==> u !in cut && (u in v || Flagged(c.managed, u))
  {
    hide Trim, DropFirst, Validated, ToRemove, Unwanted, AddAll, RemoveAll;
    var v, gone := Validated(statics, c, wanted, valid), ToRemove(c, wanted);
    ValidatedMembers(statics, c, wanted, valid);
    AddAllAppends(statics, c, v);
    var mid := AddAll(statics, c, v);
    RemoveAllIs(mid, gone);
    ToRemoveIsUnwanted(c, wanted);
    assert forall u :: CanRemove(mid, u) <==> Removable(c, v, u);
    assert CutSet(mid, gone) == Cut(c, wanted, v);
  }

  /** The managed set afterwards: everything managed or added, but for what was cut. */
  lemma ManagedAfter(statics: seq<string>, c: Contents, wanted: set<string>, valid: string -> bool, u: string)
    ensures var v := Validated(statics, c, wanted, valid);
            u in ManagedSet(Reconciled(statics, c, wanted, valid)) <==>
              u !in Cut(c, wanted, v) && (u in v || u in ManagedSet(c))
  {
    hide Trim, DropFirst, Validated, Cut, Reconciled;
    var v := Validated(statics, c, wanted, valid);
    DynamicAfter(statics, c, wanted, valid);
    DropFirstMembers(c.dynamic + v, Cut(c, wanted, v), u);
  }

  ghost predicate AllTrimmed(urls: set<string>) {
    forall u | u in urls :: Trim(u) == u
  }

  lemma CutIsTrimmed(c: Contents, wanted: set<string>, v: seq<string>)
    ensures forall u | u in Cut(c, wanted, v) :: Trim(u) == u
    ensures AllTrimmed(Unwanted(c, wanted)) ==> Cut(c, wanted, v) == Unwanted(c, wanted)
  {
    forall w ensures Trim(Trim(w)) == Trim(w) { TrimTwice(w); }
    hide Trim;
  }

  /** An unwanted managed URL stored with surrounding space can never be removed. */
  lemma UntrimmedStays(statics: seq<string>, c: Contents, wanted: set<string>, valid: string -> bool, u: string)
    requires u in Unwanted(c, wanted) && Trim(u) != u
    ensures u in Unwanted(Reconciled(statics, c, wanted, valid), wanted)
  {
    hide Trim, Cut, Reconciled, Validated;
    ManagedAfter(statics, c, wanted, valid, u);
    CutIsTrimmed(c, wanted, Validated(statics, c, wanted, valid));
  }

  /**
   Managed() becomes (old managed and desired) plus (new and validated), if and only if every managed URL
   to be dropped is stored trimmed.
   */
  lemma ManagedIsDesired(statics: seq<string>, c: Contents, wanted: set<string>, valid: string -> bool)
    ensures ManagedSet(Reconciled(statics, c, wanted, valid))
              == ManagedSet(c) * wanted + SetOf(Validated(statics, c, wanted, valid))
            <==> AllTrimmed(Unwanted(c, wanted))
  {
    hide Trim, Reconciled, Validated, Cut;
    var v, after := Validated(statics, c, wanted, valid), Reconciled(statics, c, wanted, valid);
    ValidatedMembers(statics, c, wanted, valid);
    CutIsTrimmed(c, wanted, v);
    if AllTrimmed(Unwanted(c, wanted)) {
      forall u ensures u in ManagedSet(after) <==> u in ManagedSet(c) * wanted + SetOf(v) {
        ManagedAfter(statics, c, wanted, valid, u);
      }
    } else {
      var u :| u in Unwanted(c, wanted) && Trim(u) != u;
      UntrimmedStays(statics, c, wanted, valid, u);
      assert u !in ManagedSet(c) * wanted + SetOf(v);
    }
  }

  // ---------------------------------------------------------------- tidy stores

  lemma {:induction false} KeepsAll(s: seq<string>, out: set<string>)
    requires forall u | u in s :: u !in out
    ensures KeepOutside(s, out) == s
  {
    if s != [] {
      assert s == [s[0]] + s[1..];
      KeepsAll(s[1..], out);
    }
  }

  lemma {:induction false} KeepOutsideConcat(a: seq<string>, b: seq<string>, out: set<string>)
    ensures KeepOutside(a + b, out) == KeepOutside(a, out) + KeepOutside(b, out)
  {
    if a == [] {
      assert a + b == b;
    } else {
      assert (a + b)[1..] == a[1..] + b;
      KeepOutsideConcat(a[1..], b, out);
    }
  }

  lemma {:induction false} KeepOutsideDistinct(s: seq<string>, out: set<string>)
    requires NoDuplicates(s)
    ensures NoDuplicates(KeepOutside(s, out))
  {
    if s != [] { KeepOutsideDistinct(s[1..], out); }
  }

  lemma {:induction false} DropFirstOfDistinct(s: seq<string>, out: set<string>)
    requires NoDuplicates(s)
    ensures DropFirst(s, out) == KeepOutside(s, out)
  {
    if s != [] {
      assert s == [s[0]] + s[1..];
      if s[0] in out {
        DropFirstOfDistinct(s[1..], out - {s[0]});
        KeepOutsideOther(s[1..], out, s[0]);
      } else {
        DropFirstOfDistinct(s[1..], out);
      }
    }
  }

  lemma {:induction false} KeepOutsideOther(s: seq<string>, out: set<string>, u: string)
    requires u !in s
    ensures KeepOutside(s, out - {u}) == KeepOutside(s, out)
  {
    if s != [] {
      assert s == [s[0]] + s[1..];
      KeepOutsideOther(s[1..], out, u);
    }
  }

  /** A store whose entries were all put there by its own operations. */
  ghost predicate Tidy(c: Contents) {
    NoDuplicates(c.dynamic) && forall u | u in c.dynamic :: Normalize(u) == Some(u)
  }

  /**
   In a tidy store the dynamic list keeps its order: exactly the unwanted managed entries go, and the
   validated URLs are appended in sorted order. Everything unmanaged stays where it was.
   */
  lemma TidyAfter(statics: seq<string>, c: Contents, desired: seq<string>, valid: string -> bool)
    requires Tidy(c)
    ensures var wanted := DesiredSet(desired);
            var v := Validated(statics, c, wanted, valid);
            var after := Reconciled(statics, c, wanted, valid);
            after.dynamic == KeepOutside(c.dynamic, Unwanted(c, wanted)) + v && Ascending(v) && Tidy(after)
  {
    hide Trim, KeepOutside, Normalize, DropFirst, Validated, Reconciled, Cut;
    var wanted := DesiredSet(desired);
    var v := Validated(statics, c, wanted, valid);
    DesiredIsNormal(desired);
    ValidatedMembers(statics, c, wanted, valid);
    DynamicAfter(statics, c, wanted, valid);
    TidyIsTrimmed(c);
    CutIsTrimmed(c, wanted, v);
    var cut := Unwanted(c, wanted);
    assert Cut(c, wanted, v) == cut;
    DistinctConcat(c.dynamic, v);
    DropFirstOfDistinct(c.dynamic + v, cut);
    KeepOutsideConcat(c.dynamic, v, cut);
    KeepsAll(v, cut);
    KeepOutsideDistinct(c.dynamic, cut);
    DistinctConcat(KeepOutside(c.dynamic, cut), v);
  }

  lemma DistinctConcat(a: seq<string>, b: seq<string>)
    requires NoDuplicates(a) && NoDuplicates(b) && forall u | u in b :: u !in a
    ensures NoDuplicates(a + b)
  {
    forall i, j | 0 <= i < j < |a + b| ensures (a + b)[i] != (a + b)[j] {
      if i < |a| <= j { assert a[i] in a && b[j - |a|] in b; }
    }
  }

  lemma TidyIsTrimmed(c: Contents)
    requires Tidy(c)
    ensures forall u | u in c.dynamic :: Trim(u) == u
  {
    hide Trim;
  }

  /** The store's own operations keep it tidy, so only a hand-edited file is not. */
  lemma OperationsKeepTidy(statics: seq<string>, c: Contents, raw: string)
    requires Tidy(c)
    ensures Normalize(raw).Some? && Normalize(raw).value !in c.dynamic ==>
              Tidy(c.(dynamic := c.dynamic + [Normalize(raw).value]))
    ensures Normalize(raw).Some? ==> Tidy(AddManagedTo(statics, c, Normalize(raw).value))
    ensures Tidy(c.(dynamic := WithoutFirst(c.dynamic, Trim(raw)))) && Tidy(RemoveManagedFrom(c, Trim(raw)))
  {
    hide Trim, Normalize, WithoutFirst;
    var u := Trim(raw);
    WithoutFirstOfDistinct(c.dynamic, u);
    KeepOutsideDistinct(c.dynamic, {u});
    if Normalize(raw).Some? {
      NormalForm(raw);
      if Normalize(raw).value !in c.dynamic { DistinctConcat(c.dynamic, [Normalize(raw).value]); }
    }
  }

  lemma NormalForm(raw: string)
    requires Normalize(raw).Some?
    ensures Normalize(Normalize(raw).value) == Normalize(raw)
  {
    TrimTwice(raw);
    hide Trim;
  }

  lemma WithoutFirstOfDistinct(s: seq<string>, u: string)
    requires NoDuplicates(s)
    ensures WithoutFirst(s, u) == KeepOutside(s, {u})
  {
    hide DropFirst, WithoutFirst, KeepOutside;
    DropNothing(s);
    DropFirstMore(s, {}, u);
    DropFirstOfDistinct(s, {u});
    assert {} + {u} == {u};
  }

  // ---------------------------------------------------------------- convergence

  /**
   An unwanted managed URL stored untrimmed whose trimmed form the master wants: the attempt to drop the one
   removes the other, if that one has just been added, or is flagged and stored once.
   */
  predicate Twin(statics: seq<string>, c: Contents, wanted: set<string>, valid: string -> bool, w: string) {
    var u := Trim(w);
    && w in Unwanted(c, wanted) && u in wanted && u !in statics && valid(u)
    && (u !in c.dynamic || (Flagged(c.managed, u) && multiset(c.dynamic)[u] == 1))
  }

  ghost predicate HasTwin(statics: seq<string>, c: Contents, wanted: set<string>, valid: string -> bool) {
    exists w :: Twin(statics, c, wanted, valid, w)
  }

  /** How often a URL is stored once the new ones are in. */
  lemma CopiesWithNew(statics: seq<string>, c: Contents, wanted: set<string>, valid: string -> bool, u: string)
    ensures var v := Validated(statics, c, wanted, valid);
            multiset(c.dynamic + v)[u] == if u in v then 1 else multiset(c.dynamic)[u]
  {
    var v := Validated(statics, c, wanted, valid);
    hide Validated;
    ValidatedMembers(statics, c, wanted, valid);
    assert u in c.dynamic <==> multiset(c.dynamic)[u] > 0;
    if u in v { OnceIn(v, u); } else { assert u !in multiset(v); }
  }

  lemma OnceIn(s: seq<string>, u: string)
    requires NoDuplicates(s) && u in s
    ensures multiset(s)[u] == 1
  {
    var i :| 0 <= i < |s| && s[i] == u;
    assert s == s[..i] + [u] + s[i + 1..];
    assert u !in s[..i] && u !in s[i + 1..];
  }

  /** A wanted URL is missing after a reconciliation exactly if it was some entry's twin. */
  lemma LostIsTwin(statics: seq<string>, c: Contents, wanted: set<string>, valid: string -> bool, u: string)
    requires u in wanted && u !in statics && valid(u)
    ensures u !in Reconciled(statics, c, wanted, valid).dynamic <==>
              exists w :: Twin(statics, c, wanted, valid, w) && Trim(w) == u
  {
    hide Trim, Validated, Reconciled, DropFirst;
    var v := Validated(statics, c, wanted, valid);
    ValidatedMembers(statics, c, wanted, valid);
    DynamicAfter(statics, c, wanted, valid);
    DropFirstMembers(c.dynamic + v, Cut(c, wanted, v), u);
    CopiesWithNew(statics, c, wanted, valid, u);
    assert u in c.dynamic + v;
    assert u in c.dynamic <==> multiset(c.dynamic)[u] > 0;
    if u in Cut(c, wanted, v) && multiset(c.dynamic + v)[u] < 2 {
      var w :| w in Unwanted(c, wanted) && Removable(c, v, Trim(w)) && Trim(w) == u;
      assert Twin(statics, c, wanted, valid, w);
    }
    forall w | Twin(statics, c, wanted, valid, w) && Trim(w) == u
        ensures u in Cut(c, wanted, v) && multiset(c.dynamic + v)[u] < 2 {
      assert Removable(c, v, Trim(w));
    }
  }

  /** With nothing to add, a reconciliation directly after another has nothing to remove either. */
  lemma NothingToRemove(statics: seq<string>, c: Contents, wanted: set<string>, valid: string -> bool)
    ensures var after := Reconciled(statics, c, wanted, valid); CutSet(after, ToRemove(after, wanted)) == {}
  {
    hide Trim, Validated, Reconciled, DropFirst, ToRemove;
    var v, after := Validated(statics, c, wanted, valid), Reconciled(statics, c, wanted, valid);
    ValidatedMembers(statics, c, wanted, valid);
    DynamicAfter(statics, c, wanted, valid);
    ToRemoveIsUnwanted(after, wanted);
    forall x | x in ToRemove(after, wanted) ensures !CanRemove(after, Trim(x)) {
      ManagedAfter(statics, c, wanted, valid, x);
      DropFirstMembers(c.dynamic + v, Cut(c, wanted, v), Trim(x));
      assert x in Unwanted(c, wanted);
    }
  }

  /** A second run with the same list does something if and only if an unwanted entry has a twin. */
  lemma SecondRunIff(statics: seq<string>, c: Contents, wanted: set<string>, valid: string -> bool)
    ensures var after := Reconciled(statics, c, wanted, valid);
            && (Changes(statics, after, wanted, valid) <==> HasTwin(statics, c, wanted, valid))
            && (!HasTwin(statics, c, wanted, valid) ==> Reconciled(statics, after, wanted, valid) == after)
  {
    var after := Reconciled(statics, c, wanted, valid);
    var more := Validated(statics, after, wanted, valid);
    NothingToRemove(statics, c, wanted, valid);
    ValidatedMembers(statics, after, wanted, valid);
    MissingIff(statics, c, wanted, valid);
    HeadIsMember(more);
    if more == [] { RemoveAllIs(after, ToRemove(after, wanted)); DropNothing(after.dynamic); }
    hide Validated, RemoveAll, RemovedAny, HasTwin, DropFirst, CutSet, ToRemove;
  }

  lemma MissingIff(statics: seq<string>, c: Contents, wanted: set<string>, valid: string -> bool)
    ensures var after := Reconciled(statics, c, wanted, valid);
            (exists u :: u in wanted && u !in statics && u !in after.dynamic && valid(u)) <==>
              HasTwin(statics, c, wanted, valid)
  {
    hide Reconciled, Trim, Twin;
    var after := Reconciled(statics, c, wanted, valid);
    if HasTwin(statics, c, wanted, valid) {
      var w :| Twin(statics, c, wanted, valid, w);
      TwinWanted(statics, c, wanted, valid, w);
      LostIsTwin(statics, c, wanted, valid, Trim(w));
    }
    if u :| u in wanted && u !in statics && u !in after.dynamic && valid(u) {
      LostIsTwin(statics, c, wanted, valid, u);
    }
  }

  lemma TwinWanted(statics: seq<string>, c: Contents, wanted: set<string>, valid: string -> bool, w: string)
    requires Twin(statics, c, wanted, valid, w)
    ensures Trim(w) in wanted && Trim(w) !in statics && valid(Trim(w)) && w in Unwanted(c, wanted) && Trim(w) != w
  {
    hide Trim;
  }

  lemma HeadIsMember(s: seq<string>)
    ensures s != [] <==> exists u :: u in s
  {
    if s != [] { assert s[0] in s; }
  }

  /** A twin is still one after the run that took it away, so the quarrel never ends. */
  lemma TwinStays(statics: seq<string>, c: Contents, wanted: set<string>, valid: string -> bool)
    requires HasTwin(statics, c, wanted, valid)
    ensures HasTwin(statics, Reconciled(statics, c, wanted, valid), wanted, valid)
  {
    hide Trim, Reconciled;
    var w :| Twin(statics, c, wanted, valid, w);
    TwinWanted(statics, c, wanted, valid, w);
    LostIsTwin(statics, c, wanted, valid, Trim(w));
    UntrimmedStays(statics, c, wanted, valid, w);
    assert Twin(statics, Reconciled(statics, c, wanted, valid), wanted, valid, w);
  }

  /** The contents after n runs with one list. */
  function AfterRuns(statics: seq<string>, c: Contents, wanted: set<string>, valid: string -> bool, n: nat): Contents {
    if n == 0 then c else Reconciled(statics, AfterRuns(statics, c, wanted, valid, n - 1), wanted, valid)
  }

  /**
   Convergence: with the same list and a deterministic validator, every run after the first changes nothing and does
   not reload - or every one of them reloads, exactly if an unwanted entry has a twin.
   */
  lemma {:induction false} RunsConvergeIff(statics: seq<string>, c: Contents, wanted: set<string>,
        valid: string -> bool, n: nat)
    requires n > 0
    ensures Changes(statics, AfterRuns(statics, c, wanted, valid, n), wanted, valid) <==>
              HasTwin(statics, c, wanted, valid)
    ensures !HasTwin(statics, c, wanted, valid) ==>
              AfterRuns(statics, c, wanted, valid, n) == Reconciled(statics, c, wanted, valid)
  {
    hide Reconciled, HasTwin, Changes;
    if n == 1 {
      assert AfterRuns(statics, c, wanted, valid, 0) == c;
      SecondRunIff(statics, c, wanted, valid);
    } else {
      RunsConvergeIff(statics, c, wanted, valid, n - 1);
      TwinKept(statics, c, wanted, valid, n - 1);
      SecondRunIff(statics, AfterRuns(statics, c, wanted, valid, n - 1), wanted, valid);
      SecondRunIff(statics, c, wanted, valid);
    }
  }

  lemma {:induction false} TwinKept(statics: seq<string>, c: Contents, wanted: set<string>, valid: string -> bool,
        n: nat)
    ensures HasTwin(statics, AfterRuns(statics, c, wanted, valid, n), wanted, valid) <==>
              HasTwin(statics, c, wanted, valid)
  {
    hide Reconciled, HasTwin;
    if n > 0 {
      var before := AfterRuns(statics, c, wanted, valid, n - 1);
      TwinKept(statics, c, wanted, valid, n - 1);
      if HasTwin(statics, before, wanted, valid) {
        TwinStays(statics, before, wanted, valid);
      } else {
        SecondRunIff(statics, before, wanted, valid);
        SecondRunIff(statics, Reconciled(statics, before, wanted, valid), wanted, valid);
      }
    }
  }

  /** The shortest case: a wanted URL and the same one with white space around it, both managed. */
  lemma WantedIsLost(w: string, u: string, valid: string -> bool)
    requires Trim(w) == u && w != u && valid(u)
    ensures var c := Contents([w, u], map[w := true, u := true]);
            HasTwin([], c, {u}, valid) && u !in Reconciled([], c, {u}, valid).dynamic
  {
    hide Trim, Reconciled;
    var c := Contents([w, u], map[w := true, u := true]);
    assert w in c.dynamic && u in c.dynamic;
    assert multiset(c.dynamic) == multiset{w, u};
    assert Twin([], c, {u}, valid, w);
    LostIsTwin([], c, {u}, valid, u);
  }
}
