/**
 The subscription URL store and its reconciliation with a master's desired list. Writing the store file
 is an oracle: `writeFails(n)` says whether the n-th write fails. `disk` is what the last successful write was
 given to encode.
 */
module UrlStore {
  import opened Options
  import opened Text

  /** What the store changes and persists: dynamic URLs in order, and the managed flags. */
  datatype Contents = Contents(dynamic: seq<string>, managed: map<string, bool>)

  function Normalize(raw: string): Option<string> {
    var u := Trim(raw);
    if u == "" || !("http://" <= u || "https://" <= u) then None else Some(u)
  }

  /** What is accepted: text that, trimmed, starts with one of the two schemes. Only the trimming changes it. */
  lemma NormalizeMeans(raw: string, u: string)
    ensures Normalize(raw) == Some(u) <==>
              u == Trim(raw) && exists host: string :: u == "http://" + host || u == "https://" + host
  {
    hide Trim;
    if Normalize(raw) == Some(u) {
      if "http://" <= u { assert u == "http://" + u[7..]; } else { assert u == "https://" + u[8..]; }
    }
  }

  function Flagged(managed: map<string, bool>, u: string): bool {
    u in managed && managed[u]
  }

  /** The dynamic URLs flagged as managed, in order. */
  function ManagedList(c: Contents): seq<string> {
    KeepFlagged(c.dynamic, c.managed)
  }

  function KeepFlagged(s: seq<string>, managed: map<string, bool>): (r: seq<string>)
    ensures forall u :: u in r <==> u in s && Flagged(managed, u)
  {
    if s == [] then []
    else
      assert s == [s[0]] + s[1..];
      (if Flagged(managed, s[0]) then [s[0]] else []) + KeepFlagged(s[1..], managed)
  }

  function KeepOutside(s: seq<string>, wanted: set<string>): (r: seq<string>)
    ensures forall u :: u in r <==> u in s && u !in wanted
  {
    if s == [] then []
    else
      assert s == [s[0]] + s[1..];
      (if s[0] !in wanted then [s[0]] else []) + KeepOutside(s[1..], wanted)
  }

  function Keep(s: seq<string>, f: string -> bool): (r: seq<string>)
    ensures forall u :: u in r <==> u in s && f(u)
  {
    if s == [] then []
    else
      assert s == [s[0]] + s[1..];
      (if f(s[0]) then [s[0]] else []) + Keep(s[1..], f)
  }

  function WithoutFirst(s: seq<string>, u: string): seq<string> {
    if s == [] then [] else if s[0] == u then s[1..] else [s[0]] + WithoutFirst(s[1..], u)
  }

  // ---------------------------------------------------------------- the operations on values

  function AddManagedTo(statics: seq<string>, c: Contents, u: string): Contents {
    if u in statics then c
    else Contents(if u in c.dynamic then c.dynamic else c.dynamic + [u], c.managed[u := true])
  }

  function CanRemove(c: Contents, u: string): bool {
    Flagged(c.managed, u) && u in c.dynamic
  }

  function RemoveManagedFrom(c: Contents, u: string): Contents {
    if CanRemove(c, u) then Contents(WithoutFirst(c.dynamic, u), c.managed - {u}) else c
  }

  class URLStore {
    const statics: seq<string>
    const persistent: bool
    const writeFails: nat -> bool
    var dynamic: seq<string>
    var managed: map<string, bool>
    var writes: nat
    var disk: Contents

    function State(): Contents
      reads this
    {
      Contents(dynamic, managed)
    }

    constructor (statics: seq<string>, persistent: bool, writeFails: nat -> bool, stored: Contents)
      ensures this.statics == statics && this.persistent == persistent && this.writeFails == writeFails
      ensures State() == stored && disk == stored && writes == 0
    {
      this.statics, this.persistent, this.writeFails := statics, persistent, writeFails;
      dynamic, managed, disk, writes := stored.dynamic, stored.managed, stored, 0;
    }

    /** One of the next n writes, the first of them numbered from, fails. */
    ghost predicate WriteFails(from: nat, n: nat) {
      persistent && exists k | from <= k < from + n :: writeFails(k)
    }

    function LastWriteFailed(): bool
      reads this
    {
      persistent && writes > 0 && writeFails(writes - 1)
    }

    /** The number of the next write, after n attempted ones. */
    function After(from: nat, n: nat): nat {
      if persistent then from + n else from
    }

    lemma FailsEarlier(from: nat, a: nat, b: nat)
      requires WriteFails(from, a)
      ensures WriteFails(from, a + b)
    {
    }

    lemma FailsLater(from: nat, a: nat, b: nat)
      requires !WriteFails(from, a)
      ensures WriteFails(from, a + b) <==> WriteFails(After(from, a), b)
    {
    }

    method Persist() returns (ok: bool)
      modifies this`writes, this`disk
      ensures ok == (!persistent || !writeFails(old(writes)))
      ensures writes == old(writes) + (if persistent then 1 else 0)
      ensures disk == if persistent && ok then State() else old(disk)
    {
      if !persistent { return true; }
      ok := !writeFails(writes);
      writes := writes + 1;
      if ok { disk := Contents(dynamic, managed); }
    }

    /** Index of the first occurrence, or -1. */
    method Find(u: string) returns (idx: int)
      ensures -1 <= idx < |dynamic|
      ensures idx == -1 <==> u !in dynamic
      ensures idx >= 0 ==> dynamic[idx] == u && u !in dynamic[..idx]
    {
      for i := 0 to |dynamic|
        invariant u !in dynamic[..i]
      {
        if dynamic[i] == u { return i; }
      }
      idx := -1;
    }

    method Add(raw: string) returns (added: bool, failed: bool)
      modifies this
      ensures var n := Normalize(raw);
              var unknown := n.Some? && n.value !in statics && n.value !in old(dynamic);
              && failed == (n.None? || (unknown && persistent && writeFails(old(writes))))
              && added == (unknown && !failed)
              && State() == (if added then old(State()).(dynamic := old(dynamic) + [n.value]) else old(State()))
              && disk == (if added && persistent then State() else old(disk))
              && writes == After(old(writes), if unknown then 1 else 0)
    {
      hide Normalize;
      var n := Normalize(raw);
      if n.None? { return false, true; }
      if n.value in statics || n.value in dynamic { return false, false; }
      var backup := dynamic;
      dynamic := dynamic + [n.value];
      var ok := Persist();
      if !ok {
        dynamic := backup;
        return false, true;
      }
      return true, false;
    }

    method Remove(raw: string) returns (removed: bool, failed: bool)
      modifies this
      ensures var stored := Trim(raw) in old(dynamic);
              && failed == (stored && persistent && writeFails(old(writes)))
              && removed == (stored && !failed)
              && State() == (if removed then old(State()).(dynamic := WithoutFirst(old(dynamic), Trim(raw)))
                  else old(State()))
              && disk == (if removed && persistent then State() else old(disk))
              && writes == After(old(writes), if stored then 1 else 0)
    {
      hide Trim, WithoutFirst;
      var u := Trim(raw);
      var idx := Find(u);
      CutFirst(dynamic, u, idx);
      if idx == -1 { return false, false; }
      var backup := dynamic;
      dynamic := dynamic[..idx] + dynamic[idx + 1..];
      var ok := Persist();
      if !ok {
        dynamic := backup;
        return false, true;
      }
      return true, false;
    }

    method AddManaged(raw: string) returns (added: bool, failed: bool)
      modifies this
      ensures var n := Normalize(raw);
              var tried := n.Some? && n.value !in statics;
              && failed == (n.None? || (tried && persistent && writeFails(old(writes))))
              && added == (tried && !failed)
              && State() == (if added then AddManagedTo(statics, old(State()), n.value) else old(State()))
              && disk == (if added && persistent then State() else old(disk))
              && writes == After(old(writes), if tried then 1 else 0)
    {
      hide Normalize;
      var n := Normalize(raw);
      if n.None? { return false, true; }
      if n.value in statics { return false, false; }
      var backup := State();
      if n.value !in dynamic { dynamic := dynamic + [n.value]; }
      managed := managed[n.value := true];
      var ok := Persist();
      if !ok {
        dynamic, managed := backup.dynamic, backup.managed;
        return false, true;
      }
      return true, false;
    }

    method RemoveManaged(raw: string) returns (removed: bool, failed: bool)
      modifies this
      ensures var tried := CanRemove(old(State()), Trim(raw));
              && failed == (tried && persistent && writeFails(old(writes)))
              && removed == (tried && !failed)
              && State() == (if failed then old(State()) else RemoveManagedFrom(old(State()), Trim(raw)))
              && disk == (if removed && persistent then State() else old(disk))
              && writes == After(old(writes), if tried then 1 else 0)
    {
      hide Trim, WithoutFirst;
      var u := Trim(raw);
      if !Flagged(managed, u) { return false, false; }
      var idx := Find(u);
      CutFirst(dynamic, u, idx);
      if idx == -1 { return false, false; }
      var backup := State();
      dynamic := dynamic[..idx] + dynamic[idx + 1..];
      managed := managed - {u};
      var ok := Persist();
      if !ok {
        dynamic, managed := backup.dynamic, backup.managed;
        return false, true;
      }
      return true, false;
    }

    method Managed() returns (out: seq<string>)
      ensures out == ManagedList(State())
    {
      out := [];
      for i := 0 to |dynamic|
        invariant out + KeepFlagged(dynamic[i..], managed) == ManagedList(State())
      {
        KeepFlaggedFrom(dynamic, i, managed, out);
        if Flagged(managed, dynamic[i]) { out := out + [dynamic[i]]; }
      }
    }

    method Restore(backup: Contents) returns (ok: bool)
      modifies this
      ensures State() == backup && ok == !(persistent && writeFails(old(writes)))
      ensures disk == (if persistent && ok then State() else old(disk)) && writes == After(old(writes), 1)
      ensures !ok ==> LastWriteFailed()
    {
      dynamic, managed := backup.dynamic, backup.managed;
      ok := Persist();
    }
  }

  lemma KeepFlaggedFrom(s: seq<string>, i: nat, managed: map<string, bool>, out: seq<string>)
    requires i < |s|
    ensures out + KeepFlagged(s[i..], managed)
         == (if Flagged(managed, s[i]) then out + [s[i]] else out) + KeepFlagged(s[i + 1..], managed)
  {
    assert s[i..][1..] == s[i + 1..];
  }

  lemma {:induction false} CutFirst(s: seq<string>, u: string, idx: int)
    requires -1 <= idx < |s| && (idx == -1 <==> u !in s)
    requires idx >= 0 ==> s[idx] == u && u !in s[..idx]
    ensures WithoutFirst(s, u) == if idx == -1 then s else s[..idx] + s[idx + 1..]
  {
    if s != [] {
      var t := s[1..];
      assert s == [s[0]] + t;
      if idx == 0 {
        assert s[..0] + t == t;
      } else if idx > 0 {
        assert s[..idx] == [s[0]] + t[..idx - 1];
        assert s[0] in s[..idx] && forall x | x in t[..idx - 1] :: x in s[..idx];
        CutFirst(t, u, idx - 1);
        assert s[..idx] + s[idx + 1..] == [s[0]] + (t[..idx - 1] + t[idx..]);
      } else {
        CutFirst(t, u, -1);
      }
    }
  }

  // ---------------------------------------------------------------- reconciliation

  /** The usable part of the master's list. */
  function DesiredSet(desired: seq<string>): set<string> {
    set raw | raw in desired && Normalize(raw).Some? :: Normalize(raw).value
  }

  function Existing(statics: seq<string>, c: Contents): set<string> {
    set u | u in statics + c.dynamic
  }

  /** Desired URLs the store lacks, sorted. */
  function ToAdd(statics: seq<string>, c: Contents, wanted: set<string>): seq<string> {
    SortedList(wanted - Existing(statics, c))
  }

  function ToRemove(c: Contents, wanted: set<string>): seq<string> {
    KeepOutside(ManagedList(c), wanted)
  }

  function AddAll(statics: seq<string>, c: Contents, urls: seq<string>): Contents {
    if urls == [] then c else AddManagedTo(statics, AddAll(statics, c, urls[..|urls| - 1]), urls[|urls| - 1])
  }

  function RemoveAll(c: Contents, urls: seq<string>): Contents {
    if urls == [] then c else RemoveManagedFrom(RemoveAll(c, urls[..|urls| - 1]), Trim(urls[|urls| - 1]))
  }

  function RemovedAny(c: Contents, urls: seq<string>): bool {
    urls != [] && (RemovedAny(c, urls[..|urls| - 1])
                   || CanRemove(RemoveAll(c, urls[..|urls| - 1]), Trim(urls[|urls| - 1])))
  }

  /** How many of these removals find something to remove, and so write. */
  function Removals(c: Contents, urls: seq<string>): nat {
    if urls == [] then 0
    else
      var init := urls[..|urls| - 1];
      Removals(c, init) + if CanRemove(RemoveAll(c, init), Trim(urls[|urls| - 1])) then 1 else 0
  }

  lemma {:induction false} RemovedAnyCounts(c: Contents, urls: seq<string>)
    ensures RemovedAny(c, urls) <==> Removals(c, urls) > 0
  {
    hide Trim, CanRemove, RemoveAll;
    if urls != [] { RemovedAnyCounts(c, urls[..|urls| - 1]); }
  }

  lemma {:induction false} RemovalsGrow(c: Contents, urls: seq<string>, i: nat)
    requires i <= |urls|
    ensures Removals(c, urls[..i]) <= Removals(c, urls)
  {
    hide Trim, CanRemove, RemoveAll;
    if i < |urls| {
      assert urls[..|urls| - 1][..i] == urls[..i];
      RemovalsGrow(c, urls[..|urls| - 1], i);
    } else {
      assert urls[..i] == urls;
    }
  }

  function Validated(statics: seq<string>, c: Contents, wanted: set<string>, valid: string -> bool): seq<string> {
    Keep(ToAdd(statics, c, wanted), valid)
  }

  /** The contents a reconciliation without failures leads to. */
  function Reconciled(statics: seq<string>, c: Contents, wanted: set<string>, valid: string -> bool): Contents {
    RemoveAll(AddAll(statics, c, Validated(statics, c, wanted, valid)), ToRemove(c, wanted))
  }

  function Changes(statics: seq<string>, c: Contents, wanted: set<string>, valid: string -> bool): bool {
    Validated(statics, c, wanted, valid) != []
    || RemovedAny(AddAll(statics, c, Validated(statics, c, wanted, valid)), ToRemove(c, wanted))
  }

  /** How many writes a run makes if none fails. */
  function Writes(statics: seq<string>, c: Contents, wanted: set<string>, valid: string -> bool): nat {
    var v := Validated(statics, c, wanted, valid);
    |v| + Removals(AddAll(statics, c, v), ToRemove(c, wanted))
  }

  datatype Outcome = Outcome(changed: bool, failed: bool, reloaded: bool)

  lemma DesiredIsNormal(desired: seq<string>)
    ensures forall u | u in DesiredSet(desired) :: Normalize(u) == Some(u)
  {
  }

  /**
   A run fails exactly if one of its writes does, or if it changes something and the reload fails. Any failure, after
   any number of operations, leaves the store in memory exactly as it was; the file too, unless restoring it failed as
   well. The reload happens exactly if all writes succeeded and something changed.
   */
  method ReconcileManaged(store: URLStore, desired: seq<string>, reloadOk: bool, valid: string -> bool)
        returns (r: Outcome)
    modifies store
    ensures var wanted := DesiredSet(desired);
            var written := !store.WriteFails(old(store.writes),
                Writes(store.statics, old(store.State()), wanted, valid));
            var changes := Changes(store.statics, old(store.State()), wanted, valid);
            && r == Outcome(written && changes && reloadOk, !written || (changes && !reloadOk), written && changes)
            && store.State() == (if r.failed then old(store.State())
                                 else Reconciled(store.statics, old(store.State()), wanted, valid))
    ensures store.persistent && (r.failed || r.changed) ==> store.disk == store.State() || store.LastWriteFailed()
    ensures store.persistent && r.changed ==> store.disk == store.State()
    ensures !r.failed && !r.changed ==> store.disk == old(store.disk) && store.State() == old(store.State())
  {
    hide AddAll, RemoveAll, RemovedAny, Removals, KeepFlagged, KeepOutside, Keep, Trim, Normalize;
    var wanted := DesiredSet(desired);
    var statics := store.statics;
    DesiredIsNormal(desired);
    var toAdd := SortedList(wanted - Existing(statics, store.State()));
    var managed := store.Managed();
    var toRemove := KeepOutside(managed, wanted);
    var backup := store.State();
    ghost var before := store.writes;
    ghost var mid := AddAll(statics, backup, Keep(toAdd, valid));
    RemovedAnyCounts(mid, toRemove);

    var anyAdded, failed := AddUrls(store, toAdd, valid);
    if failed {
      store.FailsEarlier(before, |Keep(toAdd, valid)|, Removals(mid, toRemove));
      var _ := store.Restore(backup);
      return Outcome(false, true, false);
    }
    store.FailsLater(before, |Keep(toAdd, valid)|, Removals(mid, toRemove));
    var anyRemoved;
    anyRemoved, failed := RemoveUrls(store, toRemove);
    if failed {
      var _ := store.Restore(backup);
      return Outcome(false, true, false);
    }
    if !anyAdded && !anyRemoved { return Outcome(false, false, false); }
    if !reloadOk {
      var _ := store.Restore(backup);
      return Outcome(false, true, true);
    }
    return Outcome(true, false, true);
  }

  lemma {:induction false} KeepSnoc(s: seq<string>, u: string, f: string -> bool)
    ensures Keep(s + [u], f) == Keep(s, f) + (if f(u) then [u] else [])
  {
    if s == [] {
      assert s + [u] == [u];
    } else {
      assert (s + [u])[1..] == s[1..] + [u] && (s + [u])[0] == s[0];
      KeepSnoc(s[1..], u, f);
      var head := if f(s[0]) then [s[0]] else [];
      assert Keep(s + [u], f) == head + Keep(s[1..] + [u], f);
    }
  }

  lemma AddAllSnoc(statics: seq<string>, c: Contents, urls: seq<string>, u: string)
    ensures AddAll(statics, c, urls + [u]) == AddManagedTo(statics, AddAll(statics, c, urls), u)
  {
    assert (urls + [u])[..|urls|] == urls;
  }

  lemma {:induction false} KeepConcat(a: seq<string>, b: seq<string>, f: string -> bool)
    ensures Keep(a + b, f) == Keep(a, f) + Keep(b, f)
  {
    if b == [] {
      assert a + b == a && Keep(a, f) + [] == Keep(a, f);
    } else {
      var init, last := b[..|b| - 1], b[|b| - 1];
      assert b == init + [last] && a + b == (a + init) + [last];
      KeepConcat(a, init, f);
      KeepSnoc(a + init, last, f);
      KeepSnoc(init, last, f);
    }
  }

  lemma KeepGrows(s: seq<string>, i: nat, f: string -> bool)
    requires i <= |s|
    ensures |Keep(s[..i], f)| <= |Keep(s, f)|
  {
    hide Keep;
    assert s == s[..i] + s[i..];
    KeepConcat(s[..i], s[i..], f);
  }

  /** The first loop: validate, then add. */
  method AddUrls(store: URLStore, urls: seq<string>, valid: string -> bool) returns (any: bool, failed: bool)
    requires forall u | u in urls :: Normalize(u) == Some(u) && u !in store.statics
    modifies store
    ensures failed <==> store.WriteFails(old(store.writes), |Keep(urls, valid)|)
    ensures !failed ==> store.State() == AddAll(store.statics, old(store.State()), Keep(urls, valid))
                        && any == (Keep(urls, valid) != [])
                        && (store.persistent && any ==> store.disk == store.State())
                        && (!any ==> store.disk == old(store.disk) && store.State() == old(store.State()))
                        && store.writes == store.After(old(store.writes), |Keep(urls, valid)|)
  {
    hide Normalize, AddAll, AddManagedTo, Keep;
    any, failed := false, false;
    NothingAdded(store.statics, store.State(), valid);
    for i := 0 to |urls|
      invariant store.State() == AddAll(store.statics, old(store.State()), Keep(urls[..i], valid))
      invariant any == (Keep(urls[..i], valid) != [])
      invariant store.persistent && any ==> store.disk == store.State()
      invariant !any ==> store.disk == old(store.disk) && store.State() == old(store.State())
      invariant store.writes == store.After(old(store.writes), |Keep(urls[..i], valid)|)
      invariant !store.WriteFails(old(store.writes), |Keep(urls[..i], valid)|)
    {
      assert urls[..i + 1] == urls[..i] + [urls[i]];
      KeepSnoc(urls[..i], urls[i], valid);
      KeepGrows(urls, i + 1, valid);
      ghost var before := Keep(urls[..i], valid);
      if !valid(urls[i]) {
        assert before + [] == before;
        continue;
      }
      AddAllSnoc(store.statics, old(store.State()), before, urls[i]);
      var added;
      added, failed := store.AddManaged(urls[i]);
      if failed { return; }
      any := any || added;
    }
    assert urls[..|urls|] == urls;
  }

  lemma NothingAdded(statics: seq<string>, c: Contents, valid: string -> bool)
    ensures AddAll(statics, c, []) == c && Keep([], valid) == []
  {
  }

  lemma NothingRemoved(c: Contents)
    ensures RemoveAll(c, []) == c && !RemovedAny(c, []) && Removals(c, []) == 0
  {
  }

  /** One removal more. */
  lemma RemoveSnoc(c: Contents, urls: seq<string>, i: nat)
    requires i < |urls|
    ensures var before, u := RemoveAll(c, urls[..i]), Trim(urls[i]);
            && RemoveAll(c, urls[..i + 1]) == RemoveManagedFrom(before, u)
            && RemovedAny(c, urls[..i + 1]) == (RemovedAny(c, urls[..i]) || CanRemove(before, u))
            && Removals(c, urls[..i + 1]) == Removals(c, urls[..i]) + (if CanRemove(before, u) then 1 else 0)
            && (!CanRemove(before, u) ==> RemoveManagedFrom(before, u) == before)
  {
    hide Trim, WithoutFirst, Flagged;
    assert urls[..i + 1][..i] == urls[..i];
  }

  /** The second loop. */
  method RemoveUrls(store: URLStore, urls: seq<string>) returns (any: bool, failed: bool)
    modifies store
    ensures failed <==> store.WriteFails(old(store.writes), Removals(old(store.State()), urls))
    ensures !failed ==> store.State() == RemoveAll(old(store.State()), urls)
                        && any == RemovedAny(old(store.State()), urls)
                        && (store.persistent && any ==> store.disk == store.State())
                        && (!any ==> store.disk == old(store.disk) && store.State() == old(store.State()))
                        && store.writes == store.After(old(store.writes), Removals(old(store.State()), urls))
  {
    hide Trim, WithoutFirst, RemoveAll, RemovedAny, Removals, CanRemove, RemoveManagedFrom;
    any, failed := false, false;
    NothingRemoved(store.State());
    for i := 0 to |urls|
      invariant store.State() == RemoveAll(old(store.State()), urls[..i])
      invariant any == RemovedAny(old(store.State()), urls[..i])
      invariant store.persistent && any ==> store.disk == store.State()
      invariant !any ==> store.disk == old(store.disk) && store.State() == old(store.State())
      invariant store.writes == store.After(old(store.writes), Removals(old(store.State()), urls[..i]))
      invariant !store.WriteFails(old(store.writes), Removals(old(store.State()), urls[..i]))
    {
      RemoveSnoc(old(store.State()), urls, i);
      RemovalsGrow(old(store.State()), urls, i + 1);
      var removed;
      removed, failed := store.RemoveManaged(urls[i]);
      if failed { return; }
      any := any || removed;
    }
    assert urls[..|urls|] == urls;
  }
}
