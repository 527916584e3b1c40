/** The point-in-time view of one proxy that the checker, the node registry and the alert pipeline exchange. */
module Metrics {
  import opened Text

  /** reason is the failure text already chosen for an offline proxy; node is "" for local proxies. */
  datatype Metric = Metric(id: string, name: string, node: string, online: bool, disabled: bool, reason: string)

  type Snapshot = seq<Metric>

  function Disable(s: Snapshot): Snapshot {
    seq(|s|, i requires 0 <= i < |s| => s[i].(disabled := true))
  }

  ghost predicate UniqueIds(s: Snapshot) {
    forall i, j | 0 <= i < j < |s| :: s[i].id != s[j].id
  }

  ghost predicate HasId(s: Snapshot, id: string) {
    exists i | 0 <= i < |s| :: s[i].id == id
  }

  /** Remote identities live under their node's name. */
  function Namespaced(node: string, raw: string): string {
    node + ['/'] + raw
  }

  ghost predicate OwnedBy(id: string, node: string) {
    exists raw | '/' !in raw :: id == Namespaced(node, raw)
  }

  /** Stable ids are hexadecimal, so no two nodes, and no node and the master, can share an identity. */
  lemma OwnersDiffer(id: string, a: string, b: string)
    requires OwnedBy(id, a)
    ensures '/' in id
    ensures OwnedBy(id, b) ==> a == b
  {
    var x :| '/' !in x && id == Namespaced(a, x);
    assert id[|a|] == '/';
    if OwnedBy(id, b) {
      var y :| '/' !in y && id == Namespaced(b, y);
      LastSeparatorUnique(a, x, b, y, '/');
    }
  }
}
