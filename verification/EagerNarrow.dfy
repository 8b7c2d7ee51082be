/** Selecting fields does not change what is eager-loaded (querySpec of backend/ent/account_query.go). */
module EagerNarrow {
  import opened Common
  import opened EagerSpec
  import opened EagerRefines

  /** The query with all its own fields. */
  function Wide(q: AccountQuery): AccountQuery {
    q.(fields := [])
  }

  /** Rows that agree on the id, and on the keys of the requested to-one edges. */
  predicate SameKeys(q: AccountQuery, a: AccountRow, b: AccountRow) {
    && a.id == b.id
    && (q.withProxy.Some? ==> a.proxyID == b.proxyID)
    && (q.withParent.Some? ==> a.parentID == b.parentID)
  }

  /** Trees that agree on everything but the row. */
  predicate SameEdges(a: AccountTree, b: AccountTree) {
    && a.groups == b.groups && a.proxy == b.proxy && a.parent == b.parent && a.children == b.children
    && a.usageLogs == b.usageLogs && a.accountGroups == b.accountGroups
  }

  lemma NodesKeepKeys(store: Store, q: AccountQuery, i: nat)
    requires i < |Nodes(store, q)|
    ensures |Nodes(store, Wide(q))| == |Nodes(store, q)|
    ensures SameKeys(q, Nodes(store, q)[i], Nodes(store, Wide(q))[i])
  {
    var rows := SelectRows(store.accounts, q);
    assert SelectRows(store.accounts, Wide(q)) == rows by {
      FilterSame(store.accounts, Matching(q), Matching(Wide(q)));
    }
    DecodeKeepsKeys(q, rows[i]);
    DecodeKeepsKeys(Wide(q), rows[i]);
  }

  lemma SameIDs(q: AccountQuery, a: seq<AccountRow>, b: seq<AccountRow>)
    requires |a| == |b| && forall i :: 0 <= i < |a| ==> SameKeys(q, a[i], b[i])
    ensures IDs(a) == IDs(b)
    ensures q.withProxy.Some? ==> Map(a, ProxyKey()) == Map(b, ProxyKey())
    ensures q.withParent.Some? ==> Map(a, ParentKey()) == Map(b, ParentKey())
  {
    forall x
      ensures x in IDs(a) <==> x in IDs(b)
    {
      if x in IDs(a) {
        var i :| 0 <= i < |a| && a[i].id == x;
        assert SameKeys(q, a[i], b[i]) && b[i].id == x;
      }
      if x in IDs(b) {
        var i :| 0 <= i < |b| && b[i].id == x;
        assert SameKeys(q, a[i], b[i]) && a[i].id == x;
      }
    }
  }

  lemma SameQueries(store: Store, q: AccountQuery, a: seq<AccountRow>, b: seq<AccountRow>)
    requires |a| == |b| && forall i :: 0 <= i < |a| ==> SameKeys(q, a[i], b[i])
    ensures EdgesOf(store, q, a) == EdgesOf(store, Wide(q), b)
  {
    SameIDs(q, a, b);
  }

  lemma SameShare(q: AccountQuery, a: AccountRow, b: AccountRow, e: Edges)
    requires SameKeys(q, a, b)
    ensures SameEdges(Attach(q, a, e), Attach(Wide(q), b, e))
  {
  }

  lemma TreeOf(store: Store, q: AccountQuery, i: nat)
    requires i < |Nodes(store, q)|
    ensures All(store, q)[i] == Attach(q, Nodes(store, q)[i], EdgesOf(store, q, Nodes(store, q)))
  {
    var nodes := Nodes(store, q);
    var e := EdgesOf(store, q, nodes);
    assert All(store, q) == Map(nodes, Attacher(q, e));
    assert Map(nodes, Attacher(q, e))[i] == Attacher(q, e)(nodes[i]);
  }

  /** Whatever fields are selected, and whatever limits the edge queries have, every account is loaded with the
      edges that the unnarrowed query would load. */
  lemma NarrowingKeepsEdges(store: Store, q: AccountQuery, i: nat)
    requires i < |All(store, q)|
    ensures |All(store, Wide(q))| == |All(store, q)|
    ensures SameEdges(All(store, q)[i], All(store, Wide(q))[i])
  {
    var a, b := Nodes(store, q), Nodes(store, Wide(q));
    forall k | 0 <= k < |a|
      ensures |a| == |b| && SameKeys(q, a[k], b[k])
    {
      NodesKeepKeys(store, q, k);
    }
    NodesKeepKeys(store, q, i);
    SameQueries(store, q, a, b);
    TreeOf(store, q, i);
    TreeOf(store, Wide(q), i);
    SameShare(q, a[i], b[i], EdgesOf(store, q, a));
  }
}
