/** Everything in a loaded graph is stored: every account, group, proxy, usage log and link in it, at every depth, is a
    row of its table that the edge's filter lets pass and that belongs where it is, seen through the columns selected
    (backend/ent/account_query.go). */
module EagerStored {
  import opened Common
  import opened AccountSchema
  import opened EagerSpec
  import opened EagerRefines
  import opened EagerGroupOrder
  import opened EagerTrees
  import opened EagerColumns

  // ---------------------------------------------------------------- columns of the other tables

  predicate SideAsked(fields: seq<SideColumn>, c: string) {
    fields == [] || SideOther(c) in fields
  }

  /** t is the stored group or proxy r as far as the query asks for it. */
  ghost predicate SeenTarget(q: TargetQuery, r: TargetRow, t: TargetRow) {
    && t.id == r.id
    && (forall c :: c in t.rest <==> c in r.rest && SideAsked(q.fields, c))
    && (forall c :: c in t.rest ==> t.rest[c] == r.rest[c])
  }

  /** t is the stored usage log or link r; a link's group id is a column like any other. */
  ghost predicate SeenOwned(q: OwnedQuery, keyed: bool, r: OwnedRow, t: OwnedRow) {
    && t.accountID == r.accountID
    && t.id == (if keyed || q.fields == [] || SideID in q.fields then r.id else 0)
    && (forall c :: c in t.rest <==> c in r.rest && SideAsked(q.fields, c))
    && (forall c :: c in t.rest ==> t.rest[c] == r.rest[c])
  }

  lemma TargetShows(q: TargetQuery, r: TargetRow)
    ensures SeenTarget(q, r, DecodeTarget(q)(r))
  {
  }

  lemma OwnedShows(q: OwnedQuery, keyed: bool, r: OwnedRow)
    ensures SeenOwned(q, keyed, r, DecodeOwned(q, keyed)(r))
  {
    if q.fields != [] {
      var fields := SideColumns(AppendOnce(q.fields, SideAccountID), keyed);
      assert forall c :: c in fields <==> c in q.fields || c == SideAccountID || (keyed && c == SideID);
    }
  }

  // ---------------------------------------------------------------- graphs

  ghost predicate StoredGroup(store: Store, q: TargetQuery, account: int, g: TargetRow) {
    exists r :: r in store.groups && q.keep(r) && HasLinkTo(store.accountGroups, r.id, {account}) && SeenTarget(q, r, g)
  }

  ghost predicate StoredProxy(store: Store, q: TargetQuery, key: Option<int>, p: TargetRow) {
    exists r :: r in store.proxies && q.keep(r) && key == Some(r.id) && SeenTarget(q, r, p)
  }

  ghost predicate StoredOwned(table: seq<OwnedRow>, q: OwnedQuery, keyed: bool, account: int, o: OwnedRow) {
    exists r :: r in table && q.keep(r) && r.accountID == account && SeenOwned(q, keyed, r, o)
  }

  ghost predicate StoredAccount(store: Store, q: AccountQuery, n: AccountRow) {
    exists r :: r in store.accounts && Passes(q.predicates, r) && SeenThrough(q, r, n)
  }

  ghost predicate SidesStored(store: Store, q: AccountQuery, t: AccountTree) {
    && (t.groups.Some? <==> q.withGroups.Some?) && (t.proxy.Some? <==> q.withProxy.Some?)
    && (t.usageLogs.Some? <==> q.withUsageLogs.Some?) && (t.accountGroups.Some? <==> q.withAccountGroups.Some?)
    && (t.groups.Some? ==> forall g :: g in t.groups.value ==> StoredGroup(store, q.withGroups.value, t.row.id, g))
    && (t.proxy.Some? && t.proxy.value.Some? ==>
        StoredProxy(store, q.withProxy.value, t.row.proxyID, t.proxy.value.value))
    && (t.usageLogs.Some? ==>
        forall o :: o in t.usageLogs.value ==> StoredOwned(store.usageLogs, q.withUsageLogs.value, true, t.row.id, o))
    && (t.accountGroups.Some? ==> forall o :: o in t.accountGroups.value ==>
          StoredOwned(store.accountGroups, q.withAccountGroups.value, false, t.row.id, o))
  }

  /** The graph of an account that q loads. */
  ghost predicate GraphStored(store: Store, q: AccountQuery, t: AccountTree)
    decreases Depth(q)
  {
    && StoredAccount(store, q, t.row) && SidesStored(store, q, t)
    && (t.parent.Some? <==> q.withParent.Some?) && (t.children.Some? <==> q.withChildren.Some?)
    && (q.withParent.Some? && t.parent.value.Some? ==>
        t.row.parentID == Some(t.parent.value.value.row.id)
        && GraphStored(store, q.withParent.value, t.parent.value.value))
    && (q.withChildren.Some? ==>
        (FieldDepth(q.withChildren.value, ParentAccountID);
         forall c :: c in t.children.value ==>
           c.row.parentID == Some(t.row.id)
           && GraphStored(store, AppendFieldOnce(q.withChildren.value, ParentAccountID), c)))
  }

  // ---------------------------------------------------------------- one edge

  lemma JoinedRow(store: Store, q: TargetQuery, ids: set<int>, i: nat)
    requires i < |GroupRows(store, q, ids)|
    ensures var gs := Map(Filter(store.groups, q.keep), DecodeTarget(q));
      q.joins == [] && i < |Join(gs, store.accountGroups, ids)|
      && GroupRows(store, q, ids)[i] == Join(gs, store.accountGroups, ids)[i]
  {
  }

  lemma JoinedGroup(store: Store, q: TargetQuery, ids: set<int>, i: nat) returns (r: TargetRow)
    requires i < |GroupRows(store, q, ids)|
    ensures r in store.groups && q.keep(r) && SeenTarget(q, r, GroupRows(store, q, ids)[i].1)
  {
    hide Join, GroupRows, SeenTarget;
    var kept := Filter(store.groups, q.keep);
    var gs := Map(kept, DecodeTarget(q));
    JoinedRow(store, q, ids, i);
    JoinMentions(gs, store.accountGroups, ids);
    assert GroupRows(store, q, ids)[i].1 in gs;
    var k :| 0 <= k < |gs| && gs[k] == GroupRows(store, q, ids)[i].1;
    r := kept[k];
    FilterHolds(store.groups, q.keep, r);
    TargetShows(q, r);
  }

  lemma JoinedLink(store: Store, q: TargetQuery, ids: set<int>, i: nat)
    requires i < |GroupRows(store, q, ids)|
    ensures var row := GroupRows(store, q, ids)[i]; HasLinkTo(store.accountGroups, row.1.id, {row.0})
  {
    hide Join, GroupRows;
    var gs := Map(Filter(store.groups, q.keep), DecodeTarget(q));
    JoinedRow(store, q, ids, i);
    var all := Join(gs, store.accountGroups, ids);
    assert (all[i].0, all[i].1.id) in Links(all);
    LinksOfJoin(gs, store.accountGroups, ids, all[i].0, all[i].1.id);
  }

  lemma GroupIsStored(store: Store, q: TargetQuery, ids: set<int>, account: int, g: TargetRow)
    requires g in GroupsFor(GroupRows(store, q, ids), account)
    ensures StoredGroup(store, q, account, g)
  {
    hide GroupRows, FirstTargets, SeenTarget, HasLinkTo;
    var rows := GroupRows(store, q, ids);
    FilterHolds(FirstTargets(rows), LinkedTo(rows, account), g);
    FirstsExact(rows);
    var i :| 0 <= i < |rows| && rows[i].1 == g;
    var r := JoinedGroup(store, q, ids, i);
    assert r.id == g.id by {
      SeenID(q, r, g);
    }
    var j :| 0 <= j < |rows| && (rows[j].0, rows[j].1.id) == (account, g.id);
    JoinedLink(store, q, ids, j);
  }

  lemma SeenID(q: TargetQuery, r: TargetRow, t: TargetRow)
    requires SeenTarget(q, r, t)
    ensures r.id == t.id
  {
  }

  lemma {:induction false} TargetForIs(rows: seq<TargetRow>, key: Option<int>)
    requires TargetFor(rows, key).Some?
    ensures TargetFor(rows, key).value in rows && key == Some(TargetFor(rows, key).value.id)
    decreases |rows|
  {
    if rows[|rows| - 1].id != key.value {
      TargetForIs(rows[..|rows| - 1], key);
    }
  }

  lemma ProxyIsStored(store: Store, q: TargetQuery, keys: set<int>, key: Option<int>)
    requires TargetFor(ProxyRows(store, q, keys), key).Some?
    ensures StoredProxy(store, q, key, TargetFor(ProxyRows(store, q, keys), key).value)
  {
    hide SeenTarget, TargetFor;
    var rows := ProxyRows(store, q, keys);
    TargetForIs(rows, key);
    var taken := Take(Filter(store.proxies, WithID(q, keys)), q.limit);
    var i :| 0 <= i < |taken| && rows[i] == TargetFor(rows, key).value;
    FilterHolds(store.proxies, WithID(q, keys), taken[i]);
    TargetShows(q, taken[i]);
    SeenID(q, taken[i], rows[i]);
  }

  lemma OwnedIsStored(table: seq<OwnedRow>, q: OwnedQuery, keyed: bool, ids: set<int>, account: int, o: OwnedRow)
    requires o in Filter(OwnedRows(table, q, keyed, ids), OwnedBy(account))
    ensures StoredOwned(table, q, keyed, account, o)
  {
    hide SeenOwned, DecodeOwned;
    var rows := OwnedRows(table, q, keyed, ids);
    FilterHolds(rows, OwnedBy(account), o);
    var taken := Take(Filter(table, OwnedIn(q, ids)), q.limit);
    var i :| 0 <= i < |taken| && rows[i] == o;
    FilterHolds(table, OwnedIn(q, ids), taken[i]);
    OwnedShows(q, keyed, taken[i]);
    DecodeOwnedKeepsOwner(q, keyed, taken[i]);
  }

  lemma {:induction false} TreeForIs(trees: seq<AccountTree>, key: Option<int>)
    requires TreeFor(trees, key).Some?
    ensures TreeFor(trees, key).value in trees && key == Some(TreeFor(trees, key).value.row.id)
    decreases |trees|
  {
    if trees[|trees| - 1].row.id != key.value {
      TreeForIs(trees[..|trees| - 1], key);
    }
  }

  // ---------------------------------------------------------------- whole graphs

  /** A filter more, and the graph is still one that the query loads. */
  lemma StoredWithout(store: Store, q: AccountQuery, p: Predicate, t: AccountTree)
    requires GraphStored(store, Where(q, p), t)
    ensures GraphStored(store, q, t)
  {
    hide SidesStored;
    var more := Where(q, p);
    assert SidesStored(store, q, t) by {
      SidesWithout(store, q, p, t);
    }
    var r :| r in store.accounts && Passes(more.predicates, r) && SeenThrough(more, r, t.row);
    PassesWithout(q, p, r);
    SeenWithout(q, p, r, t.row);
  }

  lemma SidesWithout(store: Store, q: AccountQuery, p: Predicate, t: AccountTree)
    requires SidesStored(store, Where(q, p), t)
    ensures SidesStored(store, q, t)
  {
  }

  lemma PassesWithout(q: AccountQuery, p: Predicate, r: AccountRow)
    requires Passes(Where(q, p).predicates, r)
    ensures Passes(q.predicates, r)
  {
    assert forall x :: x in q.predicates ==> x in Where(q, p).predicates;
  }

  lemma SeenWithout(q: AccountQuery, p: Predicate, r: AccountRow, n: AccountRow)
    requires SeenThrough(Where(q, p), r, n)
    ensures SeenThrough(q, r, n)
  {
  }

  lemma NodeIsStored(store: Store, q: AccountQuery, i: nat)
    requires i < |Nodes(store, q)|
    ensures StoredAccount(store, q, Nodes(store, q)[i])
  {
    hide Decode, SeenThrough, Passes;
    var r := SelectRows(store.accounts, q)[i];
    assert r == Filter(store.accounts, Matching(q))[i];
    FilterHolds(store.accounts, Matching(q), r);
    MatchExactly(q.predicates, r);
    DecodeShows(q, r);
  }

  lemma SideEdgesAre(store: Store, q: AccountQuery, nodes: seq<AccountRow>)
    ensures var e, ids := EdgesOf(store, q, nodes), IDs(nodes);
      && (q.withGroups.Some? ==> e.groups == GroupRows(store, q.withGroups.value, ids))
      && (q.withProxy.Some? ==> e.proxies == ProxyRows(store, q.withProxy.value, ProxyKeys(nodes)))
      && (q.withUsageLogs.Some? ==> e.usageLogs == OwnedRows(store.usageLogs, q.withUsageLogs.value, true, ids))
      && (q.withAccountGroups.Some? ==>
          e.accountGroups == OwnedRows(store.accountGroups, q.withAccountGroups.value, false, ids))
  {
    hide All, GroupRows, ProxyRows, OwnedRows, IDs, Present;
  }

  lemma SidesAreStored(store: Store, q: AccountQuery, nodes: seq<AccountRow>, n: AccountRow)
    ensures SidesStored(store, q, Attach(q, n, EdgesOf(store, q, nodes)))
  {
    hide EdgesOf, GroupRows, GroupsFor, ProxyRows, OwnedRows, TargetFor, TreeFor, Filter, IDs, ProxyKeys, StoredGroup,
      StoredProxy, StoredOwned;
    var t, ids := Attach(q, n, EdgesOf(store, q, nodes)), IDs(nodes);
    SideEdgesAre(store, q, nodes);
    if q.withGroups.Some? {
      forall g | g in t.groups.value
        ensures StoredGroup(store, q.withGroups.value, n.id, g)
      {
        GroupIsStored(store, q.withGroups.value, ids, n.id, g);
      }
    }
    if q.withProxy.Some? && t.proxy.value.Some? {
      ProxyIsStored(store, q.withProxy.value, ProxyKeys(nodes), n.proxyID);
    }
    if q.withUsageLogs.Some? {
      forall o | o in t.usageLogs.value
        ensures StoredOwned(store.usageLogs, q.withUsageLogs.value, true, n.id, o)
      {
        OwnedIsStored(store.usageLogs, q.withUsageLogs.value, true, ids, n.id, o);
      }
    }
    if q.withAccountGroups.Some? {
      forall o | o in t.accountGroups.value
        ensures StoredOwned(store.accountGroups, q.withAccountGroups.value, false, n.id, o)
      {
        OwnedIsStored(store.accountGroups, q.withAccountGroups.value, false, ids, n.id, o);
      }
    }
  }

  ghost predicate AllStored(store: Store, q: AccountQuery, trees: seq<AccountTree>) {
    forall t :: t in trees ==> GraphStored(store, q, t)
  }

  lemma {:induction false} ParentIsStored(store: Store, q: AccountQuery, nodes: seq<AccountRow>, n: AccountRow)
    requires q.withParent.Some? && TreeFor(EdgesOf(store, q, nodes).parents, n.parentID).Some?
    ensures var t := TreeFor(EdgesOf(store, q, nodes).parents, n.parentID).value;
      n.parentID == Some(t.row.id) && GraphStored(store, q.withParent.value, t)
    decreases Depth(q), 0
  {
    hide All, EdgesOf, TreeFor, GraphStored, ParentKeys;
    var p, keys, trees := q.withParent.value, ParentKeys(nodes), EdgesOf(store, q, nodes).parents;
    ParentEdges(store, q, nodes);
    TreeForIs(trees, n.parentID);
    SubqueryDepth(p, keys);
    GraphsAreStored(store, ParentQuery(p, keys));
    StoredWithout(store, p, IDIn(keys), TreeFor(trees, n.parentID).value);
  }

  lemma {:induction false} ChildrenAreStored(store: Store, q: AccountQuery, nodes: seq<AccountRow>, n: AccountRow,
                                             t: AccountTree)
    requires q.withChildren.Some? && t in Filter(EdgesOf(store, q, nodes).children, ChildOf(n.id))
    ensures t.row.parentID == Some(n.id)
    ensures GraphStored(store, AppendFieldOnce(q.withChildren.value, ParentAccountID), t)
    decreases Depth(q), 0
  {
    hide All, EdgesOf, GraphStored, AppendFieldOnce;
    var c, ids := q.withChildren.value, IDs(nodes);
    ChildEdges(store, q, nodes);
    FilterHolds(EdgesOf(store, q, nodes).children, ChildOf(n.id), t);
    SubqueryDepth(c, ids);
    GraphsAreStored(store, ChildrenQuery(c, ids));
    StoredWithout(store, AppendFieldOnce(c, ParentAccountID), ParentIn(ids), t);
  }

  lemma {:induction false} NodeGraphStored(store: Store, q: AccountQuery, i: nat)
    requires i < |Nodes(store, q)|
    ensures GraphStored(store, q, Attach(q, Nodes(store, q)[i], EdgesOf(store, q, Nodes(store, q))))
    decreases Depth(q), 1
  {
    hide All, EdgesOf, Nodes, SidesStored, StoredAccount, TreeFor, AppendFieldOnce;
    var nodes := Nodes(store, q);
    var n, e := nodes[i], EdgesOf(store, q, nodes);
    NodeIsStored(store, q, i);
    SidesAreStored(store, q, nodes, n);
    if q.withParent.Some? && TreeFor(e.parents, n.parentID).Some? {
      ParentIsStored(store, q, nodes, n);
    }
    if q.withChildren.Some? {
      FieldDepth(q.withChildren.value, ParentAccountID);
      forall t | t in Filter(e.children, ChildOf(n.id))
        ensures t.row.parentID == Some(n.id)
        ensures GraphStored(store, AppendFieldOnce(q.withChildren.value, ParentAccountID), t)
      {
        ChildrenAreStored(store, q, nodes, n, t);
      }
    }
  }

  /** Whatever a query loads is stored, and is where it belongs. */
  lemma {:induction false} GraphsAreStored(store: Store, q: AccountQuery)
    ensures AllStored(store, q, All(store, q))
    decreases Depth(q), 2
  {
    hide Nodes, EdgesOf, GraphStored, Attach;
    var nodes, trees := Nodes(store, q), All(store, q);
    forall t | t in trees
      ensures GraphStored(store, q, t)
    {
      var i :| 0 <= i < |trees| && trees[i] == t;
      AllIsAttached(store, q);
      NodeGraphStored(store, q, i);
    }
  }
}
