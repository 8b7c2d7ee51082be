/** Which runs of a query fail by themselves, and what a run leaves of its query: loading an edge adds a filter on the
    nodes' keys to the edge's own query object, at every depth (the load methods of backend/ent/account_query.go). */
module EagerOutcome {
  import opened Common
  import opened EagerSpec

  // ---------------------------------------------------------------- runs that fail

  /** Every selected field is a column of the table. */
  predicate Prepared(q: AccountQuery) {
    forall c :: c in q.fields ==> !c.Other?
  }

  predicate SidesSound(store: Store, q: AccountQuery, rows: seq<AccountRow>) {
    q.withGroups.Some? ==> GroupsSound(store, q.withGroups.value, IDs(rows))
  }

  predicate ParentSound(store: Store, q: AccountQuery, keys: set<int>)
    decreases Depth(q), 2
  {
    keys == {} || (SubqueryDepth(q, keys); Sound(store, ParentQuery(q, keys)))
  }

  predicate ParentPart(store: Store, q: AccountQuery, rows: seq<AccountRow>)
    decreases Depth(q), 0, 0, 0, 0
  {
    q.withParent.Some? ==> ParentSound(store, q.withParent.value, ParentKeys(rows))
  }

  predicate ChildrenPart(store: Store, q: AccountQuery, rows: seq<AccountRow>)
    decreases Depth(q), 0, 0, 0, 0
  {
    q.withChildren.Some? ==>
      (SubqueryDepth(q.withChildren.value, IDs(rows)); Sound(store, ChildrenQuery(q.withChildren.value, IDs(rows))))
  }

  predicate FamilySound(store: Store, q: AccountQuery, rows: seq<AccountRow>)
    decreases Depth(q), 0, 0, 0
  {
    ParentPart(store, q, rows) && ChildrenPart(store, q, rows)
  }

  predicate EdgesSound(store: Store, q: AccountQuery)
    decreases Depth(q), 0, 1
  {
    Nodes(store, q) == [] || (SidesSound(store, q, Nodes(store, q)) && FamilySound(store, q, Nodes(store, q)))
  }

  /** No query that a run of q reaches selects a field that is not a column, or scans groups that were joined before. */
  predicate Sound(store: Store, q: AccountQuery)
    decreases Depth(q), 1
  {
    Prepared(q) && EdgesSound(store, q)
  }

  // ---------------------------------------------------------------- what a run leaves behind

  /** The filters, limit and fields are the same. */
  ghost predicate SameTop(x: AccountQuery, f: AccountQuery) {
    x.predicates == f.predicates && x.limit == f.limit && x.fields == f.fields
  }

  lemma SameTopThen(x: AccountQuery, y: AccountQuery, z: AccountQuery)
    requires SameTop(x, y) && SameTop(y, z)
    ensures SameTop(x, z)
  {
  }

  function KeptJoin(q: TargetQuery, ids: set<int>): TargetQuery {
    q.(joins := q.joins + [ids])
  }

  function KeptTargets(q: TargetQuery, keys: set<int>): TargetQuery {
    if keys == {} then q else q.(keep := WithID(q, keys))
  }

  function KeptOwned(q: OwnedQuery, ids: set<int>): OwnedQuery {
    q.(keep := OwnedIn(q, ids), fields := if q.fields == [] then [] else AppendOnce(q.fields, SideAccountID))
  }

  /** What a load adds to the query of an edge, and that it adds nothing else. */
  lemma KeptExactly(g: TargetQuery, t: TargetQuery, o: OwnedQuery, ids: set<int>)
    ensures var x := KeptJoin(g, ids);
      x.joins == g.joins + [ids] && x.keep == g.keep && x.limit == g.limit && x.fields == g.fields
    ensures var x := KeptTargets(t, ids);
      && (forall r :: x.keep(r) <==> t.keep(r) && (ids == {} || r.id in ids))
      && x.limit == t.limit && x.fields == t.fields && x.joins == t.joins
    ensures var x := KeptOwned(o, ids);
      && (forall r :: x.keep(r) <==> o.keep(r) && r.accountID in ids)
      && x.limit == o.limit && (x.fields == [] <==> o.fields == []) && o.fields <= x.fields
      && (forall c :: c in x.fields <==> c in o.fields || (o.fields != [] && c == SideAccountID))
      && |x.fields| <= |o.fields| + 1
  {
  }

  function AfterGroups(q: AccountQuery, nodes: seq<AccountRow>): AccountQuery {
    if q.withGroups.Some? then q.(withGroups := Some(KeptJoin(q.withGroups.value, IDs(nodes)))) else q
  }

  function AfterProxies(q: AccountQuery, nodes: seq<AccountRow>): AccountQuery {
    if q.withProxy.Some? then q.(withProxy := Some(KeptTargets(q.withProxy.value, ProxyKeys(nodes)))) else q
  }

  function AfterUsageLogs(q: AccountQuery, nodes: seq<AccountRow>): AccountQuery {
    if q.withUsageLogs.Some? then q.(withUsageLogs := Some(KeptOwned(q.withUsageLogs.value, IDs(nodes)))) else q
  }

  function AfterLinks(q: AccountQuery, nodes: seq<AccountRow>): AccountQuery {
    if q.withAccountGroups.Some?
    then q.(withAccountGroups := Some(KeptOwned(q.withAccountGroups.value, IDs(nodes)))) else q
  }

  function AfterSides(q: AccountQuery, nodes: seq<AccountRow>): AccountQuery {
    AfterLinks(AfterUsageLogs(AfterProxies(AfterGroups(q, nodes), nodes), nodes), nodes)
  }

  /** The query object after a run against the store. */
  function AfterRun(store: Store, q: AccountQuery): AccountQuery
    decreases Depth(q), 2
  {
    if Nodes(store, q) == [] then q else AfterLoads(store, q, Nodes(store, q))
  }

  function AfterLoads(store: Store, q: AccountQuery, nodes: seq<AccountRow>): AccountQuery
    decreases Depth(q), 1
  {
    AfterSides(q, nodes).(withParent := ParentLeft(store, q, nodes), withChildren := ChildrenLeft(store, q, nodes))
  }

  function ParentLeft(store: Store, q: AccountQuery, nodes: seq<AccountRow>): Option<AccountQuery>
    decreases Depth(q), 0
  {
    if q.withParent.Some? then Some(AfterParent(store, q.withParent.value, ParentKeys(nodes))) else None
  }

  function ChildrenLeft(store: Store, q: AccountQuery, nodes: seq<AccountRow>): Option<AccountQuery>
    decreases Depth(q), 0
  {
    if q.withChildren.Some? then Some(AfterChildren(store, q.withChildren.value, IDs(nodes))) else None
  }

  function AfterParent(store: Store, p: AccountQuery, keys: set<int>): AccountQuery
    decreases Depth(p), 3
  {
    if keys == {} then p else SubqueryDepth(p, keys); AfterRun(store, ParentQuery(p, keys))
  }

  function AfterChildren(store: Store, c: AccountQuery, ids: set<int>): AccountQuery
    decreases Depth(c), 3
  {
    SubqueryDepth(c, ids);
    AfterRun(store, ChildrenQuery(c, ids))
  }

  lemma LoadsLeave(store: Store, q: AccountQuery, nodes: seq<AccountRow>)
    requires nodes == Nodes(store, q) && nodes != []
    ensures AfterRun(store, q)
            == AfterSides(q, nodes).(withParent := ParentLeft(store, q, nodes),
                                     withChildren := ChildrenLeft(store, q, nodes))
  {
  }
}
