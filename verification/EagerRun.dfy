/** Running an account query with all its eager loads, nested to any depth (All and sqlAll of
    backend/ent/account_query.go). */
module EagerRun {
  import opened Common
  import opened AccountSchema
  import opened EagerSpec
  import opened EagerRefines
  import opened EagerTrees
  import opened EagerLoad
  import opened EagerEdges
  import opened EagerOutcome
  import opened EagerObjects
  import opened EagerColumns
  import opened EagerStored
  import opened EagerQuery

  // ---------------------------------------------------------------- how many queries, and which fail

  function One(b: bool): nat {
    if b then 1 else 0
  }

  function SideQueries(q: AccountQuery, keys: set<int>): nat {
    One(q.withGroups.Some?) + One(q.withProxy.Some? && keys != {})
  }

  function OwnedQueries(q: AccountQuery): nat {
    One(q.withUsageLogs.Some?) + One(q.withAccountGroups.Some?)
  }

  function ParentQueries(store: Store, q: AccountQuery, keys: set<int>): nat
    decreases Depth(q), 2
  {
    if keys == {} then 0 else SubqueryDepth(q, keys); Queries(store, ParentQuery(q, keys))
  }

  function ParentCount(store: Store, q: AccountQuery, rows: seq<AccountRow>): nat
    decreases Depth(q), 0, 0
  {
    if q.withParent.Some? then ParentQueries(store, q.withParent.value, ParentKeys(rows)) else 0
  }

  function ChildrenCount(store: Store, q: AccountQuery, rows: seq<AccountRow>): nat
    decreases Depth(q), 0, 0
  {
    if q.withChildren.Some?
    then SubqueryDepth(q.withChildren.value, IDs(rows)); Queries(store, ChildrenQuery(q.withChildren.value, IDs(rows)))
    else 0
  }

  function FamilyQueries(store: Store, q: AccountQuery, rows: seq<AccountRow>): nat
    decreases Depth(q), 0
  {
    ParentCount(store, q, rows) + ChildrenCount(store, q, rows)
  }

  /** The number of queries that a run of q asks the database. */
  function Queries(store: Store, q: AccountQuery): nat
    decreases Depth(q), 1
  {
    var rows := Nodes(store, q);
    1 + if rows == [] then 0
        else SideQueries(q, ProxyKeys(rows)) + FamilyQueries(store, q, rows) + OwnedQueries(q)
  }

  /** The number of query builders in q, edges of edges included. */
  function Builders(q: AccountQuery): nat
    decreases Depth(q)
  {
    1 + One(q.withGroups.Some?) + One(q.withProxy.Some?) + OwnedQueries(q)
    + (if q.withParent.Some? then Builders(q.withParent.value) else 0)
    + (if q.withChildren.Some? then Builders(q.withChildren.value) else 0)
  }

  lemma WhereBuilders(q: AccountQuery, p: Predicate)
    ensures Builders(Where(q, p)) == Builders(q)
  {
    WhereDepth(q, p);
  }

  lemma WhereDepth(q: AccountQuery, p: Predicate)
    ensures Depth(Where(q, p)) == Depth(q)
  {
  }

  lemma FieldBuilders(q: AccountQuery, c: Column)
    ensures Builders(AppendFieldOnce(q, c)) == Builders(q)
  {
  }

  lemma SubqueryBuilders(q: AccountQuery, ids: set<int>)
    ensures Builders(ParentQuery(q, ids)) == Builders(q) && Builders(ChildrenQuery(q, ids)) == Builders(q)
  {
    WhereBuilders(q, IDIn(ids));
    FieldBuilders(q, ParentAccountID);
    WhereBuilders(AppendFieldOnce(q, ParentAccountID), ParentIn(ids));
  }

  lemma {:induction false} ParentsBounded(store: Store, s: AccountQuery, keys: set<int>)
    ensures ParentQueries(store, s, keys) <= Builders(s)
    decreases Depth(s), 2
  {
    if keys != {} {
      SubqueryDepth(s, keys);
      SubqueryBuilders(s, keys);
      QueriesBounded(store, ParentQuery(s, keys));
    }
  }

  lemma {:induction false} ChildrenBounded(store: Store, s: AccountQuery, ids: set<int>)
    ensures Queries(store, ChildrenQuery(s, ids)) <= Builders(s)
    decreases Depth(s), 2
  {
    SubqueryDepth(s, ids);
    SubqueryBuilders(s, ids);
    QueriesBounded(store, ChildrenQuery(s, ids));
  }

  lemma {:induction false} FamilyBounded(store: Store, q: AccountQuery, rows: seq<AccountRow>)
    ensures FamilyQueries(store, q, rows)
            <= (if q.withParent.Some? then Builders(q.withParent.value) else 0)
               + (if q.withChildren.Some? then Builders(q.withChildren.value) else 0)
    decreases Depth(q), 0
  {
    if q.withParent.Some? {
      ParentsBounded(store, q.withParent.value, ParentKeys(rows));
    }
    if q.withChildren.Some? {
      ChildrenBounded(store, q.withChildren.value, IDs(rows));
    }
  }

  /** However many accounts are loaded, each query builder asks at most one query. */
  lemma {:induction false} QueriesBounded(store: Store, q: AccountQuery)
    ensures 1 <= Queries(store, q) <= Builders(q)
    decreases Depth(q), 1
  {
    FamilyBounded(store, q, Nodes(store, q));
  }

  // ---------------------------------------------------------------- facts about the rows returned

  lemma TreeRow(store: Store, q: AccountQuery, i: nat)
    requires i < |Nodes(store, q)|
    ensures All(store, q)[i].row == Nodes(store, q)[i]
  {
  }

  lemma SelectedMatch(store: Store, q: AccountQuery, i: nat)
    requires i < |SelectRows(store.accounts, q)|
    ensures Matching(q)(SelectRows(store.accounts, q)[i])
  {
    assert SelectRows(store.accounts, q)[i] == Filter(store.accounts, Matching(q))[i];
  }

  lemma ParentRowHasKey(store: Store, q: AccountQuery, keys: set<int>, i: nat)
    requires i < |Nodes(store, ParentQuery(q, keys))|
    ensures All(store, ParentQuery(q, keys))[i].row.id in keys
  {
    var all := ParentQuery(q, keys);
    var r := SelectRows(store.accounts, all)[i];
    TreeRow(store, all, i);
    SelectedMatch(store, all, i);
    MatchWhere(q, IDIn(keys), r);
    DecodeKeepsKeys(all, r);
  }

  lemma ChildRowHasParent(store: Store, q: AccountQuery, ids: set<int>, i: nat)
    requires i < |Nodes(store, ChildrenQuery(q, ids))|
    ensures var key := All(store, ChildrenQuery(q, ids))[i].row.parentID; key.Some? && key.value in ids
  {
    var all, child := ChildrenQuery(q, ids), AppendFieldOnce(q, ParentAccountID);
    var r := SelectRows(store.accounts, all)[i];
    TreeRow(store, all, i);
    SelectedMatch(store, all, i);
    MatchWhere(child, ParentIn(ids), r);
    DecodeIgnoresWhere(child, ParentIn(ids), r);
    DecodeKeepsKeys(q, r);
  }

  lemma NodesDistinct(store: Store, q: AccountQuery, nodes: seq<Account>)
    requires ValidStore(store) && RowsOf(nodes) == Nodes(store, q)
    ensures DistinctIDs(nodes)
  {
    var rows := SelectRows(store.accounts, q);
    EagerRefines.DistinctRows(store.accounts, Matching(q));
    forall i, j | 0 <= i < j < |nodes|
      ensures nodes[i].row.id != nodes[j].row.id
    {
      assert nodes[i].row == RowsOf(nodes)[i] && nodes[j].row == RowsOf(nodes)[j];
      DecodeKeepsKeys(q, rows[i]);
      DecodeKeepsKeys(q, rows[j]);
      assert rows[i] == Filter(store.accounts, Matching(q))[i] && rows[j] == Filter(store.accounts, Matching(q))[j];
    }
  }

  // ---------------------------------------------------------------- the recursive loads

  function ParentTrees(store: Store, q: AccountQuery, keys: set<int>): seq<AccountTree> {
    if keys == {} then [] else All(store, ParentQuery(q, keys))
  }

  /** The nodes stand for the graphs, and every account reached by a loaded edge is in made. */
  ghost predicate LoadedAs(nodes: seq<Account>, trees: seq<AccountTree>, loaded: LoadedTypes, made: set<Account>)
    reads nodes, made
  {
    && TreesOf(nodes) == trees
    && DistinctNodes(nodes)
    && (forall a :: a in nodes ==> a in made && a.loaded == loaded)
    && Linked(made)
  }

  /** The result of a run: its graphs are those of the batched specification. */
  ghost predicate IsLoaded(store: Store, q: AccountQuery, nodes: seq<Account>, made: set<Account>)
    reads nodes, made
  {
    LoadedAs(nodes, All(store, q), Requested(q), made)
  }

  lemma LinkedRow(made: set<Account>, a: Account)
    requires Linked(made) && a in made
    ensures a.tree.row == a.row
  {
    assert Reflects(a);
  }

  /** Parents that were asked for. */
  ghost predicate Expected(parents: seq<Account>, nodeids: map<int, seq<Account>>)
    reads parents
  {
    forall i :: 0 <= i < |parents| ==> parents[i].row.id in nodeids && parents[i].tree.row == parents[i].row
  }

  /** Children of the nodes. */
  ghost predicate GoodChildren(nodes: seq<Account>, kids: seq<Account>)
    reads kids
  {
    forall i :: 0 <= i < |kids| ==> GoodChild(nodes, kids[i]) && kids[i].tree.row == kids[i].row
  }

  lemma LoadedTree(store: Store, q: AccountQuery, nodes: seq<Account>, made: set<Account>, i: nat)
    requires IsLoaded(store, q, nodes, made) && i < |nodes|
    ensures i < |Nodes(store, q)|
    ensures nodes[i].tree == All(store, q)[i] && nodes[i].tree.row == nodes[i].row
  {
    assert |TreesOf(nodes)| == |nodes| && TreesOf(nodes)[i] == nodes[i].tree;
    LinkedRow(made, nodes[i]);
  }

  lemma ParentAsked(store: Store, q: AccountQuery, keys: set<int>, parents: seq<Account>, made: set<Account>, i: nat)
    requires IsLoaded(store, ParentQuery(q, keys), parents, made) && i < |parents|
    ensures parents[i].row.id in keys && parents[i].tree.row == parents[i].row
  {
    LoadedTree(store, ParentQuery(q, keys), parents, made, i);
    ParentRowHasKey(store, q, keys, i);
  }

  lemma ParentsAsked(store: Store, q: AccountQuery, keys: set<int>, parents: seq<Account>, made: set<Account>)
    requires IsLoaded(store, ParentQuery(q, keys), parents, made)
    ensures forall i :: 0 <= i < |parents| ==> parents[i].row.id in keys && parents[i].tree.row == parents[i].row
  {
    forall i | 0 <= i < |parents|
      ensures parents[i].row.id in keys && parents[i].tree.row == parents[i].row
    {
      ParentAsked(store, q, keys, parents, made, i);
    }
  }

  lemma ChildAsked(store: Store, q: AccountQuery, nodes: seq<Account>, kids: seq<Account>, made: set<Account>, i: nat)
    requires IsLoaded(store, ChildrenQuery(q, IDs(RowsOf(nodes))), kids, made) && i < |kids|
    ensures GoodChild(nodes, kids[i]) && kids[i].tree.row == kids[i].row
  {
    var ids := IDs(RowsOf(nodes));
    LoadedTree(store, ChildrenQuery(q, ids), kids, made, i);
    ChildRowHasParent(store, q, ids, i);
    IDOfNode(nodes, kids[i].row.parentID.value);
  }

  lemma IDOfNode(nodes: seq<Account>, id: int)
    requires id in IDs(RowsOf(nodes))
    ensures IsNodeID(nodes, id)
  {
    var k :| 0 <= k < |RowsOf(nodes)| && RowsOf(nodes)[k].id == id;
    assert nodes[k].row.id == id;
  }

  lemma ChildrenAsked(store: Store, q: AccountQuery, nodes: seq<Account>, kids: seq<Account>, made: set<Account>)
    requires IsLoaded(store, ChildrenQuery(q, IDs(RowsOf(nodes))), kids, made)
    ensures GoodChildren(nodes, kids)
  {
    forall i | 0 <= i < |kids|
      ensures GoodChild(nodes, kids[i]) && kids[i].tree.row == kids[i].row
    {
      ChildAsked(store, q, nodes, kids, made, i);
    }
  }

  twostate lemma LinkedKept(made: set<Account>)
    requires old(Linked(made)) && unchanged(made)
    ensures Linked(made)
  {
  }

  lemma AskedParents(ids: seq<int>, nodeids: map<int, seq<Account>>, nodes: seq<Account>, parents: seq<Account>)
    requires Buckets(ids, nodeids, nodes, ParentKey())
    requires forall i :: 0 <= i < |parents| ==> parents[i].row.id in SetOf(ids) && parents[i].tree.row == parents[i].row
    ensures Expected(parents, nodeids)
  {
    PresentIsBucketed(ids, nodeids, nodes, ParentKey());
  }

  method HandOutParents(store: Store, q: AccountQuery, nodes: seq<Account>, ids: seq<int>,
                        nodeids: map<int, seq<Account>>, parents: seq<Account>, ghost made: set<Account>)
    requires IsLoaded(store, ParentQuery(q, SetOf(ids)), parents, made)
    requires Buckets(ids, nodeids, nodes, ParentKey())
    requires forall a :: a in nodes ==> a.parent == null && a !in made
    modifies nodes`parent
    ensures Linked(made)
    ensures ParentsPlaced(nodes, All(store, ParentQuery(q, SetOf(ids))), made)
  {
    ParentsAsked(store, q, SetOf(ids), parents, made);
    AskedParents(ids, nodeids, nodes, parents);
    var err := PlaceParents(nodes, ids, nodeids, parents, TreesOf(parents), made);
    LinkedKept(made);
  }

  method HandOutChildren(store: Store, q: AccountQuery, nodes: seq<Account>, kids: seq<Account>,
                         ghost made: set<Account>)
    requires IsLoaded(store, ChildrenQuery(q, IDs(RowsOf(nodes))), kids, made)
    requires DistinctNodes(nodes) && DistinctIDs(nodes) && forall a :: a in nodes ==> a !in made
    modifies nodes`children
    ensures Linked(made)
    ensures ChildrenPlaced(nodes, All(store, ChildrenQuery(q, IDs(RowsOf(nodes)))), made)
  {
    ChildrenAsked(store, q, nodes, kids, made);
    var err := PlaceChildren(nodes, kids, TreesOf(kids), made);
    LinkedKept(made);
  }

  method AskParents(db: Database, store: Store, p: AccountQueryBuilder, q: AccountQuery, nodes: seq<Account>,
                    ids: seq<int>, nodeids: map<int, seq<Account>>)
    returns (ok: bool, ghost made: set<Account>)
    requires ValidStore(store) && Buckets(ids, nodeids, nodes, ParentKey()) && p.Valid() && q == p.Query()
    requires forall a :: a in nodes ==> a.parent == null
    modifies db`asked, nodes`parent, p.Repr`own
    ensures var all := ParentQuery(q, SetOf(ids));
      Ran(db, ok, Sound(store, all), old(db.asked), db.asked, Queries(store, all))
    ensures ok ==> fresh(made) && Linked(made)
    ensures ok ==> ParentsPlaced(nodes, All(store, ParentQuery(q, SetOf(ids))), made)
    ensures p.Valid() && (ok ==> p.Query() == AfterRun(store, ParentQuery(q, SetOf(ids))))
    decreases p.Repr, 7
  {
    hide *;
    var all := ParentQuery(q, SetOf(ids));
    KeyedQuery(q, SetOf(ids));
    EdgesApart(p);
    p.Where(IDIn(SetOf(ids)));
    var parents;
    ok, parents, made := RunAll(db, store, p);
    if ok {
      HandOutParents(store, q, nodes, ids, nodeids, parents, made);
    }
  }

  lemma KeyedQuery(q: AccountQuery, ids: set<int>)
    ensures ParentQuery(q, ids) == Where(q, IDIn(ids))
    ensures ChildrenQuery(q, ids) == Where(AppendFieldOnce(q, ParentAccountID), ParentIn(ids))
  {
  }

  lemma NoParents(nodes: seq<Account>)
    requires forall a :: a in nodes ==> a.parent == null
    ensures ParentsPlaced(nodes, [], {}) && Linked({})
  {
  }

  lemma ParentKeysAre(rows: seq<AccountRow>)
    ensures ParentKeys(rows) == Present(Map(rows, ParentKey()))
  {
  }

  lemma ParentCases(store: Store, q: AccountQuery, keys: set<int>)
    ensures keys == {} ==>
      && ParentSound(store, q, keys) && ParentQueries(store, q, keys) == 0
      && ParentTrees(store, q, keys) == [] && AfterParent(store, q, keys) == q
    ensures keys != {} ==>
      && ParentSound(store, q, keys) == Sound(store, ParentQuery(q, keys))
      && ParentQueries(store, q, keys) == Queries(store, ParentQuery(q, keys))
      && ParentTrees(store, q, keys) == All(store, ParentQuery(q, keys))
      && AfterParent(store, q, keys) == AfterRun(store, ParentQuery(q, keys))
  {
  }

  method QueryParents(db: Database, store: Store, p: AccountQueryBuilder, q: AccountQuery, nodes: seq<Account>,
                      ghost keys: set<int>)
    returns (ok: bool, ghost made: set<Account>)
    requires ValidStore(store) && keys == ParentKeys(RowsOf(nodes)) && p.Valid() && q == p.Query()
    requires forall a :: a in nodes ==> a.parent == null
    modifies db`asked, nodes`parent, p.Repr`own
    ensures Ran(db, ok, ParentSound(store, q, keys), old(db.asked), db.asked, ParentQueries(store, q, keys))
    ensures ok ==> fresh(made) && Linked(made)
    ensures ok ==> ParentsPlaced(nodes, ParentTrees(store, q, keys), made)
    ensures p.Valid() && (ok ==> p.Query() == AfterParent(store, q, keys))
    decreases p.Repr, 8
  {
    hide *;
    ParentCases(store, q, keys);
    ParentKeysAre(RowsOf(nodes));
    RanNothing(db, db.asked);
    var ids, nodeids := Bucket(nodes, ParentKey());
    PresentIsBucketed(ids, nodeids, nodes, ParentKey());
    if |ids| == 0 {
      NoParents(nodes);
      return true, {};
    }
    ok, made := AskParents(db, store, p, q, nodes, ids, nodeids);
  }

  method QueryChildren(db: Database, store: Store, c: AccountQueryBuilder, q: AccountQuery, nodes: seq<Account>,
                       ids: set<int>)
    returns (ok: bool, ghost made: set<Account>)
    requires ValidStore(store) && DistinctNodes(nodes) && DistinctIDs(nodes) && ids == IDs(RowsOf(nodes))
    requires c.Valid() && q == c.Query()
    modifies db`asked, nodes`children, c.Repr`own
    ensures var all := ChildrenQuery(q, ids);
      Ran(db, ok, Sound(store, all), old(db.asked), db.asked, Queries(store, all))
    ensures ok ==> fresh(made) && Linked(made)
    ensures ok ==> ChildrenPlaced(nodes, All(store, ChildrenQuery(q, ids)), made)
    ensures c.Valid() && (ok ==> c.Query() == AfterRun(store, ChildrenQuery(q, ids)))
    decreases c.Repr, 7
  {
    hide *;
    KeyedQuery(q, ids);
    EdgesApart(c);
    c.AppendFieldOnce(ParentAccountID);
    c.Where(ParentIn(ids));
    var kids;
    ok, kids, made := RunAll(db, store, c);
    if ok {
      HandOutChildren(store, q, nodes, kids, made);
    }
  }

  function GroupPart(store: Store, q: AccountQuery, rows: seq<AccountRow>): seq<JoinRow> {
    if q.withGroups.Some? then GroupRows(store, q.withGroups.value, IDs(rows)) else []
  }

  function ProxyPart(store: Store, q: AccountQuery, rows: seq<AccountRow>): seq<TargetRow> {
    if q.withProxy.Some? then ProxyRows(store, q.withProxy.value, ProxyKeys(rows)) else []
  }

  function ParentTreePart(store: Store, q: AccountQuery, rows: seq<AccountRow>): seq<AccountTree> {
    if q.withParent.Some? then ParentTrees(store, q.withParent.value, ParentKeys(rows)) else []
  }

  function ChildTreePart(store: Store, q: AccountQuery, rows: seq<AccountRow>): seq<AccountTree> {
    if q.withChildren.Some? then All(store, ChildrenQuery(q.withChildren.value, IDs(rows))) else []
  }

  function LogPart(store: Store, q: AccountQuery, rows: seq<AccountRow>): seq<OwnedRow> {
    if q.withUsageLogs.Some? then OwnedRows(store.usageLogs, q.withUsageLogs.value, true, IDs(rows)) else []
  }

  function LinkPart(store: Store, q: AccountQuery, rows: seq<AccountRow>): seq<OwnedRow> {
    if q.withAccountGroups.Some? then OwnedRows(store.accountGroups, q.withAccountGroups.value, false, IDs(rows))
    else []
  }

  ghost predicate GroupsPlaced(nodes: seq<Account>, rows: seq<JoinRow>)
    reads nodes`groups
  {
    forall a :: a in nodes ==> Map(a.groups, TargetRowOf()) == GroupsFor(rows, a.row.id)
  }

  ghost predicate LogsPlaced(nodes: seq<Account>, rows: seq<OwnedRow>)
    reads nodes`usageLogs
  {
    forall a :: a in nodes ==> Map(a.usageLogs, OwnedRowOf()) == Filter(rows, OwnedBy(a.row.id))
  }

  ghost predicate LinksPlaced(nodes: seq<Account>, rows: seq<OwnedRow>)
    reads nodes`accountGroups
  {
    forall a :: a in nodes ==> Map(a.accountGroups, OwnedRowOf()) == Filter(rows, OwnedBy(a.row.id))
  }

  /** e holds what the edge queries for these rows return. */
  ghost predicate Parts(store: Store, q: AccountQuery, rows: seq<AccountRow>, e: Edges) {
    && e.groups == GroupPart(store, q, rows) && e.proxies == ProxyPart(store, q, rows)
    && e.parents == ParentTreePart(store, q, rows) && e.children == ChildTreePart(store, q, rows)
    && e.usageLogs == LogPart(store, q, rows) && e.accountGroups == LinkPart(store, q, rows)
  }

  lemma SideParts(store: Store, q: AccountQuery, rows: seq<AccountRow>)
    ensures EdgesOf(store, q, rows).groups == GroupPart(store, q, rows)
    ensures EdgesOf(store, q, rows).proxies == ProxyPart(store, q, rows)
    ensures EdgesOf(store, q, rows).usageLogs == LogPart(store, q, rows)
    ensures EdgesOf(store, q, rows).accountGroups == LinkPart(store, q, rows)
  {
  }

  lemma FamilyParts(store: Store, q: AccountQuery, rows: seq<AccountRow>)
    ensures EdgesOf(store, q, rows).parents == ParentTreePart(store, q, rows)
    ensures EdgesOf(store, q, rows).children == ChildTreePart(store, q, rows)
  {
    hide All, EdgesOf;
    ParentEdges(store, q, rows);
    ChildEdges(store, q, rows);
  }

  lemma EdgesParts(store: Store, q: AccountQuery, rows: seq<AccountRow>)
    ensures Parts(store, q, rows, EdgesOf(store, q, rows))
  {
    SideParts(store, q, rows);
    FamilyParts(store, q, rows);
  }

  /** Groups, proxy, parent and children of every node: its share where requested, otherwise nothing. */
  ghost predicate FirstPlaced(q: AccountQuery, nodes: seq<Account>, e: Edges, above: set<Account>, below: set<Account>)
    reads nodes`groups, nodes`proxy, nodes`parent, nodes`children, above`tree, below`tree
  {
    && (q.withGroups.Some? ==> GroupsPlaced(nodes, e.groups))
    && (q.withProxy.Some? ==> ProxiesPlaced(nodes, e.proxies))
    && (q.withProxy.None? ==> forall a :: a in nodes ==> a.proxy == null)
    && (q.withParent.Some? ==> ParentsPlaced(nodes, e.parents, above))
    && (q.withParent.None? ==> forall a :: a in nodes ==> a.parent == null)
    && (q.withChildren.Some? ==> ChildrenPlaced(nodes, e.children, below))
    && (q.withChildren.None? ==> forall a :: a in nodes ==> a.children == [])
  }

  ghost predicate OwnedPlaced(q: AccountQuery, nodes: seq<Account>, e: Edges)
    reads nodes`usageLogs, nodes`accountGroups
  {
    && (q.withUsageLogs.Some? ==> LogsPlaced(nodes, e.usageLogs))
    && (q.withAccountGroups.Some? ==> LinksPlaced(nodes, e.accountGroups))
  }

  method QuerySides(db: Database, store: Store, b: AccountQueryBuilder, q: AccountQuery, nodes: seq<Account>,
                    rows: seq<AccountRow>)
    returns (ok: bool)
    requires DistinctNodes(nodes) && DistinctIDs(nodes) && rows == RowsOf(nodes)
    requires b.own.withGroups == q.withGroups && b.own.withProxy == q.withProxy
    requires forall a :: a in nodes ==> a.proxy == null
    modifies db`asked, nodes`groups, nodes`proxy, b`own
    ensures Ran(db, ok, SidesSound(store, q, rows), old(db.asked), db.asked, SideQueries(q, ProxyKeys(rows)))
    ensures ok && q.withGroups.Some? ==> GroupsPlaced(nodes, GroupPart(store, q, rows))
    ensures ok && q.withProxy.Some? ==> ProxiesPlaced(nodes, ProxyPart(store, q, rows))
    ensures q.withProxy.None? ==> forall a :: a in nodes ==> a.proxy == null
    ensures ok ==> b.own == AfterProxies(AfterGroups(old(b.own), rows), rows)
    ensures SameTop(b.own, old(b.own))
  {
    hide GroupsSound, KeptJoin, KeptTargets, GroupRows, ProxyRows, Ran, IDs, Present;
    ghost var sound := SidesSound(store, q, rows);
    ghost var n, m := One(q.withGroups.Some?), One(q.withProxy.Some? && ProxyKeys(rows) != {});
    ghost var start := db.asked;
    ok := true;
    RanNothing(db, start);
    if q.withGroups.Some? {
      b.own := b.own.(withGroups := Some(KeptJoin(q.withGroups.value, IDs(rows))));
      ok := QueryGroups(db, store, q.withGroups.value, nodes);
      if !ok {
        RanFailed(db, start, db.asked, sound, n, true, m);
        return false;
      }
    }
    ghost var mid := db.asked;
    RanNothing(db, mid);
    if q.withProxy.Some? {
      b.own := b.own.(withProxy := Some(KeptTargets(q.withProxy.value, ProxyKeys(rows))));
      ok := QueryProxies(db, store, q.withProxy.value, nodes, ProxyKeys(rows));
    }
    RanThen(db, start, mid, db.asked, sound, n, ok, true, m);
  }

  method QueryOwned(db: Database, store: Store, b: AccountQueryBuilder, q: AccountQuery, nodes: seq<Account>,
                    rows: seq<AccountRow>, ghost e: Edges)
    returns (ok: bool)
    requires DistinctNodes(nodes) && DistinctIDs(nodes) && rows == RowsOf(nodes)
    requires e.usageLogs == LogPart(store, q, rows) && e.accountGroups == LinkPart(store, q, rows)
    requires b.own.withUsageLogs == q.withUsageLogs && b.own.withAccountGroups == q.withAccountGroups
    modifies db`asked, nodes`usageLogs, nodes`accountGroups, b`own
    ensures Ran(db, ok, true, old(db.asked), db.asked, OwnedQueries(q))
    ensures ok ==> OwnedPlaced(q, nodes, e)
    ensures ok ==> b.own == AfterLinks(AfterUsageLogs(old(b.own), rows), rows)
    ensures SameTop(b.own, old(b.own))
  {
    hide KeptOwned, Ran, OwnedRows, IDs;
    ghost var n, m := One(q.withUsageLogs.Some?), One(q.withAccountGroups.Some?);
    ghost var start := db.asked;
    ok := true;
    RanNothing(db, start);
    if q.withUsageLogs.Some? {
      b.own := b.own.(withUsageLogs := Some(KeptOwned(q.withUsageLogs.value, IDs(rows))));
      ok := QueryLogs(db, store, q.withUsageLogs.value, nodes);
      if !ok {
        RanFailed(db, start, db.asked, true, n, true, m);
        return false;
      }
    }
    ghost var mid := db.asked;
    RanNothing(db, mid);
    if q.withAccountGroups.Some? {
      b.own := b.own.(withAccountGroups := Some(KeptOwned(q.withAccountGroups.value, IDs(rows))));
      ok := QueryLinks(db, store, q.withAccountGroups.value, nodes);
    }
    RanThen(db, start, mid, db.asked, true, n, ok, true, m);
  }

  lemma ParentEdgeCases(store: Store, q: AccountQuery, rows: seq<AccountRow>)
    ensures q.withParent.None? ==>
      ParentPart(store, q, rows) && ParentCount(store, q, rows) == 0 && ParentLeft(store, q, rows).None?
    ensures q.withParent.Some? ==>
      var p, keys := q.withParent.value, ParentKeys(rows);
      && ParentPart(store, q, rows) == ParentSound(store, p, keys)
      && ParentCount(store, q, rows) == ParentQueries(store, p, keys)
      && ParentTreePart(store, q, rows) == ParentTrees(store, p, keys)
      && ParentLeft(store, q, rows) == Some(AfterParent(store, p, keys))
  {
  }

  lemma ChildrenCases(store: Store, q: AccountQuery, rows: seq<AccountRow>)
    ensures q.withChildren.None? ==>
      ChildrenPart(store, q, rows) && ChildrenCount(store, q, rows) == 0 && ChildrenLeft(store, q, rows).None?
    ensures q.withChildren.Some? ==>
      var all := ChildrenQuery(q.withChildren.value, IDs(rows));
      && ChildrenPart(store, q, rows) == Sound(store, all) && ChildrenCount(store, q, rows) == Queries(store, all)
      && ChildTreePart(store, q, rows) == All(store, all)
      && ChildrenLeft(store, q, rows) == Some(AfterRun(store, all))
  {
    hide ChildrenQuery, IDs;
  }

  lemma LinkedNothing()
    ensures Linked({})
  {
  }

  method FamilyAbove(db: Database, store: Store, b: AccountQueryBuilder, q: AccountQuery, nodes: seq<Account>,
                     rows: seq<AccountRow>)
    returns (ok: bool, ghost above: set<Account>)
    requires ValidStore(store) && rows == RowsOf(nodes) && b.Valid() && Builds(b.parent, q.withParent)
    requires forall a :: a in nodes ==> a.parent == null
    modifies db`asked, nodes`parent, Reach(b.parent)`own
    ensures Ran(db, ok, ParentPart(store, q, rows), old(db.asked), db.asked, ParentCount(store, q, rows))
    ensures ok ==> fresh(above) && Linked(above)
    ensures ok && q.withParent.Some? ==> ParentsPlaced(nodes, ParentTreePart(store, q, rows), above)
    ensures q.withParent.None? ==> forall a :: a in nodes ==> a.parent == null
    ensures ok ==> Builds(b.parent, ParentLeft(store, q, rows))
    decreases b.Repr, 0, 0
  {
    hide ParentPart, ParentCount, ParentTreePart, ParentLeft, ParentSound, AfterParent, ParentQueries, ParentTrees, Ran,
      ValidStore, Linked, ParentsPlaced;
    ParentEdgeCases(store, q, rows);
    LinkedNothing();
    RanNothing(db, db.asked);
    if b.parent == null {
      return true, {};
    }
    ok, above := QueryParents(db, store, b.parent, q.withParent.value, nodes, ParentKeys(rows));
  }

  method FamilyBelow(db: Database, store: Store, b: AccountQueryBuilder, q: AccountQuery, nodes: seq<Account>,
                     rows: seq<AccountRow>)
    returns (ok: bool, ghost below: set<Account>)
    requires ValidStore(store) && DistinctNodes(nodes) && DistinctIDs(nodes) && rows == RowsOf(nodes)
    requires b.Valid() && Builds(b.children, q.withChildren)
    requires forall a :: a in nodes ==> a.children == []
    modifies db`asked, nodes`children, Reach(b.children)`own
    ensures Ran(db, ok, ChildrenPart(store, q, rows), old(db.asked), db.asked, ChildrenCount(store, q, rows))
    ensures ok ==> fresh(below) && Linked(below)
    ensures ok && q.withChildren.Some? ==> ChildrenPlaced(nodes, ChildTreePart(store, q, rows), below)
    ensures q.withChildren.None? ==> forall a :: a in nodes ==> a.children == []
    ensures ok ==> Builds(b.children, ChildrenLeft(store, q, rows))
    decreases b.Repr, 0, 0
  {
    hide ChildrenPart, ChildrenCount, ChildTreePart, ChildrenLeft, Sound, AfterRun, Queries, All, Ran, ValidStore,
      Linked, ChildrenPlaced, ChildrenQuery;
    ChildrenCases(store, q, rows);
    LinkedNothing();
    RanNothing(db, db.asked);
    if b.children == null {
      return true, {};
    }
    ok, below := QueryChildren(db, store, b.children, q.withChildren.value, nodes, IDs(rows));
  }

  method QueryFamily(db: Database, store: Store, b: AccountQueryBuilder, q: AccountQuery, nodes: seq<Account>,
                     rows: seq<AccountRow>)
    returns (ok: bool, ghost above: set<Account>, ghost below: set<Account>)
    requires ValidStore(store) && DistinctNodes(nodes) && DistinctIDs(nodes) && rows == RowsOf(nodes)
    requires b.Valid() && Builds(b.parent, q.withParent) && Builds(b.children, q.withChildren)
    requires forall a :: a in nodes ==> a.parent == null && a.children == []
    modifies db`asked, nodes`parent, nodes`children, Reach(b.parent)`own, Reach(b.children)`own
    ensures Ran(db, ok, FamilySound(store, q, rows), old(db.asked), db.asked, FamilyQueries(store, q, rows))
    ensures ok ==> fresh(above) && fresh(below) && Linked(above) && Linked(below)
    ensures ok && q.withParent.Some? ==> ParentsPlaced(nodes, ParentTreePart(store, q, rows), above)
    ensures ok && q.withChildren.Some? ==> ChildrenPlaced(nodes, ChildTreePart(store, q, rows), below)
    ensures q.withChildren.None? ==> forall a :: a in nodes ==> a.children == []
    ensures q.withParent.None? ==> forall a :: a in nodes ==> a.parent == null
    ensures ok ==> Builds(b.parent, ParentLeft(store, q, rows)) && Builds(b.children, ChildrenLeft(store, q, rows))
    decreases b.Repr, 0
  {
    hide Ran, ParentPart, ChildrenPart, ParentCount, ChildrenCount, ParentTreePart, ChildTreePart, ParentLeft,
      ChildrenLeft, Linked;
    ghost var s1, s2 := ParentPart(store, q, rows), ChildrenPart(store, q, rows);
    ghost var n, m := ParentCount(store, q, rows), ChildrenCount(store, q, rows);
    ghost var start := db.asked;
    below := {};
    ok, above := FamilyAbove(db, store, b, q, nodes, rows);
    if !ok {
      RanFailed(db, start, db.asked, s1, n, s2, m);
      return false, above, below;
    }
    ghost var mid := db.asked;
    label Parents:
    ok, below := FamilyBelow(db, store, b, q, nodes, rows);
    LinkedKept@Parents(above);
    RanThen(db, start, mid, db.asked, s1, n, ok, s2, m);
  }

  lemma PartsOwned(store: Store, q: AccountQuery, rows: seq<AccountRow>, e: Edges)
    requires Parts(store, q, rows, e)
    ensures e.usageLogs == LogPart(store, q, rows) && e.accountGroups == LinkPart(store, q, rows)
  {
    hide LogPart, LinkPart, GroupPart, ProxyPart, ParentTreePart, ChildTreePart;
  }

  lemma FirstComplete(store: Store, q: AccountQuery, rows: seq<AccountRow>, e: Edges, nodes: seq<Account>,
                      above: set<Account>, below: set<Account>)
    requires Parts(store, q, rows, e)
    requires q.withGroups.Some? ==> GroupsPlaced(nodes, GroupPart(store, q, rows))
    requires q.withProxy.Some? ==> ProxiesPlaced(nodes, ProxyPart(store, q, rows))
    requires q.withProxy.None? ==> forall a :: a in nodes ==> a.proxy == null
    requires q.withParent.Some? ==> ParentsPlaced(nodes, ParentTreePart(store, q, rows), above)
    requires q.withParent.None? ==> forall a :: a in nodes ==> a.parent == null
    requires q.withChildren.Some? ==> ChildrenPlaced(nodes, ChildTreePart(store, q, rows), below)
    requires q.withChildren.None? ==> forall a :: a in nodes ==> a.children == []
    ensures FirstPlaced(q, nodes, e, above, below)
  {
    hide LogPart, LinkPart, GroupPart, ProxyPart, ParentTreePart, ChildTreePart, GroupsPlaced, ProxiesPlaced,
      ParentsPlaced, ChildrenPlaced;
  }

  method QueryFirst(db: Database, store: Store, b: AccountQueryBuilder, q: AccountQuery, nodes: seq<Account>,
                    rows: seq<AccountRow>, ghost e: Edges)
    returns (ok: bool, ghost above: set<Account>, ghost below: set<Account>)
    requires ValidStore(store) && DistinctNodes(nodes) && DistinctIDs(nodes) && rows == RowsOf(nodes)
    requires b.Valid() && b.own.withGroups == q.withGroups && b.own.withProxy == q.withProxy
    requires Builds(b.parent, q.withParent) && Builds(b.children, q.withChildren)
    requires forall a :: a in nodes ==> a.proxy == null && a.parent == null && a.children == []
    requires Parts(store, q, rows, e)
    modifies db`asked, nodes`groups, nodes`proxy, nodes`parent
    modifies nodes`children, b.Repr`own
    ensures Ran(db, ok, SidesSound(store, q, rows) && FamilySound(store, q, rows), old(db.asked), db.asked,
                SideQueries(q, ProxyKeys(rows)) + FamilyQueries(store, q, rows))
    ensures ok ==> fresh(above) && fresh(below) && Linked(above) && Linked(below)
    ensures ok ==> FirstPlaced(q, nodes, e, above, below)
    ensures ok ==> b.own == AfterProxies(AfterGroups(old(b.own), rows), rows)
    ensures ok ==> Builds(b.parent, ParentLeft(store, q, rows)) && Builds(b.children, ChildrenLeft(store, q, rows))
    ensures SameTop(b.own, old(b.own))
    decreases b.Repr, 1
  {
    hide *;
    ghost var s1, s2 := SidesSound(store, q, rows), FamilySound(store, q, rows);
    ghost var n, m := SideQueries(q, ProxyKeys(rows)), FamilyQueries(store, q, rows);
    ghost var start := db.asked;
    above, below := {}, {};
    EdgesApart(b);
    ghost var own := b.own;
    ok := QuerySides(db, store, b, q, nodes, rows);
    if !ok {
      RanFailed(db, start, db.asked, s1, n, s2, m);
      return false, above, below;
    }
    ghost var mid := db.asked;
    ok, above, below := QueryFamily(db, store, b, q, nodes, rows);
    RanThen(db, start, mid, db.asked, s1, n, ok, s2, m);
    if ok {
      FirstComplete(store, q, rows, e, nodes, above, below);
    }
  }

  lemma EdgesApart(b: AccountQueryBuilder)
    requires b.Valid()
    ensures b in b.Repr && b !in Reach(b.parent) && b !in Reach(b.children) && b.parent != b && b.children != b
    ensures Reach(b.parent) <= b.Repr && Reach(b.children) <= b.Repr
  {
  }

  /** All requested edges of all nodes, in the order groups, proxy, parent, children, usage logs, links. */
  method QueryEdges(db: Database, store: Store, b: AccountQueryBuilder, q: AccountQuery, nodes: seq<Account>,
                    rows: seq<AccountRow>, ghost e: Edges)
    returns (ok: bool, ghost above: set<Account>, ghost below: set<Account>)
    requires ValidStore(store) && DistinctNodes(nodes) && DistinctIDs(nodes) && rows == RowsOf(nodes)
    requires b.Valid() && q == b.Query()
    requires forall a :: a in nodes ==> a.proxy == null && a.parent == null && a.children == []
    requires Parts(store, q, rows, e)
    modifies db`asked, nodes`groups, nodes`proxy, nodes`parent
    modifies nodes`children, nodes`usageLogs, nodes`accountGroups, b.Repr`own
    ensures Ran(db, ok, SidesSound(store, q, rows) && FamilySound(store, q, rows), old(db.asked), db.asked,
                SideQueries(q, ProxyKeys(rows)) + FamilyQueries(store, q, rows) + OwnedQueries(q))
    ensures ok ==> fresh(above) && fresh(below) && Linked(above) && Linked(below)
    ensures ok ==> FirstPlaced(q, nodes, e, above, below) && OwnedPlaced(q, nodes, e)
    ensures ok ==> b.Valid() && b.Query() == AfterLoads(store, q, rows)
    ensures SameTop(b.own, old(b.own))
    decreases b.Repr, 2
  {
    hide *;
    PartsOwned(store, q, rows, e);
    ghost var sound := SidesSound(store, q, rows) && FamilySound(store, q, rows);
    ghost var n, m := SideQueries(q, ProxyKeys(rows)) + FamilyQueries(store, q, rows), OwnedQueries(q);
    ghost var start := db.asked;
    QueryParts(b);
    EdgesApart(b);
    ghost var own := b.own;
    SidesStay(own, rows);
    ok, above, below := QueryFirst(db, store, b, q, nodes, rows, e);
    if !ok {
      RanFailed(db, start, db.asked, sound, n, true, m);
      return false, above, below;
    }
    ghost var mid, half := db.asked, b.own;
    label First:
    ok := QueryOwned(db, store, b, q, nodes, rows, e);
    SameTopThen(b.own, half, own);
    LinkedKept@First(above);
    LinkedKept@First(below);
    RanThen(db, start, mid, db.asked, sound, n, ok, true, m);
    if ok {
      QueryFrom(b, ParentLeft(store, q, rows), ChildrenLeft(store, q, rows));
      LoadsOf(store, own, q, rows);
    }
  }

  lemma QueryParts(b: AccountQueryBuilder)
    requires b.Valid()
    ensures Builds(b.parent, b.Query().withParent) && Builds(b.children, b.Query().withChildren)
    ensures b.Query() == b.own.(withParent := b.Query().withParent, withChildren := b.Query().withChildren)
  {
  }

  lemma SidesStay(own: AccountQuery, rows: seq<AccountRow>)
    ensures var x := AfterProxies(AfterGroups(own, rows), rows);
      x.withUsageLogs == own.withUsageLogs && x.withAccountGroups == own.withAccountGroups
  {
    hide KeptJoin, KeptTargets;
  }

  lemma QueryFrom(b: AccountQueryBuilder, above: Option<AccountQuery>, below: Option<AccountQuery>)
    requires b.Valid() && Builds(b.parent, above) && Builds(b.children, below)
    ensures b.Query() == b.own.(withParent := above, withChildren := below)
  {
  }

  lemma LoadsOf(store: Store, own: AccountQuery, q: AccountQuery, rows: seq<AccountRow>)
    requires q == own.(withParent := q.withParent, withChildren := q.withChildren)
    ensures AfterLoads(store, q, rows)
            == AfterLinks(AfterUsageLogs(AfterProxies(AfterGroups(own, rows), rows), rows), rows).(
                 withParent := ParentLeft(store, q, rows), withChildren := ChildrenLeft(store, q, rows))
  {
    hide KeptJoin, KeptTargets, KeptOwned, IDs, ProxyKeys, ParentLeft, ChildrenLeft;
  }

  /** Gives every node the graph that its edges make up. */
  ghost method PlantTrees(nodes: seq<Account>, q: AccountQuery, e: Edges)
    modifies nodes`tree
    ensures forall a :: a in nodes ==> a.tree == Attach(q, a.row, e)
  {
    forall a | a in nodes {
      a.tree := Attach(q, a.row, e);
    }
  }

  lemma NodeReflects(q: AccountQuery, nodes: seq<Account>, e: Edges, above: set<Account>, below: set<Account>,
                     a: Account)
    requires FirstPlaced(q, nodes, e, above, below) && OwnedPlaced(q, nodes, e)
    requires a in nodes && a.loaded == Requested(q) && a.tree == Attach(q, a.row, e)
    ensures Reflects(a)
  {
  }

  function Together(nodes: seq<Account>, above: set<Account>, below: set<Account>): set<Account> {
    (set a | a in nodes) + (above + below)
  }

  lemma LinkAll(nodes: seq<Account>, others: set<Account>)
    requires Linked(others) && forall a :: a in nodes ==> Reflects(a)
    requires forall a :: a in nodes ==> a.parent != null ==> a.parent in others
    requires forall a :: a in nodes ==> forall c :: c in a.children ==> c in others
    ensures Linked((set a | a in nodes) + others)
  {
  }

  lemma EdgesInside(q: AccountQuery, nodes: seq<Account>, e: Edges, above: set<Account>, below: set<Account>,
                    a: Account)
    requires FirstPlaced(q, nodes, e, above, below) && a in nodes
    ensures a.parent != null ==> a.parent in above
    ensures forall c :: c in a.children ==> c in below
  {
  }

  lemma LinkedUnion(a: set<Account>, b: set<Account>)
    requires Linked(a) && Linked(b)
    ensures Linked(a + b)
  {
  }

  lemma AllAttached(store: Store, q: AccountQuery, nodes: seq<Account>)
    requires RowsOf(nodes) == Nodes(store, q) && nodes != []
    requires forall a :: a in nodes ==> a.tree == Attach(q, a.row, EdgesOf(store, q, RowsOf(nodes)))
    ensures TreesOf(nodes) == All(store, q)
  {
    var rows := RowsOf(nodes);
    var e := EdgesOf(store, q, rows);
    assert All(store, q) == Map(rows, Attacher(q, e));
    forall i | 0 <= i < |nodes|
      ensures TreesOf(nodes)[i] == All(store, q)[i]
    {
      assert nodes[i] in nodes;
    }
  }

  lemma NodesLinked(q: AccountQuery, nodes: seq<Account>, e: Edges, above: set<Account>, below: set<Account>)
    requires FirstPlaced(q, nodes, e, above, below) && OwnedPlaced(q, nodes, e)
    requires forall a :: a in nodes ==> a.loaded == Requested(q) && a.tree == Attach(q, a.row, e)
    requires Linked(above) && Linked(below)
    ensures Linked(Together(nodes, above, below))
  {
    forall a | a in nodes
      ensures Reflects(a)
    {
      NodeReflects(q, nodes, e, above, below, a);
    }
    forall a | a in nodes
      ensures a.parent != null ==> a.parent in above + below
      ensures forall c :: c in a.children ==> c in above + below
    {
      EdgesInside(q, nodes, e, above, below, a);
    }
    LinkedUnion(above, below);
    LinkAll(nodes, above + below);
  }

  /** Loads the edges of the nodes of a query, and completes their graphs. */
  method LoadEdges(db: Database, store: Store, b: AccountQueryBuilder, q: AccountQuery, nodes: seq<Account>,
                   rows: seq<AccountRow>, ghost e: Edges)
    returns (ok: bool, ghost above: set<Account>, ghost below: set<Account>)
    requires ValidStore(store) && DistinctNodes(nodes) && DistinctIDs(nodes) && rows == RowsOf(nodes)
    requires b.Valid() && q == b.Query()
    requires forall a :: a in nodes ==> Blank(a, a.row, Requested(q))
    requires Parts(store, q, rows, e)
    modifies db`asked, nodes, b.Repr`own
    ensures Ran(db, ok, SidesSound(store, q, rows) && FamilySound(store, q, rows), old(db.asked), db.asked,
                SideQueries(q, ProxyKeys(rows)) + FamilyQueries(store, q, rows) + OwnedQueries(q))
    ensures ok ==> fresh(above) && fresh(below)
    ensures ok ==> Linked(Together(nodes, above, below))
    ensures ok ==> forall a :: a in nodes ==> a.tree == Attach(q, a.row, e)
    ensures ok ==> b.Valid() && b.Query() == AfterLoads(store, q, rows)
    ensures SameTop(b.own, old(b.own))
    decreases b.Repr, 3
  {
    hide Ran, SideQueries, FamilyQueries, OwnedQueries, SidesSound, FamilySound, Parts, FirstPlaced, OwnedPlaced,
      Attach, AfterLoads, Linked, Reflects;
    ok, above, below := QueryEdges(db, store, b, q, nodes, rows, e);
    if !ok {
      return false, above, below;
    }
    label Queried:
    PlantTrees(nodes, q, e);
    LinkedKept@Queried(above);
    LinkedKept@Queried(below);
    NodesLinked(q, nodes, e, above, below);
  }

  lemma WholeResult(store: Store, q: AccountQuery, nodes: seq<Account>, made: set<Account>)
    requires RowsOf(nodes) == Nodes(store, q) && nodes != [] && DistinctNodes(nodes) && Linked(made)
    requires forall a :: a in nodes ==> a.tree == Attach(q, a.row, EdgesOf(store, q, RowsOf(nodes)))
    requires forall a :: a in nodes ==> a in made && a.loaded == Requested(q)
    ensures IsLoaded(store, q, nodes, made)
  {
    AllAttached(store, q, nodes);
  }

  lemma QueriesSplit(store: Store, q: AccountQuery)
    requires Nodes(store, q) != []
    ensures var rows := Nodes(store, q);
      && Queries(store, q) == 1 + (SideQueries(q, ProxyKeys(rows)) + FamilyQueries(store, q, rows) + OwnedQueries(q))
      && EdgesSound(store, q) == (SidesSound(store, q, rows) && FamilySound(store, q, rows))
      && AfterRun(store, q) == AfterLoads(store, q, rows)
  {
  }

  method Complete(db: Database, store: Store, b: AccountQueryBuilder, q: AccountQuery, nodes: seq<Account>)
    returns (ok: bool, ghost above: set<Account>, ghost below: set<Account>)
    requires ValidStore(store) && RowsOf(nodes) == Nodes(store, q) && nodes != [] && DistinctNodes(nodes)
    requires b.Valid() && q == b.Query()
    requires forall a :: a in nodes ==> Blank(a, a.row, Requested(q))
    modifies db`asked, nodes, b.Repr`own
    ensures Ran(db, ok, EdgesSound(store, q), old(db.asked), db.asked, Queries(store, q) - 1)
    ensures ok ==> fresh(above) && fresh(below)
    ensures ok ==> IsLoaded(store, q, nodes, Together(nodes, above, below))
    ensures ok ==> b.Valid() && b.Query() == AfterRun(store, q)
    ensures SameTop(b.own, old(b.own))
    decreases b.Repr, 4
  {
    hide Ran, Queries, EdgesSound, SidesSound, FamilySound, SideQueries, FamilyQueries, OwnedQueries, All, EdgesOf,
      IsLoaded, Parts, Nodes, AfterRun, AfterLoads;
    NodesDistinct(store, q, nodes);
    var rows := RowsOf(nodes);
    ghost var e := EdgesOf(store, q, rows);
    EdgesParts(store, q, rows);
    QueriesSplit(store, q);
    ok, above, below := LoadEdges(db, store, b, q, nodes, rows, e);
    if ok {
      WholeResult(store, q, nodes, Together(nodes, above, below));
    }
  }

  twostate lemma FreshTogether(new nodes: seq<Account>, new above: set<Account>, new below: set<Account>)
    requires fresh(nodes) && fresh(above) && fresh(below)
    ensures fresh(Together(nodes, above, below))
  {
  }

  lemma EmptyResult(store: Store, q: AccountQuery, nodes: seq<Account>)
    requires Nodes(store, q) == [] && nodes == []
    ensures IsLoaded(store, q, nodes, {})
  {
    hide Nodes, EdgesOf, Attacher, Requested, Reflects;
    assert All(store, q) == [] && TreesOf(nodes) == [];
  }

  lemma NothingToQuery(store: Store, q: AccountQuery)
    requires Nodes(store, q) == []
    ensures Queries(store, q) == 1 && EdgesSound(store, q) && AfterRun(store, q) == q
  {
  }

  lemma RowsOfLoaded(store: Store, q: AccountQuery, nodes: seq<Account>, made: set<Account>)
    requires IsLoaded(store, q, nodes, made)
    ensures RowsOf(nodes) == Nodes(store, q)
  {
    assert |TreesOf(nodes)| == |nodes|;
    forall i | 0 <= i < |nodes|
      ensures RowsOf(nodes)[i] == Nodes(store, q)[i]
    {
      LoadedTree(store, q, nodes, made, i);
      TreeRow(store, q, i);
    }
  }

  /** The accounts are the stored ones that the filters let pass, up to the limit, seen through the columns selected;
      and whatever their graphs hold is stored, and is where it belongs. */
  ghost predicate FromStore(store: Store, q: AccountQuery, nodes: seq<Account>)
    reads nodes`tree
  {
    Shows(store, q, RowsOf(nodes)) && AllStored(store, q, TreesOf(nodes))
  }

  lemma LoadedFromStore(store: Store, q: AccountQuery, nodes: seq<Account>, made: set<Account>)
    requires IsLoaded(store, q, nodes, made)
    ensures FromStore(store, q, nodes)
  {
    hide Nodes, All, Shows, AllStored;
    RowsOfLoaded(store, q, nodes, made);
    NodesShown(store, q);
    GraphsAreStored(store, q);
  }

  /** Runs a builder's query and its eager loads. It succeeds unless the database refuses a query, a selected field is
      no column, or groups were joined before. Then the result is the batched one, on objects of its own, and the
      builder and those of its edges are left with the filters that the loads have added. */
  method RunAll(db: Database, store: Store, b: AccountQueryBuilder)
    returns (ok: bool, nodes: seq<Account>, ghost made: set<Account>)
    requires ValidStore(store) && b.Valid()
    modifies db`asked, b.Repr`own
    ensures Ran(db, ok, Sound(store, old(b.Query())), old(db.asked), db.asked, Queries(store, old(b.Query())))
    ensures ok ==> fresh(made) && IsLoaded(store, old(b.Query()), nodes, made)
    ensures ok ==> FromStore(store, old(b.Query()), nodes)
    ensures b.Valid() && (ok ==> b.Query() == AfterRun(store, old(b.Query())))
    ensures SameTop(b.own, old(b.own))
    decreases b.Repr, 6
  {
    hide Ran, IsLoaded, AfterRun, EdgesSound, Queries, FromStore;
    var q := b.Query();
    if exists c :: c in q.fields && c.Other? {
      RanRefused(db, db.asked, Queries(store, q));
      return false, [], {};
    }
    ok, nodes, made := SqlAll(db, store, b);
    if ok {
      LoadedFromStore(store, q, nodes, made);
    }
  }

  method SqlAll(db: Database, store: Store, b: AccountQueryBuilder)
    returns (ok: bool, nodes: seq<Account>, ghost made: set<Account>)
    requires ValidStore(store) && b.Valid()
    modifies db`asked, b.Repr`own
    ensures Ran(db, ok, EdgesSound(store, old(b.Query())), old(db.asked), db.asked, Queries(store, old(b.Query())))
    ensures ok ==> fresh(made) && IsLoaded(store, old(b.Query()), nodes, made)
    ensures b.Valid() && (ok ==> b.Query() == AfterRun(store, old(b.Query())))
    ensures SameTop(b.own, old(b.own))
    decreases b.Repr, 5
  {
    hide Ran, EdgesSound, Queries, AfterRun, IsLoaded, SelectRows, Decode, Requested, All;
    var q := b.Query();
    QueriesBounded(store, q);
    ghost var sound, n := EdgesSound(store, q), Queries(store, q) - 1;
    ghost var start := db.asked;
    RanOne(db, start);
    made := {};
    var answer := db.Ask(SelectRows(store.accounts, q));
    if answer.None? {
      RanFailed(db, start, db.asked, true, 1, sound, n);
      return false, [], made;
    }
    nodes := MakeNodes(answer.value, Decode(q), Requested(q));
    if |nodes| == 0 {
      EmptyResult(store, q, nodes);
      NothingToQuery(store, q);
      return true, nodes, made;
    }
    ghost var mid := db.asked;
    ghost var above, below;
    ok, above, below := Complete(db, store, b, q, nodes);
    RanThen(db, start, mid, db.asked, true, 1, ok, sound, n);
    if ok {
      FreshTogether(nodes, above, below);
      made := Together(nodes, above, below);
    }
  }
}
