/** Limits on edge queries, at every depth: when a batched run gives every account what limited queries of its own would
    (backend/ent/account_query.go). */
module EagerExact {
  import opened Common
  import opened AccountSchema
  import opened EagerSpec
  import opened EagerRefines
  import opened EagerTrees
  import opened EagerLimits
  import opened EagerGroupLimits

  // ---------------------------------------------------------------- one query per node and edge, limits kept

  function OwnGroups(store: Store, q: TargetQuery, account: int): seq<TargetRow> {
    GroupsFor(GroupRows(store, q, {account}), account)
  }

  function OwnProxy(store: Store, q: TargetQuery, key: Option<int>): Option<TargetRow> {
    if key.None? then None else TargetFor(ProxyRows(store, q, {key.value}), key)
  }

  function OwnRowsOf(table: seq<OwnedRow>, q: OwnedQuery, keyed: bool, account: int): seq<OwnedRow> {
    OwnedRows(table, q, keyed, {account})
  }

  function OwnParent(store: Store, p: AccountQuery, key: Option<int>): Option<AccountTree>
    decreases Depth(p), 1
  {
    if key.None? then None
    else
      match FirstOf(SelectRows(store.accounts, ParentQuery(p, {key.value})))
      case None => None
      case Some(r) => Some(Own(store, p, r))
  }

  function OwnChildren(store: Store, c: AccountQuery, account: int): seq<AccountTree>
    decreases Depth(c), 1
  {
    hide *;
    FieldDepth(c, ParentAccountID);
    var rows := SelectRows(store.accounts, ChildrenQuery(c, {account}));
    var child := AppendFieldOnce(c, ParentAccountID);
    seq(|rows|, i requires 0 <= i < |rows| => Own(store, child, rows[i]))
  }

  /** The account with every requested edge looked up by a query of its own, with the limits that the edges have. */
  function Own(store: Store, q: AccountQuery, r: AccountRow): AccountTree
    decreases Depth(q), 0
  {
    AccountTree(
      Decode(q)(r),
      if q.withGroups.Some? then Some(OwnGroups(store, q.withGroups.value, r.id)) else None,
      if q.withProxy.Some? then Some(OwnProxy(store, q.withProxy.value, r.proxyID)) else None,
      if q.withParent.Some? then Some(OwnParent(store, q.withParent.value, r.parentID)) else None,
      if q.withChildren.Some? then Some(OwnChildren(store, q.withChildren.value, r.id)) else None,
      if q.withUsageLogs.Some? then Some(OwnRowsOf(store.usageLogs, q.withUsageLogs.value, true, r.id)) else None,
      if q.withAccountGroups.Some? then Some(OwnRowsOf(store.accountGroups, q.withAccountGroups.value, false, r.id))
      else None)
  }

  function OwnFn(store: Store, q: AccountQuery): AccountRow -> AccountTree {
    (r: AccountRow) => Own(store, q, r)
  }

  // ---------------------------------------------------------------- the condition

  /** The limit cuts nothing off, or keeps nothing. */
  predicate Uncut(count: nat, limit: Option<nat>) {
    limit.Some? ==> limit.value == 0 || count <= limit.value
  }

  ghost predicate GroupsHarmless(store: Store, q: TargetQuery, ids: set<int>) {
    q.limit.Some? && q.joins == [] ==>
      Harmless(Join(KeptGroups(store, q), store.accountGroups, ids), JoinOwner(), q.limit.value)
  }

  ghost predicate OwnedHarmless(table: seq<OwnedRow>, q: OwnedQuery, ids: set<int>) {
    q.limit.Some? ==> Harmless(Filter(table, OwnedIn(q, ids)), Owner(), q.limit.value)
  }

  ghost predicate ProxiesHarmless(store: Store, q: TargetQuery, keys: set<int>) {
    Uncut(|Filter(store.proxies, WithID(q, keys))|, q.limit)
  }

  ghost predicate RowsHarmless(store: Store, c: AccountQuery, ids: set<int>) {
    c.limit.Some? ==> Harmless(Filter(store.accounts, Matching(ChildrenQuery(c, ids))), ParentKey(), c.limit.value)
  }

  ghost predicate TargetsHarmless(store: Store, p: AccountQuery, keys: set<int>) {
    Uncut(|Filter(store.accounts, Matching(ParentQuery(p, keys)))|, p.limit)
  }

  ghost predicate SidesHarmless(store: Store, q: AccountQuery, nodes: seq<AccountRow>) {
    && (q.withGroups.Some? ==> GroupsHarmless(store, q.withGroups.value, IDs(nodes)))
    && (q.withProxy.Some? ==> ProxiesHarmless(store, q.withProxy.value, ProxyKeys(nodes)))
    && (q.withUsageLogs.Some? ==> OwnedHarmless(store.usageLogs, q.withUsageLogs.value, IDs(nodes)))
    && (q.withAccountGroups.Some? ==> OwnedHarmless(store.accountGroups, q.withAccountGroups.value, IDs(nodes)))
  }

  /** The limit of every edge query that the run reaches is harmless for the nodes it is run for. */
  ghost predicate LimitsHarmless(store: Store, q: AccountQuery)
    decreases Depth(q), 0
  {
    var nodes := Nodes(store, q);
    nodes == [] ||
    (&& SidesHarmless(store, q, nodes)
     && (q.withParent.Some? ==> ParentsHarmless(store, q.withParent.value, ParentKeys(nodes)))
     && (q.withChildren.Some? ==> ChildrenHarmless(store, q.withChildren.value, IDs(nodes))))
  }

  ghost predicate ParentsHarmless(store: Store, p: AccountQuery, keys: set<int>)
    decreases Depth(p), 1
  {
    keys == {} ||
    (SubqueryDepth(p, keys); TargetsHarmless(store, p, keys) && LimitsHarmless(store, ParentQuery(p, keys)))
  }

  ghost predicate ChildrenHarmless(store: Store, c: AccountQuery, ids: set<int>)
    decreases Depth(c), 1
  {
    SubqueryDepth(c, ids);
    RowsHarmless(store, c, ids) && LimitsHarmless(store, ChildrenQuery(c, ids))
  }

  // ---------------------------------------------------------------- groups, owned rows, proxies

  ghost predicate OwnGroupsGiven(store: Store, q: TargetQuery, rows: seq<JoinRow>, nodes: seq<AccountRow>) {
    forall i :: 0 <= i < |nodes| ==> GroupsFor(rows, nodes[i].id) == OwnGroups(store, q, nodes[i].id)
  }

  ghost predicate OwnRowsGiven(table: seq<OwnedRow>, q: OwnedQuery, keyed: bool, rows: seq<OwnedRow>,
                               nodes: seq<AccountRow>) {
    forall i :: 0 <= i < |nodes| ==> Filter(rows, OwnedBy(nodes[i].id)) == OwnRowsOf(table, q, keyed, nodes[i].id)
  }

  ghost predicate OwnProxiesGiven(store: Store, q: TargetQuery, rows: seq<TargetRow>, nodes: seq<AccountRow>) {
    forall i :: 0 <= i < |nodes| ==> TargetFor(rows, nodes[i].proxyID) == OwnProxy(store, q, nodes[i].proxyID)
  }

  lemma JoinedRows(store: Store, q: TargetQuery, ids: set<int>)
    requires q.joins != []
    ensures GroupRows(store, q, ids) == []
  {
  }

  lemma UnlimitedGroups(store: Store, q: TargetQuery, ids: set<int>, id: int)
    requires ValidStore(store) && q.limit.None? && q.joins == [] && id in ids
    ensures GroupsFor(GroupRows(store, q, ids), id) == OwnGroups(store, q, id)
  {
    GroupsAgree(store, q, ids, id);
    GroupsAgree(store, q, {id}, id);
  }

  lemma GroupsExactly(store: Store, q: TargetQuery, nodes: seq<AccountRow>)
    requires ValidStore(store)
    ensures OwnGroupsGiven(store, q, GroupRows(store, q, IDs(nodes)), nodes) <==> GroupsHarmless(store, q, IDs(nodes))
  {
    hide GroupRows, GroupsFor, Harmless, KeptGroups;
    var ids := IDs(nodes);
    if q.joins != [] {
      JoinedRows(store, q, ids);
      forall i | 0 <= i < |nodes|
        ensures GroupsFor(GroupRows(store, q, ids), nodes[i].id) == OwnGroups(store, q, nodes[i].id)
      {
        JoinedRows(store, q, {nodes[i].id});
      }
    } else if q.limit.Some? {
      GroupLimitExact(store, q, ids);
      if OwnGroupsGiven(store, q, GroupRows(store, q, ids), nodes) {
        forall id | id in ids
          ensures GroupsFor(GroupRows(store, q, ids), id) == GroupsFor(GroupRows(store, q, {id}), id)
        {
          var i :| 0 <= i < |nodes| && nodes[i].id == id;
        }
      }
      if GroupListsLimitedPerNode(store, q, ids) {
        forall i | 0 <= i < |nodes|
          ensures GroupsFor(GroupRows(store, q, ids), nodes[i].id) == OwnGroups(store, q, nodes[i].id)
        {
          assert nodes[i].id in ids;
        }
      }
    } else {
      forall i | 0 <= i < |nodes|
        ensures GroupsFor(GroupRows(store, q, ids), nodes[i].id) == OwnGroups(store, q, nodes[i].id)
      {
        UnlimitedGroups(store, q, ids, nodes[i].id);
      }
    }
  }

  lemma UnlimitedOwned(table: seq<OwnedRow>, q: OwnedQuery, keyed: bool, ids: set<int>, id: int)
    requires q.limit.None? && id in ids
    ensures Filter(OwnedRows(table, q, keyed, ids), OwnedBy(id)) == OwnRowsOf(table, q, keyed, id)
  {
    OwnedAgrees(table, q, keyed, ids, id);
  }

  lemma OwnedExactly(table: seq<OwnedRow>, q: OwnedQuery, keyed: bool, nodes: seq<AccountRow>)
    ensures OwnRowsGiven(table, q, keyed, OwnedRows(table, q, keyed, IDs(nodes)), nodes)
            <==> OwnedHarmless(table, q, IDs(nodes))
  {
    hide OwnedRows, Harmless, Filter;
    var ids := IDs(nodes);
    if q.limit.Some? {
      OwnedLimitExact(table, q, keyed, ids);
      if OwnRowsGiven(table, q, keyed, OwnedRows(table, q, keyed, ids), nodes) {
        forall id | id in ids
          ensures Filter(OwnedRows(table, q, keyed, ids), OwnedBy(id)) == OwnedRows(table, q, keyed, {id})
        {
          var i :| 0 <= i < |nodes| && nodes[i].id == id;
        }
      }
      if OwnedLimitedPerNode(table, q, keyed, ids) {
        forall i | 0 <= i < |nodes|
          ensures Filter(OwnedRows(table, q, keyed, ids), OwnedBy(nodes[i].id))
                  == OwnRowsOf(table, q, keyed, nodes[i].id)
        {
          assert nodes[i].id in ids;
        }
      }
    } else {
      forall i | 0 <= i < |nodes|
        ensures Filter(OwnedRows(table, q, keyed, ids), OwnedBy(nodes[i].id)) == OwnRowsOf(table, q, keyed, nodes[i].id)
      {
        UnlimitedOwned(table, q, keyed, ids, nodes[i].id);
      }
    }
  }

  lemma UnlimitedProxy(store: Store, q: TargetQuery, keys: set<int>, k: int)
    requires ValidStore(store) && q.limit.None? && k in keys
    ensures TargetFor(ProxyRows(store, q, keys), Some(k)) == OwnProxy(store, q, Some(k))
  {
    ProxyAgrees(store, q, keys, Some(k));
    ProxyAgrees(store, q, {k}, Some(k));
  }

  lemma NodeKey(nodes: seq<AccountRow>, key: AccountRow -> Option<int>, i: nat)
    requires i < |nodes| && key(nodes[i]).Some?
    ensures key(nodes[i]).value in Present(Map(nodes, key))
  {
    assert Map(nodes, key)[i] == key(nodes[i]);
  }

  lemma ProxiesExactly(store: Store, q: TargetQuery, nodes: seq<AccountRow>)
    requires ValidStore(store)
    ensures OwnProxiesGiven(store, q, ProxyRows(store, q, ProxyKeys(nodes)), nodes)
            <==> ProxiesHarmless(store, q, ProxyKeys(nodes))
  {
    hide ProxyRows, Filter, Present;
    var keys := ProxyKeys(nodes);
    if q.limit.Some? {
      ProxyLimitExact(store, q, keys);
      if OwnProxiesGiven(store, q, ProxyRows(store, q, keys), nodes) {
        forall k | k in keys
          ensures TargetFor(ProxyRows(store, q, keys), Some(k)) == TargetFor(ProxyRows(store, q, {k}), Some(k))
        {
          var i := KeyHasNode(nodes, ProxyKey(), k);
          assert nodes[i].proxyID == Some(k);
        }
      }
      if ProxyLimitedPerNode(store, q, keys) {
        forall i | 0 <= i < |nodes|
          ensures TargetFor(ProxyRows(store, q, keys), nodes[i].proxyID) == OwnProxy(store, q, nodes[i].proxyID)
        {
          if nodes[i].proxyID.Some? {
            NodeKey(nodes, ProxyKey(), i);
          }
        }
      }
    } else {
      forall i | 0 <= i < |nodes|
        ensures TargetFor(ProxyRows(store, q, keys), nodes[i].proxyID) == OwnProxy(store, q, nodes[i].proxyID)
      {
        if nodes[i].proxyID.Some? {
          NodeKey(nodes, ProxyKey(), i);
          UnlimitedProxy(store, q, keys, nodes[i].proxyID.value);
        }
      }
    }
  }

  // ---------------------------------------------------------------- children

  lemma OwnIgnoresWhere(store: Store, q: AccountQuery, p: Predicate, r: AccountRow)
    ensures Own(store, Where(q, p), r) == Own(store, q, r)
  {
    DecodeIgnoresWhere(q, p, r);
    var a, b := Own(store, Where(q, p), r), Own(store, q, r);
    assert a.row == b.row;
    assert a.parent == b.parent;
    assert a.children == b.children;
  }

  lemma OwnChildNode(store: Store, c: AccountQuery, ids: set<int>, id: int, r: AccountRow)
    ensures var all, child := ChildrenQuery(c, ids), AppendFieldOnce(c, ParentAccountID);
      && OwnFn(store, all)(r) == OwnFn(store, child)(r)
      && ChildOf(id)(OwnFn(store, all)(r)) == HasParent(id)(r)
  {
    OwnIgnoresWhere(store, AppendFieldOnce(c, ParentAccountID), ParentIn(ids), r);
    DecodeKeepsKeys(c, r);
  }

  /** What the query gives with every edge of every account looked up by a query of its own. */
  function Ideal(store: Store, q: AccountQuery): seq<AccountTree> {
    Map(SelectRows(store.accounts, q), OwnFn(store, q))
  }

  function ChildFn(store: Store, c: AccountQuery): AccountRow -> AccountTree {
    OwnFn(store, AppendFieldOnce(c, ParentAccountID))
  }

  /** Of the accounts that one query for all children gives, those of one parent. */
  lemma IdealShare(store: Store, c: AccountQuery, ids: set<int>, id: int)
    ensures Filter(Ideal(store, ChildrenQuery(c, ids)), ChildOf(id))
            == Map(Filter(SelectRows(store.accounts, ChildrenQuery(c, ids)), HasParent(id)), ChildFn(store, c))
  {
    hide Own, SelectRows, ChildrenQuery;
    var all := ChildrenQuery(c, ids);
    forall r
      ensures OwnFn(store, all)(r) == ChildFn(store, c)(r) && ChildOf(id)(OwnFn(store, all)(r)) == HasParent(id)(r)
    {
      OwnChildNode(store, c, ids, id, r);
    }
    FilterThenMap(SelectRows(store.accounts, all), OwnFn(store, all), ChildFn(store, c), ChildOf(id), HasParent(id));
  }

  function ChildRows(store: Store, c: AccountQuery, ids: set<int>): seq<AccountRow> {
    Filter(store.accounts, Matching(ChildrenQuery(c, ids)))
  }

  lemma OwnChildrenAre(store: Store, c: AccountQuery, ids: set<int>, id: int)
    requires id in ids
    ensures OwnChildren(store, c, id)
            == Map(Take(Filter(ChildRows(store, c, ids), HasParent(id)), c.limit), ChildFn(store, c))
  {
    ChildrenOfOne(store, c, ids, id);
    assert OwnChildren(store, c, id) == Map(SelectRows(store.accounts, ChildrenQuery(c, {id})), ChildFn(store, c));
  }

  lemma SelectedChildren(store: Store, c: AccountQuery, ids: set<int>)
    ensures SelectRows(store.accounts, ChildrenQuery(c, ids)) == Take(ChildRows(store, c, ids), c.limit)
  {
  }

  lemma ParentIsKey(rows: seq<AccountRow>, id: int)
    ensures Filter(rows, HasParent(id)) == Filter(rows, OwnedByKey(ParentKey(), Some(id)))
  {
    FilterSame(rows, HasParent(id), OwnedByKey(ParentKey(), Some(id)));
  }

  /** A harmless limit leaves every parent what a limit of its own would. */
  lemma HarmlessShares(rows: seq<AccountRow>, limit: Option<nat>, id: int)
    requires limit.Some? ==> Harmless(rows, ParentKey(), limit.value)
    ensures Filter(Take(rows, limit), HasParent(id)) == Take(Filter(rows, HasParent(id)), limit)
  {
    hide Harmless, Filter;
    if limit.Some? {
      LimitExact(rows, ParentKey(), limit.value);
      ParentIsKey(rows, id);
      ParentIsKey(Take(rows, limit), id);
    }
  }

  lemma SameSizes(rows: seq<AccountRow>, n: nat, id: int)
    requires |Filter(Take(rows, Some(n)), HasParent(id))| == |Take(Filter(rows, HasParent(id)), Some(n))|
    ensures |Filter(Take(rows, Some(n)), OwnedByKey(ParentKey(), Some(id)))|
            == |Take(Filter(rows, OwnedByKey(ParentKey(), Some(id))), Some(n))|
  {
    hide Filter;
    ParentIsKey(rows, id);
    ParentIsKey(Take(rows, Some(n)), id);
  }

  function SomeOf(ids: set<int>): set<Option<int>> {
    set id | id in ids :: Some(id)
  }

  lemma KeyAsked(store: Store, c: AccountQuery, ids: set<int>, r: AccountRow)
    requires Matching(ChildrenQuery(c, ids))(r)
    ensures ParentKey()(r) in SomeOf(ids)
  {
    hide Matching, ChildrenQuery;
    ChildMatches(c, ids, r);
    var id := r.parentID.value;
    assert id in ids && r.parentID == Some(id);
  }

  lemma ChildMatches(c: AccountQuery, ids: set<int>, r: AccountRow)
    requires Matching(ChildrenQuery(c, ids))(r)
    ensures r.parentID.Some? && r.parentID.value in ids
  {
    MatchWhere(AppendFieldOnce(c, ParentAccountID), ParentIn(ids), r);
  }

  lemma KeysAsked(store: Store, c: AccountQuery, ids: set<int>)
    ensures forall i :: 0 <= i < |ChildRows(store, c, ids)| ==> ParentKey()(ChildRows(store, c, ids)[i]) in SomeOf(ids)
  {
    hide Matching, ChildrenQuery, SomeOf, ParentKey;
    var rows := ChildRows(store, c, ids);
    forall i | 0 <= i < |rows|
      ensures ParentKey()(rows[i]) in SomeOf(ids)
    {
      assert Matching(ChildrenQuery(c, ids))(rows[i]);
      KeyAsked(store, c, ids, rows[i]);
    }
  }

  lemma SizesShowHarmless(store: Store, c: AccountQuery, ids: set<int>)
    requires forall id :: id in ids ==>
      |Filter(Take(ChildRows(store, c, ids), c.limit), HasParent(id))|
      == |Take(Filter(ChildRows(store, c, ids), HasParent(id)), c.limit)|
    ensures RowsHarmless(store, c, ids)
  {
    hide Harmless, Filter, Take, HasParent;
    if c.limit.Some? {
      var rows, n := ChildRows(store, c, ids), c.limit.value;
      forall k | k in SomeOf(ids)
        ensures |Filter(Take(rows, Some(n)), OwnedByKey(ParentKey(), k))|
                == |Take(Filter(rows, OwnedByKey(ParentKey(), k)), Some(n))|
      {
        SameSizes(rows, n, k.value);
      }
      KeysAsked(store, c, ids);
      SizesOfOwners(rows, ParentKey(), n, SomeOf(ids));
      LimitExact(rows, ParentKey(), n);
    }
  }

  /** As many trees of one parent as rows. */
  lemma {:induction false} ShareSize(trees: seq<AccountTree>, rows: seq<AccountRow>, id: int)
    requires |trees| == |rows| && forall i :: 0 <= i < |rows| ==> trees[i].row.parentID == rows[i].parentID
    ensures |Filter(trees, ChildOf(id))| == |Filter(rows, HasParent(id))|
  {
    if rows != [] {
      ShareSize(trees[1..], rows[1..], id);
    }
  }

  lemma ChildTreesAlign(store: Store, c: AccountQuery, ids: set<int>)
    ensures var trees, rows := All(store, ChildrenQuery(c, ids)), SelectRows(store.accounts, ChildrenQuery(c, ids));
      && |trees| == |rows|
      && forall i :: 0 <= i < |rows| ==>
           trees[i].row.parentID == rows[i].parentID && rows[i].parentID.Some? && rows[i].parentID.value in ids
  {
    hide All, SelectRows, ChildrenQuery;
    var trees, rows := All(store, ChildrenQuery(c, ids)), SelectRows(store.accounts, ChildrenQuery(c, ids));
    TreeCount(store, ChildrenQuery(c, ids));
    forall i | 0 <= i < |rows|
      ensures trees[i].row.parentID == rows[i].parentID && rows[i].parentID.Some? && rows[i].parentID.value in ids
    {
      ChildTreeParent(store, c, ids, i);
      ChildSelected(store, c, ids, rows[i]);
    }
  }

  lemma IdealParent(store: Store, c: AccountQuery, ids: set<int>, i: nat)
    requires i < |SelectRows(store.accounts, ChildrenQuery(c, ids))|
    ensures Ideal(store, ChildrenQuery(c, ids))[i].row.parentID
            == SelectRows(store.accounts, ChildrenQuery(c, ids))[i].parentID
  {
    hide SelectRows;
    var r := SelectRows(store.accounts, ChildrenQuery(c, ids))[i];
    DecodeIgnoresWhere(AppendFieldOnce(c, ParentAccountID), ParentIn(ids), r);
    DecodeKeepsKeys(c, r);
  }

  ghost predicate OwnChildrenGiven(store: Store, c: AccountQuery, trees: seq<AccountTree>, nodes: seq<AccountRow>) {
    forall i :: 0 <= i < |nodes| ==> Filter(trees, ChildOf(nodes[i].id)) == OwnChildren(store, c, nodes[i].id)
  }

  lemma GivenShowsHarmless(store: Store, c: AccountQuery, nodes: seq<AccountRow>)
    requires OwnChildrenGiven(store, c, All(store, ChildrenQuery(c, IDs(nodes))), nodes)
    ensures RowsHarmless(store, c, IDs(nodes))
  {
    hide All, SelectRows, ChildrenQuery, OwnChildren, ChildRows, ChildFn;
    var ids := IDs(nodes);
    var trees := All(store, ChildrenQuery(c, ids));
    ChildTreesAlign(store, c, ids);
    SelectedChildren(store, c, ids);
    forall id | id in ids
      ensures |Filter(Take(ChildRows(store, c, ids), c.limit), HasParent(id))|
              == |Take(Filter(ChildRows(store, c, ids), HasParent(id)), c.limit)|
    {
      var i :| 0 <= i < |nodes| && nodes[i].id == id;
      ShareSize(trees, SelectRows(store.accounts, ChildrenQuery(c, ids)), id);
      OwnChildrenAre(store, c, ids, id);
    }
    SizesShowHarmless(store, c, ids);
  }

  lemma HarmlessGives(store: Store, c: AccountQuery, nodes: seq<AccountRow>)
    requires RowsHarmless(store, c, IDs(nodes))
    ensures OwnChildrenGiven(store, c, Ideal(store, ChildrenQuery(c, IDs(nodes))), nodes)
  {
    hide SelectRows, ChildrenQuery, OwnChildren, ChildFn, Ideal;
    var ids := IDs(nodes);
    SelectedChildren(store, c, ids);
    forall i | 0 <= i < |nodes|
      ensures Filter(Ideal(store, ChildrenQuery(c, ids)), ChildOf(nodes[i].id)) == OwnChildren(store, c, nodes[i].id)
    {
      assert nodes[i].id in ids;
      IdealShare(store, c, ids, nodes[i].id);
      OwnChildrenAre(store, c, ids, nodes[i].id);
      HarmlessShares(ChildRows(store, c, ids), c.limit, nodes[i].id);
    }
  }

  lemma BothGiven(store: Store, c: AccountQuery, a: seq<AccountTree>, b: seq<AccountTree>, nodes: seq<AccountRow>)
    requires OwnChildrenGiven(store, c, a, nodes) && OwnChildrenGiven(store, c, b, nodes)
    ensures SameFamilies(a, b, nodes)
  {
    hide OwnChildren, ChildOf, Filter;
  }

  lemma IdealAligned(store: Store, c: AccountQuery, ids: set<int>)
    ensures var trees, rows := Ideal(store, ChildrenQuery(c, ids)), SelectRows(store.accounts, ChildrenQuery(c, ids));
      |trees| == |rows| && forall i :: 0 <= i < |rows| ==> trees[i].row.parentID == rows[i].parentID
  {
    hide SelectRows, ChildrenQuery, OwnFn;
    var rows := SelectRows(store.accounts, ChildrenQuery(c, ids));
    forall i | 0 <= i < |rows|
      ensures Ideal(store, ChildrenQuery(c, ids))[i].row.parentID == rows[i].parentID
    {
      IdealParent(store, c, ids, i);
    }
  }

  lemma GivenShowsIdeal(store: Store, c: AccountQuery, nodes: seq<AccountRow>)
    requires OwnChildrenGiven(store, c, All(store, ChildrenQuery(c, IDs(nodes))), nodes)
    requires OwnChildrenGiven(store, c, Ideal(store, ChildrenQuery(c, IDs(nodes))), nodes)
    ensures All(store, ChildrenQuery(c, IDs(nodes))) == Ideal(store, ChildrenQuery(c, IDs(nodes)))
  {
    hide *;
    var a, b := All(store, ChildrenQuery(c, IDs(nodes))), Ideal(store, ChildrenQuery(c, IDs(nodes)));
    ChildTreesAlign(store, c, IDs(nodes));
    IdealAligned(store, c, IDs(nodes));
    BothGiven(store, c, a, b, nodes);
    SameByNodes(a, b, nodes);
  }

  /** One query for all children gives every account what a limited query of its own would, down to the last edge,
      exactly when its limit is harmless and the children's own edges come out the same. */
  lemma ChildrenExactly(store: Store, c: AccountQuery, nodes: seq<AccountRow>)
    ensures OwnChildrenGiven(store, c, All(store, ChildrenQuery(c, IDs(nodes))), nodes)
            <==> RowsHarmless(store, c, IDs(nodes))
                 && All(store, ChildrenQuery(c, IDs(nodes))) == Ideal(store, ChildrenQuery(c, IDs(nodes)))
  {
    hide *;
    if OwnChildrenGiven(store, c, All(store, ChildrenQuery(c, IDs(nodes))), nodes) {
      GivenShowsHarmless(store, c, nodes);
    }
    if RowsHarmless(store, c, IDs(nodes)) {
      HarmlessGives(store, c, nodes);
      if OwnChildrenGiven(store, c, All(store, ChildrenQuery(c, IDs(nodes))), nodes) {
        GivenShowsIdeal(store, c, nodes);
      }
    }
  }

  // ---------------------------------------------------------------- parents

  function FoundTree(f: AccountRow -> AccountTree, rows: seq<AccountRow>): Option<AccountTree> {
    match FirstOf(rows)
    case None => None
    case Some(r) => Some(f(r))
  }

  function ParentRows(store: Store, p: AccountQuery, keys: set<int>): seq<AccountRow> {
    Filter(store.accounts, Matching(ParentQuery(p, keys)))
  }

  lemma SelectedParents(store: Store, p: AccountQuery, keys: set<int>)
    ensures SelectRows(store.accounts, ParentQuery(p, keys)) == Take(ParentRows(store, p, keys), p.limit)
  {
  }

  lemma OwnParentNode(store: Store, p: AccountQuery, keys: set<int>, r: AccountRow)
    ensures OwnFn(store, ParentQuery(p, keys))(r) == OwnFn(store, p)(r) && OwnFn(store, p)(r).row.id == r.id
  {
    OwnIgnoresWhere(store, p, IDIn(keys), r);
    DecodeKeepsKeys(p, r);
  }

  lemma IdealParents(store: Store, p: AccountQuery, keys: set<int>)
    ensures Ideal(store, ParentQuery(p, keys)) == Map(Take(ParentRows(store, p, keys), p.limit), OwnFn(store, p))
  {
    hide Own, ParentRows, SelectRows, ParentQuery;
    SelectedParents(store, p, keys);
    var rows := SelectRows(store.accounts, ParentQuery(p, keys));
    forall i | 0 <= i < |rows|
      ensures OwnFn(store, ParentQuery(p, keys))(rows[i]) == OwnFn(store, p)(rows[i])
    {
      OwnParentNode(store, p, keys, rows[i]);
    }
  }

  /** What the accounts that one query for all parents gives hold for a key. */
  lemma IdealFound(store: Store, p: AccountQuery, keys: set<int>, k: int)
    requires ValidStore(store)
    ensures TreeFor(Ideal(store, ParentQuery(p, keys)), Some(k))
            == FoundTree(OwnFn(store, p), Filter(Take(ParentRows(store, p, keys), p.limit), HasID(k)))
  {
    hide Own, OwnFn, TreeFor, Ideal, Matching, Filter;
    IdealParents(store, p, keys);
    DistinctRows(store.accounts, Matching(ParentQuery(p, keys)));
    var rows := Take(ParentRows(store, p, keys), p.limit);
    forall r
      ensures OwnFn(store, p)(r).row.id == r.id
    {
      OwnParentNode(store, p, keys, r);
    }
    assert DistinctAccounts(rows);
    TreeForUnique(rows, OwnFn(store, p), k);
  }

  lemma OwnParentIs(store: Store, p: AccountQuery, keys: set<int>, k: int)
    requires k in keys
    ensures OwnParent(store, p, Some(k))
            == FoundTree(OwnFn(store, p), Take(Filter(ParentRows(store, p, keys), HasID(k)), p.limit))
  {
    hide Matching;
    ParentsOfOne(store, p, keys, k);
    SelectedParents(store, p, {k});
  }

  lemma KeepsAll<T>(s: seq<T>, limit: Option<nat>)
    requires limit.Some? ==> |s| <= limit.value
    ensures Take(s, limit) == s
  {
  }

  /** An uncut limit finds for every key what a limit of its own would. */
  lemma UncutFinds(rows: seq<AccountRow>, limit: Option<nat>, k: int)
    requires Uncut(|rows|, limit)
    ensures Filter(Take(rows, limit), HasID(k)) == Take(Filter(rows, HasID(k)), limit)
  {
    hide HasID;
    if limit == Some(0) {
      hide Take;
      TakeNone(rows);
      TakeNone(Filter(rows, HasID(k)));
    } else {
      hide Take, Filter;
      KeepsAll(rows, limit);
      KeepsAll(Filter(rows, HasID(k)), limit);
    }
  }

  lemma CutIsMissed(rows: seq<AccountRow>, trees: seq<AccountTree>, n: nat)
    requires DistinctAccounts(rows) && 0 < n < |rows| && |trees| == n
    requires forall i :: 0 <= i < n ==> trees[i].row.id == rows[i].id
    ensures TreeFor(trees, Some(rows[n].id)) == None
    ensures Take(Filter(rows, HasID(rows[n].id)), Some(n)) != []
  {
    TreePresent(trees, rows[n].id);
    forall t | t in trees
      ensures t.row.id != rows[n].id
    {
      var i :| 0 <= i < |trees| && trees[i] == t;
    }
    FilterKeeps(rows, HasID(rows[n].id), rows[n]);
  }

  ghost predicate OwnParentsGiven(store: Store, p: AccountQuery, trees: seq<AccountTree>, nodes: seq<AccountRow>) {
    forall i :: 0 <= i < |nodes| ==> TreeFor(trees, nodes[i].parentID) == OwnParent(store, p, nodes[i].parentID)
  }

  lemma ParentTreesAlign(store: Store, p: AccountQuery, keys: set<int>)
    ensures var trees, rows := All(store, ParentQuery(p, keys)), Take(ParentRows(store, p, keys), p.limit);
      |trees| == |rows| && forall i :: 0 <= i < |rows| ==> trees[i].row.id == rows[i].id && rows[i].id in keys
  {
    hide All, ParentQuery, ParentRows, SelectRows, Take;
    var trees, rows := All(store, ParentQuery(p, keys)), Take(ParentRows(store, p, keys), p.limit);
    TreeCount(store, ParentQuery(p, keys));
    SelectedParents(store, p, keys);
    forall i | 0 <= i < |rows|
      ensures trees[i].row.id == rows[i].id && rows[i].id in keys
    {
      ParentTreeID(store, ParentQuery(p, keys), i);
      ParentSelected(store, p, keys, rows[i]);
    }
  }

  lemma ParentRowKey(store: Store, p: AccountQuery, keys: set<int>, n: nat)
    requires n < |ParentRows(store, p, keys)|
    ensures ParentRows(store, p, keys)[n].id in keys
  {
    hide Matching;
    var r := ParentRows(store, p, keys)[n];
    MatchWhere(p, IDIn(keys), r);
    assert Matching(ParentQuery(p, keys))(r);
  }

  lemma CutShows(store: Store, p: AccountQuery, nodes: seq<AccountRow>)
    requires ValidStore(store) && !TargetsHarmless(store, p, ParentKeys(nodes))
    ensures !OwnParentsGiven(store, p, All(store, ParentQuery(p, ParentKeys(nodes))), nodes)
  {
    hide All, ParentKeys, Matching, Filter, TreeFor, OwnParent, OwnFn;
    var keys, n := ParentKeys(nodes), p.limit.value;
    var rows, trees := ParentRows(store, p, keys), All(store, ParentQuery(p, keys));
    DistinctRows(store.accounts, Matching(ParentQuery(p, keys)));
    ParentTreesAlign(store, p, keys);
    ParentRowKey(store, p, keys, n);
    var i := KeyOfNode(nodes, rows[n].id);
    CutIsMissed(rows, trees, n);
    OwnParentIs(store, p, keys, rows[n].id);
  }

  lemma KeyOfNode(nodes: seq<AccountRow>, id: int) returns (i: nat)
    requires id in ParentKeys(nodes)
    ensures i < |nodes| && nodes[i].parentID == Some(id)
  {
    i := KeyHasNode(nodes, ParentKey(), id);
  }

  lemma NoOwnParent(store: Store, p: AccountQuery, trees: seq<AccountTree>)
    ensures TreeFor(trees, None) == None && OwnParent(store, p, None) == None
  {
  }

  lemma UncutGives(store: Store, p: AccountQuery, nodes: seq<AccountRow>)
    requires ValidStore(store) && TargetsHarmless(store, p, ParentKeys(nodes))
    ensures OwnParentsGiven(store, p, Ideal(store, ParentQuery(p, ParentKeys(nodes))), nodes)
  {
    hide Matching, Filter, TreeFor, OwnParent, OwnFn, Ideal, Present, Take;
    var keys := ParentKeys(nodes);
    var trees := Ideal(store, ParentQuery(p, keys));
    NoOwnParent(store, p, trees);
    forall i | 0 <= i < |nodes|
      ensures TreeFor(trees, nodes[i].parentID) == OwnParent(store, p, nodes[i].parentID)
    {
      if nodes[i].parentID.Some? {
        NodeKey(nodes, ParentKey(), i);
        IdealFound(store, p, keys, nodes[i].parentID.value);
        OwnParentIs(store, p, keys, nodes[i].parentID.value);
        UncutFinds(ParentRows(store, p, keys), p.limit, nodes[i].parentID.value);
      }
    }
  }

  lemma BothParentsGiven(store: Store, p: AccountQuery, a: seq<AccountTree>, b: seq<AccountTree>,
                         nodes: seq<AccountRow>)
    requires OwnParentsGiven(store, p, a, nodes) && OwnParentsGiven(store, p, b, nodes)
    ensures SameParents(a, b, nodes)
  {
    hide OwnParent, TreeFor;
  }

  lemma IdealParentsAlign(store: Store, p: AccountQuery, keys: set<int>)
    ensures var trees, rows := Ideal(store, ParentQuery(p, keys)), Take(ParentRows(store, p, keys), p.limit);
      |trees| == |rows| && forall i :: 0 <= i < |rows| ==> trees[i].row.id == rows[i].id
  {
    hide Ideal, ParentRows, ParentQuery, OwnFn, Take;
    var rows := Take(ParentRows(store, p, keys), p.limit);
    IdealParents(store, p, keys);
    forall i | 0 <= i < |rows|
      ensures Ideal(store, ParentQuery(p, keys))[i].row.id == rows[i].id
    {
      OwnParentNode(store, p, keys, rows[i]);
    }
  }

  lemma AlignedDistinct(a: seq<AccountTree>, b: seq<AccountTree>)
    requires DistinctTrees(a) && |a| == |b| && forall i :: 0 <= i < |a| ==> a[i].row.id == b[i].row.id
    ensures DistinctTrees(b)
  {
  }

  lemma GivenShowsIdealParents(store: Store, p: AccountQuery, nodes: seq<AccountRow>)
    requires ValidStore(store)
    requires OwnParentsGiven(store, p, All(store, ParentQuery(p, ParentKeys(nodes))), nodes)
    requires OwnParentsGiven(store, p, Ideal(store, ParentQuery(p, ParentKeys(nodes))), nodes)
    ensures All(store, ParentQuery(p, ParentKeys(nodes))) == Ideal(store, ParentQuery(p, ParentKeys(nodes)))
  {
    hide *;
    var keys := ParentKeys(nodes);
    var a, b := All(store, ParentQuery(p, keys)), Ideal(store, ParentQuery(p, keys));
    ParentTreesAlign(store, p, keys);
    IdealParentsAlign(store, p, keys);
    TreesDistinct(store, ParentQuery(p, keys));
    AlignedDistinct(a, b);
    BothParentsGiven(store, p, a, b, nodes);
    SameByKeys(a, b, nodes);
  }

  lemma ParentsExactly(store: Store, p: AccountQuery, nodes: seq<AccountRow>)
    requires ValidStore(store)
    ensures OwnParentsGiven(store, p, All(store, ParentQuery(p, ParentKeys(nodes))), nodes)
            <==> TargetsHarmless(store, p, ParentKeys(nodes))
                 && All(store, ParentQuery(p, ParentKeys(nodes))) == Ideal(store, ParentQuery(p, ParentKeys(nodes)))
  {
    hide *;
    if TargetsHarmless(store, p, ParentKeys(nodes)) {
      UncutGives(store, p, nodes);
      if OwnParentsGiven(store, p, All(store, ParentQuery(p, ParentKeys(nodes))), nodes) {
        GivenShowsIdealParents(store, p, nodes);
      }
    } else {
      CutShows(store, p, nodes);
    }
  }

  // ---------------------------------------------------------------- the whole query

  /** Every node is given of the edges what limited queries of its own would give it. */
  ghost predicate SidesGiven(store: Store, q: AccountQuery, e: Edges, nodes: seq<AccountRow>) {
    && (q.withGroups.Some? ==> OwnGroupsGiven(store, q.withGroups.value, e.groups, nodes))
    && (q.withProxy.Some? ==> OwnProxiesGiven(store, q.withProxy.value, e.proxies, nodes))
    && (q.withUsageLogs.Some? ==> OwnRowsGiven(store.usageLogs, q.withUsageLogs.value, true, e.usageLogs, nodes))
    && (q.withAccountGroups.Some? ==>
          OwnRowsGiven(store.accountGroups, q.withAccountGroups.value, false, e.accountGroups, nodes))
  }

  ghost predicate FamilyGiven(store: Store, q: AccountQuery, e: Edges, nodes: seq<AccountRow>) {
    && (q.withParent.Some? ==> OwnParentsGiven(store, q.withParent.value, e.parents, nodes))
    && (q.withChildren.Some? ==> OwnChildrenGiven(store, q.withChildren.value, e.children, nodes))
  }

  ghost predicate NodeGiven(store: Store, q: AccountQuery, e: Edges, n: AccountRow) {
    && (q.withGroups.Some? ==> GroupsFor(e.groups, n.id) == OwnGroups(store, q.withGroups.value, n.id))
    && (q.withProxy.Some? ==> TargetFor(e.proxies, n.proxyID) == OwnProxy(store, q.withProxy.value, n.proxyID))
    && (q.withUsageLogs.Some? ==>
          Filter(e.usageLogs, OwnedBy(n.id)) == OwnRowsOf(store.usageLogs, q.withUsageLogs.value, true, n.id))
    && (q.withAccountGroups.Some? ==>
          Filter(e.accountGroups, OwnedBy(n.id))
          == OwnRowsOf(store.accountGroups, q.withAccountGroups.value, false, n.id))
    && (q.withParent.Some? ==> TreeFor(e.parents, n.parentID) == OwnParent(store, q.withParent.value, n.parentID))
    && (q.withChildren.Some? ==> Filter(e.children, ChildOf(n.id)) == OwnChildren(store, q.withChildren.value, n.id))
  }

  lemma NodeExactly(store: Store, q: AccountQuery, e: Edges, r: AccountRow)
    ensures Attach(q, Decode(q)(r), e) == Own(store, q, r) <==> NodeGiven(store, q, e, Decode(q)(r))
  {
    hide GroupsFor, TargetFor, TreeFor, Filter, OwnGroups, OwnProxy, OwnRowsOf, OwnParent, OwnChildren, Decode;
    DecodeKeepsKeys(q, r);
  }

  lemma EachGiven(store: Store, q: AccountQuery, e: Edges, nodes: seq<AccountRow>)
    ensures SidesGiven(store, q, e, nodes) && FamilyGiven(store, q, e, nodes)
            <==> forall i :: 0 <= i < |nodes| ==> NodeGiven(store, q, e, nodes[i])
  {
    hide GroupsFor, TargetFor, TreeFor, Filter, OwnGroups, OwnProxy, OwnRowsOf, OwnParent, OwnChildren, OwnedBy,
      ChildOf;
  }

  lemma IdealExactly(store: Store, q: AccountQuery)
    ensures var nodes := Nodes(store, q); var e := EdgesOf(store, q, nodes);
      All(store, q) == Ideal(store, q) <==> SidesGiven(store, q, e, nodes) && FamilyGiven(store, q, e, nodes)
  {
    hide All, Own, Attach, NodeGiven, SidesGiven, FamilyGiven, EdgesOf, SelectRows, Decode;
    var rows, nodes := SelectRows(store.accounts, q), Nodes(store, q);
    var e := EdgesOf(store, q, nodes);
    AllIsAttached(store, q);
    EachGiven(store, q, e, nodes);
    forall i | 0 <= i < |rows|
      ensures All(store, q)[i] == Ideal(store, q)[i] <==> NodeGiven(store, q, e, nodes[i])
    {
      assert nodes[i] == Decode(q)(rows[i]);
      NodeExactly(store, q, e, rows[i]);
    }
    if forall i :: 0 <= i < |nodes| ==> NodeGiven(store, q, e, nodes[i]) {
      assert forall i :: 0 <= i < |rows| ==> All(store, q)[i] == Ideal(store, q)[i];
    } else {
      var i :| 0 <= i < |nodes| && !NodeGiven(store, q, e, nodes[i]);
      assert All(store, q)[i] != Ideal(store, q)[i];
    }
  }

  lemma SideEdges(store: Store, q: AccountQuery, nodes: seq<AccountRow>)
    ensures var e := EdgesOf(store, q, nodes);
      && (q.withGroups.Some? ==> e.groups == GroupRows(store, q.withGroups.value, IDs(nodes)))
      && (q.withProxy.Some? ==> e.proxies == ProxyRows(store, q.withProxy.value, ProxyKeys(nodes)))
      && (q.withUsageLogs.Some? ==> e.usageLogs == OwnedRows(store.usageLogs, q.withUsageLogs.value, true, IDs(nodes)))
      && (q.withAccountGroups.Some? ==>
            e.accountGroups == OwnedRows(store.accountGroups, q.withAccountGroups.value, false, IDs(nodes)))
  {
    hide All, GroupRows, ProxyRows, OwnedRows;
  }

  lemma SidesExactly(store: Store, q: AccountQuery, nodes: seq<AccountRow>)
    requires ValidStore(store)
    ensures SidesGiven(store, q, EdgesOf(store, q, nodes), nodes) <==> SidesHarmless(store, q, nodes)
  {
    hide EdgesOf, GroupRows, ProxyRows, OwnedRows, OwnGroupsGiven, OwnProxiesGiven, OwnRowsGiven, GroupsHarmless,
      ProxiesHarmless, OwnedHarmless, IDs, ProxyKeys, ValidStore;
    SideEdges(store, q, nodes);
    if q.withGroups.Some? {
      GroupsExactly(store, q.withGroups.value, nodes);
    }
    if q.withProxy.Some? {
      ProxiesExactly(store, q.withProxy.value, nodes);
    }
    if q.withUsageLogs.Some? {
      OwnedExactly(store.usageLogs, q.withUsageLogs.value, true, nodes);
    }
    if q.withAccountGroups.Some? {
      OwnedExactly(store.accountGroups, q.withAccountGroups.value, false, nodes);
    }
  }

  lemma NoKeysGiven(store: Store, p: AccountQuery, nodes: seq<AccountRow>)
    requires ParentKeys(nodes) == {}
    ensures OwnParentsGiven(store, p, [], nodes)
  {
    hide OwnParent, TreeFor;
    NoOwnParent(store, p, []);
    forall i | 0 <= i < |nodes|
      ensures nodes[i].parentID == None
    {
      if nodes[i].parentID.Some? {
        NodeKey(nodes, ParentKey(), i);
      }
    }
  }

  lemma {:induction false} ParentEdgeExactly(store: Store, q: AccountQuery, nodes: seq<AccountRow>)
    requires ValidStore(store) && q.withParent.Some?
    ensures OwnParentsGiven(store, q.withParent.value, EdgesOf(store, q, nodes).parents, nodes)
            <==> ParentsHarmless(store, q.withParent.value, ParentKeys(nodes))
    decreases Depth(q), 0
  {
    hide EdgesOf, All, Ideal, OwnParentsGiven, TargetsHarmless, LimitsHarmless, ParentKeys, ValidStore;
    var p, keys := q.withParent.value, ParentKeys(nodes);
    ParentEdges(store, q, nodes);
    if keys == {} {
      NoKeysGiven(store, p, nodes);
    } else {
      SubqueryDepth(p, keys);
      LimitsExactly(store, ParentQuery(p, keys));
      ParentsExactly(store, p, nodes);
    }
  }

  lemma {:induction false} ChildEdgeExactly(store: Store, q: AccountQuery, nodes: seq<AccountRow>)
    requires ValidStore(store) && q.withChildren.Some?
    ensures OwnChildrenGiven(store, q.withChildren.value, EdgesOf(store, q, nodes).children, nodes)
            <==> ChildrenHarmless(store, q.withChildren.value, IDs(nodes))
    decreases Depth(q), 0
  {
    hide EdgesOf, All, Ideal, OwnChildrenGiven, RowsHarmless, LimitsHarmless, IDs, ValidStore;
    var c, ids := q.withChildren.value, IDs(nodes);
    ChildEdges(store, q, nodes);
    SubqueryDepth(c, ids);
    LimitsExactly(store, ChildrenQuery(c, ids));
    ChildrenExactly(store, c, nodes);
  }

  lemma NothingToGive(store: Store, q: AccountQuery)
    requires Nodes(store, q) == []
    ensures All(store, q) == Ideal(store, q)
  {
    hide SelectRows;
    TreeCount(store, q);
  }

  /** A batched run gives every account, down to the last edge, what queries of its own with the same limits would,
      exactly when every limit it meets is harmless. */
  lemma {:induction false} LimitsExactly(store: Store, q: AccountQuery)
    requires ValidStore(store)
    ensures All(store, q) == Ideal(store, q) <==> LimitsHarmless(store, q)
    decreases Depth(q)
  {
    hide Nodes, All, EdgesOf, SidesGiven, OwnParentsGiven, OwnChildrenGiven, SidesHarmless, ParentsHarmless,
      ChildrenHarmless, IDs, ParentKeys, Ideal, ValidStore;
    var nodes := Nodes(store, q);
    if nodes == [] {
      NothingToGive(store, q);
    } else {
      IdealExactly(store, q);
      SidesExactly(store, q, nodes);
      if q.withParent.Some? {
        ParentEdgeExactly(store, q, nodes);
      }
      if q.withChildren.Some? {
        ChildEdgeExactly(store, q, nodes);
      }
    }
  }

  lemma UnlimitedSides(store: Store, q: AccountQuery, nodes: seq<AccountRow>)
    requires PlainEdges(q)
    ensures SidesHarmless(store, q, nodes)
  {
    hide IDs, ProxyKeys, Join, Harmless, Filter, KeptGroups;
  }

  lemma UnlimitedFamily(store: Store, s: AccountQuery, ids: set<int>)
    requires s.limit.None?
    ensures LimitsHarmless(store, ParentQuery(s, ids)) ==> ParentsHarmless(store, s, ids)
    ensures LimitsHarmless(store, ChildrenQuery(s, ids)) ==> ChildrenHarmless(store, s, ids)
  {
    hide LimitsHarmless, ParentQuery, ChildrenQuery, Filter, Harmless;
  }

  lemma UnlimitedFamilies(q: AccountQuery)
    requires PlainEdges(q)
    ensures q.withParent.Some? ==> q.withParent.value.limit.None?
    ensures q.withChildren.Some? ==> q.withChildren.value.limit.None?
  {
  }

  /** Without limits on edges nothing can go wrong. */
  lemma {:induction false} UnlimitedIsHarmless(store: Store, q: AccountQuery)
    requires PlainEdges(q)
    ensures LimitsHarmless(store, q)
    decreases Depth(q)
  {
    hide Nodes, IDs, ParentKeys, SidesHarmless, ParentsHarmless, ChildrenHarmless, PlainEdges, ParentQuery,
      ChildrenQuery;
    var nodes := Nodes(store, q);
    UnlimitedSides(store, q, nodes);
    UnlimitedFamilies(q);
    if q.withParent.Some? {
      var p, keys := q.withParent.value, ParentKeys(nodes);
      SubqueryBound(q, p, keys);
      UnlimitedIsHarmless(store, ParentQuery(p, keys));
      UnlimitedFamily(store, p, keys);
    }
    if q.withChildren.Some? {
      var c, ids := q.withChildren.value, IDs(nodes);
      SubqueryBound(q, c, ids);
      UnlimitedIsHarmless(store, ChildrenQuery(c, ids));
      UnlimitedFamily(store, c, ids);
    }
  }
}
