/** A query object that is run twice. Loading an edge adds a filter on the nodes' keys to the edge's own query object,
    where it stays, at every depth (the load methods of backend/ent/account_query.go). */
module EagerRerun {
  import opened Common
  import opened AccountSchema
  import opened EagerSpec
  import opened EagerRefines
  import opened EagerGroupOrder
  import opened EagerTrees
  import opened EagerOutcome

  // ---------------------------------------------------------------- what a run leaves behind

  /** The query f with the edge queries that a run of q has left. */
  function Used(store: Store, q: AccountQuery, f: AccountQuery): AccountQuery {
    var kept := AfterRun(store, q);
    f.(withGroups := kept.withGroups, withProxy := kept.withProxy, withParent := kept.withParent,
       withChildren := kept.withChildren, withUsageLogs := kept.withUsageLogs,
       withAccountGroups := kept.withAccountGroups)
  }

  ghost predicate SameEdgeQueries(q: AccountQuery, f: AccountQuery) {
    && q.withGroups == f.withGroups && q.withProxy == f.withProxy && q.withParent == f.withParent
    && q.withChildren == f.withChildren && q.withUsageLogs == f.withUsageLogs
    && q.withAccountGroups == f.withAccountGroups
  }

  /** A run of x gets by as far as one of f does, and gives the same graphs. */
  ghost predicate RunsAlike(store: Store, x: AccountQuery, f: AccountQuery) {
    Sound(store, x) && All(store, x) == All(store, f)
  }

  // ---------------------------------------------------------------- the condition

  ghost predicate ProxiesKnown(store: Store, q: TargetQuery, before: set<int>, ids: set<int>) {
    forall r :: r in Take(Filter(store.proxies, WithID(q, ids)), q.limit) ==> r.id in before
  }

  ghost predicate OwnersKnown(table: seq<OwnedRow>, q: OwnedQuery, before: set<int>, ids: set<int>) {
    forall r :: r in Take(Filter(table, OwnedIn(q, ids)), q.limit) ==> r.accountID in before
  }

  ghost predicate ParentsKnown(store: Store, q: AccountQuery, before: set<int>, ids: set<int>) {
    forall r :: r in SelectRows(store.accounts, ParentQuery(q, ids)) ==> r.id in before
  }

  ghost predicate ChildrenKnown(store: Store, q: AccountQuery, before: set<int>, ids: set<int>) {
    forall r :: r in SelectRows(store.accounts, ChildrenQuery(q, ids)) ==>
        r.parentID.Some? && r.parentID.value in before
  }

  ghost predicate SidesKnown(store: Store, f: AccountQuery, before: seq<AccountRow>, nodes: seq<AccountRow>) {
    && (f.withGroups.Some? ==> GroupRows(store, f.withGroups.value, IDs(nodes)) == [])
    && (f.withProxy.Some? && ProxyKeys(before) != {} ==>
          ProxiesKnown(store, f.withProxy.value, ProxyKeys(before), ProxyKeys(nodes)))
    && (f.withUsageLogs.Some? ==> OwnersKnown(store.usageLogs, f.withUsageLogs.value, IDs(before), IDs(nodes)))
    && (f.withAccountGroups.Some? ==>
        OwnersKnown(store.accountGroups, f.withAccountGroups.value, IDs(before), IDs(nodes)))
  }

  /** Every row that an edge query of f selects belongs to a node of the first run, of q against first, and no groups
      are selected at all: at every depth, limits included. */
  ghost predicate Known(first: Store, store: Store, q: AccountQuery, f: AccountQuery)
    decreases Depth(f), 0
  {
    var before, nodes := Nodes(first, q), Nodes(store, f);
    before == [] || nodes == [] ||
    (&& SidesKnown(store, f, before, nodes)
     && (f.withParent.Some? ==>
         ParentEdgeKnown(first, store, f.withParent.value, ParentKeys(before), ParentKeys(nodes)))
     && (f.withChildren.Some? ==> ChildEdgeKnown(first, store, f.withChildren.value, IDs(before), IDs(nodes))))
  }

  ghost predicate ParentEdgeKnown(first: Store, store: Store, p: AccountQuery, before: set<int>, ids: set<int>)
    decreases Depth(p), 1
  {
    before == {} || ids == {} ||
    (SubqueryDepth(p, ids);
     ParentsKnown(store, p, before, ids) && Known(first, store, ParentQuery(p, before), ParentQuery(p, ids)))
  }

  ghost predicate ChildEdgeKnown(first: Store, store: Store, c: AccountQuery, before: set<int>, ids: set<int>)
    decreases Depth(c), 1
  {
    SubqueryDepth(c, ids);
    ChildrenKnown(store, c, before, ids) && Known(first, store, ChildrenQuery(c, before), ChildrenQuery(c, ids))
  }

  // ---------------------------------------------------------------- rows filtered once more

  /** A second filter after which everything that the limited rows hold is left, leaves them alone. */
  lemma LimitedAgain<T(!new)>(table: seq<T>, once: T -> bool, again: T -> bool, known: T -> bool, limit: Option<nat>)
    requires forall x :: again(x) <==> once(x) && known(x)
    requires forall x :: x in Take(Filter(table, once), limit) ==> known(x)
    ensures Take(Filter(table, again), limit) == Take(Filter(table, once), limit)
  {
    var rows := Filter(table, once);
    FilterTwice(table, once, known, again);
    if limit.Some? && limit.value < |rows| {
      var n := limit.value;
      assert rows == rows[..n] + rows[n..];
      FilterAppend(rows[..n], rows[n..], known);
      FilterAll(rows[..n], known);
      assert Filter(table, again)[..n] == rows[..n];
    } else {
      FilterAll(rows, known);
    }
  }

  lemma AgainKnown<T(!new)>(table: seq<T>, once: T -> bool, again: T -> bool, known: T -> bool, limit: Option<nat>,
                     x: T)
    requires forall x :: again(x) <==> once(x) && known(x)
    requires x in Take(Filter(table, again), limit)
    ensures known(x)
  {
    FilterHolds(table, again, x);
  }

  // ---------------------------------------------------------------- usage logs and links

  function OwnerIn(ids: set<int>): OwnedRow -> bool {
    (r: OwnedRow) => r.accountID in ids
  }

  lemma KeptDecodesAlike(q: OwnedQuery, keyed: bool, before: set<int>)
    ensures DecodeOwned(KeptOwned(q, before), keyed) == DecodeOwned(q, keyed)
  {
  }

  lemma KeptOwnedRows(table: seq<OwnedRow>, q: OwnedQuery, keyed: bool, before: set<int>, ids: set<int>)
    ensures OwnersKnown(table, q, before, ids) ==>
      OwnedRows(table, KeptOwned(q, before), keyed, ids) == OwnedRows(table, q, keyed, ids)
    ensures forall r :: r in OwnedRows(table, KeptOwned(q, before), keyed, ids) ==> r.accountID in before
  {
    var kept := KeptOwned(q, before);
    var once, again := OwnedIn(q, ids), OwnedIn(kept, ids);
    KeptDecodesAlike(q, keyed, before);
    if OwnersKnown(table, q, before, ids) {
      LimitedAgain(table, once, again, OwnerIn(before), q.limit);
    }
    var rows := Take(Filter(table, again), q.limit);
    forall r | r in OwnedRows(table, kept, keyed, ids)
      ensures r.accountID in before
    {
      var i :| 0 <= i < |rows| && DecodeOwned(kept, keyed)(rows[i]) == r;
      AgainKnown(table, once, again, OwnerIn(before), q.limit, rows[i]);
      DecodeOwnedKeepsOwner(kept, keyed, rows[i]);
    }
  }

  lemma UnknownOwnerShows(table: seq<OwnedRow>, q: OwnedQuery, keyed: bool, before: set<int>, nodes: seq<AccountRow>,
                          r: OwnedRow)
    requires r in Take(Filter(table, OwnedIn(q, IDs(nodes))), q.limit) && r.accountID !in before
    ensures !SameShares(OwnedRows(table, KeptOwned(q, before), keyed, IDs(nodes)),
                        OwnedRows(table, q, keyed, IDs(nodes)), nodes)
  {
    var ids := IDs(nodes);
    var a, b := OwnedRows(table, KeptOwned(q, before), keyed, ids), OwnedRows(table, q, keyed, ids);
    var rows := Take(Filter(table, OwnedIn(q, ids)), q.limit);
    FilterHolds(table, OwnedIn(q, ids), r);
    var i :| 0 <= i < |nodes| && nodes[i].id == r.accountID;
    var k :| 0 <= k < |rows| && rows[k] == r;
    DecodeOwnedKeepsOwner(q, keyed, r);
    assert b[k] in b && b[k].accountID == r.accountID;
    FilterKeeps(b, OwnedBy(r.accountID), b[k]);
    KeptOwnedRows(table, q, keyed, before, ids);
    FilterNone(a, OwnedBy(r.accountID));
  }

  lemma OwnedAgainExactly(table: seq<OwnedRow>, q: OwnedQuery, keyed: bool, before: set<int>, nodes: seq<AccountRow>)
    ensures SameShares(OwnedRows(table, KeptOwned(q, before), keyed, IDs(nodes)),
                       OwnedRows(table, q, keyed, IDs(nodes)), nodes)
            <==> OwnersKnown(table, q, before, IDs(nodes))
  {
    KeptOwnedRows(table, q, keyed, before, IDs(nodes));
    if !OwnersKnown(table, q, before, IDs(nodes)) {
      var r :| r in Take(Filter(table, OwnedIn(q, IDs(nodes))), q.limit) && r.accountID !in before;
      UnknownOwnerShows(table, q, keyed, before, nodes, r);
    }
  }

  // ---------------------------------------------------------------- proxies

  function TargetIn(ids: set<int>): TargetRow -> bool {
    (r: TargetRow) => r.id in ids
  }

  lemma KeptProxyRows(store: Store, q: TargetQuery, before: set<int>, ids: set<int>)
    requires before != {}
    ensures ProxiesKnown(store, q, before, ids) ==>
      ProxyRows(store, KeptTargets(q, before), ids) == ProxyRows(store, q, ids)
    ensures forall r :: r in ProxyRows(store, KeptTargets(q, before), ids) ==> r.id in before
  {
    var kept := KeptTargets(q, before);
    var once, again := WithID(q, ids), WithID(kept, ids);
    assert DecodeTarget(kept) == DecodeTarget(q);
    if ProxiesKnown(store, q, before, ids) {
      LimitedAgain(store.proxies, once, again, TargetIn(before), q.limit);
    }
    var rows := Take(Filter(store.proxies, again), q.limit);
    forall r | r in ProxyRows(store, kept, ids)
      ensures r.id in before
    {
      var i :| 0 <= i < |rows| && DecodeTarget(kept)(rows[i]) == r;
      AgainKnown(store.proxies, once, again, TargetIn(before), q.limit, rows[i]);
    }
  }

  lemma UnknownProxyShows(store: Store, q: TargetQuery, before: set<int>, nodes: seq<AccountRow>, r: TargetRow)
    requires r in Take(Filter(store.proxies, WithID(q, ProxyKeys(nodes))), q.limit) && r.id !in before && before != {}
    ensures var ids := ProxyKeys(nodes);
      !SameProxies(ProxyRows(store, KeptTargets(q, before), ids), ProxyRows(store, q, ids), nodes)
  {
    var ids := ProxyKeys(nodes);
    var a, b := ProxyRows(store, KeptTargets(q, before), ids), ProxyRows(store, q, ids);
    var rows := Take(Filter(store.proxies, WithID(q, ids)), q.limit);
    FilterHolds(store.proxies, WithID(q, ids), r);
    var i := KeyHasNode(nodes, ProxyKey(), r.id);
    var k :| 0 <= k < |rows| && rows[k] == r;
    assert b[k] in b && b[k].id == r.id;
    TargetPresent(b, r.id);
    KeptProxyRows(store, q, before, ids);
    TargetPresent(a, r.id);
    assert nodes[i].proxyID == Some(r.id);
  }

  lemma ProxiesAgainExactly(store: Store, q: TargetQuery, before: set<int>, nodes: seq<AccountRow>)
    requires before != {}
    ensures var ids := ProxyKeys(nodes);
      SameProxies(ProxyRows(store, KeptTargets(q, before), ids), ProxyRows(store, q, ids), nodes)
      <==> ProxiesKnown(store, q, before, ids)
  {
    var ids := ProxyKeys(nodes);
    KeptProxyRows(store, q, before, ids);
    if !ProxiesKnown(store, q, before, ids) {
      var r :| r in Take(Filter(store.proxies, WithID(q, ids)), q.limit) && r.id !in before;
      UnknownProxyShows(store, q, before, nodes, r);
    }
  }

  // ---------------------------------------------------------------- groups

  ghost predicate SameGroups(a: seq<JoinRow>, b: seq<JoinRow>, nodes: seq<AccountRow>) {
    forall i :: 0 <= i < |nodes| ==> GroupsFor(a, nodes[i].id) == GroupsFor(b, nodes[i].id)
  }

  lemma RowsGiveGroups(rows: seq<JoinRow>, nodes: seq<AccountRow>)
    requires rows != [] && rows[0].0 in IDs(nodes)
    ensures !SameGroups([], rows, nodes)
  {
    hide FirstTargets;
    var i :| 0 <= i < |nodes| && nodes[i].id == rows[0].0;
    var firsts := FirstTargets(rows);
    FirstsExact(rows);
    var k :| 0 <= k < |firsts| && firsts[k].id == rows[0].1.id;
    FilterKeeps(firsts, LinkedTo(rows, nodes[i].id), firsts[k]);
    NoRowsNoGroups(nodes[i].id);
  }

  lemma NoRowsNoGroups(account: int)
    ensures GroupsFor([], account) == []
  {
  }

  lemma {:induction false} LinkGivesRow(gs: seq<TargetRow>, links: seq<OwnedRow>, ids: set<int>, k: nat)
    requires k < |gs| && HasLinkTo(links, gs[k].id, ids)
    ensures Join(gs, links, ids) != []
  {
    if k == 0 {
      var l :| l in links && l.id == gs[0].id && l.accountID in ids;
      FilterKeeps(links, LinkOf(gs[0].id, ids), l);
    } else {
      LinkGivesRow(gs[1..], links, ids, k - 1);
    }
  }

  lemma RowsBefore(store: Store, q: TargetQuery, before: set<int>, ids: set<int>)
    requires q.joins == [] && AgainRows(store, KeptJoin(q, before), ids) != []
    ensures GroupRows(store, q, ids) != []
  {
    var again := JoinedAgain(store, KeptJoin(q, before), ids);
    var g := Filter(store.groups, again)[0];
    FilterHolds(store.groups, again, g);
    FilterKeeps(store.groups, q.keep, g);
    var kept := Filter(store.groups, q.keep);
    var k :| 0 <= k < |kept| && kept[k] == g;
    LinkGivesRow(Map(kept, DecodeTarget(q)), store.accountGroups, ids, k);
  }

  lemma StillSound(store: Store, q: TargetQuery, before: set<int>, ids: set<int>)
    requires AgainRows(store, q, ids) == []
    ensures AgainRows(store, KeptJoin(q, before), ids) == []
  {
    var kept := KeptJoin(q, before);
    var once, again := JoinedAgain(store, q, ids), JoinedAgain(store, kept, ids);
    if AgainRows(store, kept, ids) != [] {
      var g := Filter(store.groups, again)[0];
      FilterHolds(store.groups, again, g);
      forall i | 0 <= i < |q.joins|
        ensures HasLinkTo(store.accountGroups, g.id, q.joins[i])
      {
        assert kept.joins[i] == q.joins[i];
      }
      FilterKeeps(store.groups, once, g);
    }
  }

  /** A load of groups after others fails exactly if a group that the filter lets pass has a link to an account of every
      load; unless its limit is zero. */
  lemma AgainFailsExactly(store: Store, q: TargetQuery, ids: set<int>)
    requires q.joins != []
    ensures !GroupsSound(store, q, ids) <==>
      q.limit != Some(0)
      && exists g :: g in store.groups && q.keep(g) && HasLinkTo(store.accountGroups, g.id, ids)
                     && forall j :: j in q.joins ==> HasLinkTo(store.accountGroups, g.id, j)
  {
    hide HasLinkTo;
    var again := JoinedAgain(store, q, ids);
    var rows := Filter(store.groups, again);
    if !GroupsSound(store, q, ids) {
      FilterMember(store.groups, again, rows[0]);
      forall j | j in q.joins
        ensures HasLinkTo(store.accountGroups, rows[0].id, j)
      {
        var i :| 0 <= i < |q.joins| && q.joins[i] == j;
      }
    }
    if g :| g in store.groups && q.keep(g) && HasLinkTo(store.accountGroups, g.id, ids)
            && forall j :: j in q.joins ==> HasLinkTo(store.accountGroups, g.id, j) {
      forall i | 0 <= i < |q.joins|
        ensures HasLinkTo(store.accountGroups, g.id, q.joins[i])
      {
        assert q.joins[i] in q.joins;
      }
      FilterMember(store.groups, again, g);
    }
  }

  /** A load of groups after another can give none: it gives what a first load would exactly if that selects no row. */
  lemma GroupsAgainExactly(store: Store, q: TargetQuery, before: set<int>, nodes: seq<AccountRow>)
    requires GroupsSound(store, q, IDs(nodes))
    ensures var kept := KeptJoin(q, before);
      GroupsSound(store, kept, IDs(nodes))
      && SameGroups(GroupRows(store, kept, IDs(nodes)), GroupRows(store, q, IDs(nodes)), nodes)
      <==> GroupRows(store, q, IDs(nodes)) == []
  {
    hide AgainRows, Join;
    var ids := IDs(nodes);
    var rows := GroupRows(store, q, ids);
    assert GroupRows(store, KeptJoin(q, before), ids) == [];
    if q.joins != [] {
      StillSound(store, q, before, ids);
    } else if rows == [] {
      if AgainRows(store, KeptJoin(q, before), ids) != [] {
        RowsBefore(store, q, before, ids);
      }
    } else {
      JoinedAccounts(Map(Filter(store.groups, q.keep), DecodeTarget(q)), store.accountGroups, ids);
      RowsGiveGroups(rows, nodes);
    }
  }

  // ---------------------------------------------------------------- children

  /** The children query of the second run, and the fresh one. */
  function ChildrenAgain(first: Store, c: AccountQuery, before: set<int>, ids: set<int>): AccountQuery {
    ChildrenQuery(AfterRun(first, ChildrenQuery(c, before)), ids)
  }

  function UsedChildren(first: Store, c: AccountQuery, before: set<int>, ids: set<int>): AccountQuery {
    Used(first, ChildrenQuery(c, before), ChildrenQuery(c, ids))
  }

  lemma RootKept(store: Store, q: AccountQuery)
    ensures var r := AfterRun(store, q);
      r.predicates == q.predicates && r.limit == q.limit && r.fields == q.fields
  {
    hide AfterParent, AfterChildren, Nodes, KeptJoin, KeptTargets, KeptOwned, IDs, ParentKeys, ProxyKeys;
  }

  lemma ChildrenAgainIs(first: Store, c: AccountQuery, before: set<int>, ids: set<int>)
    ensures var x, y := ChildrenAgain(first, c, before, ids), UsedChildren(first, c, before, ids);
      x == y.(predicates := x.predicates) && x.limit == c.limit
  {
    RootKept(first, ChildrenQuery(c, before));
  }

  /** A query whose filters alone differ, and not in what they select, gets by alike. */
  lemma SoundByRows(store: Store, x: AccountQuery, y: AccountQuery)
    requires SelectRows(store.accounts, x) == SelectRows(store.accounts, y) && x == y.(predicates := x.predicates)
    ensures Sound(store, x) == Sound(store, y)
  {
    hide Sound, Nodes, SidesSound, ParentPart, ChildrenPart, Prepared;
    var nodes := Nodes(store, x);
    NodesByRows(store, x, y);
    PartsByRows(store, x, y, nodes);
    if nodes == [] {
      SoundWithoutNodes(store, x);
      SoundWithoutNodes(store, y);
    } else {
      SoundIs(store, x);
      SoundIs(store, y);
    }
  }

  lemma NodesByRows(store: Store, x: AccountQuery, y: AccountQuery)
    requires SelectRows(store.accounts, x) == SelectRows(store.accounts, y) && x == y.(predicates := x.predicates)
    ensures Nodes(store, x) == Nodes(store, y)
  {
    hide SelectRows;
    assert SpecColumns(x) == SpecColumns(y);
  }

  lemma PartsByRows(store: Store, x: AccountQuery, y: AccountQuery, nodes: seq<AccountRow>)
    requires x == y.(predicates := x.predicates)
    ensures Prepared(x) == Prepared(y) && SidesSound(store, x, nodes) == SidesSound(store, y, nodes)
    ensures ParentPart(store, x, nodes) == ParentPart(store, y, nodes)
    ensures ChildrenPart(store, x, nodes) == ChildrenPart(store, y, nodes)
  {
    hide ParentSound, Sound, GroupsSound;
  }

  function ParentInBefore(before: set<int>): AccountRow -> bool {
    (r: AccountRow) => r.parentID.Some? && r.parentID.value in before
  }

  lemma ChildrenAgainMatch(first: Store, c: AccountQuery, before: set<int>, ids: set<int>, r: AccountRow)
    ensures Matching(ChildrenAgain(first, c, before, ids))(r)
            <==> Matching(ChildrenQuery(c, ids))(r) && ParentInBefore(before)(r)
  {
    hide AfterRun;
    var child, kept := AppendFieldOnce(c, ParentAccountID), AfterRun(first, ChildrenQuery(c, before));
    RootKept(first, ChildrenQuery(c, before));
    MatchWhere(child, ParentIn(before), r);
    MatchWhere(child, ParentIn(ids), r);
    MatchWhere(AppendFieldOnce(kept, ParentAccountID), ParentIn(ids), r);
  }

  lemma ChildrenAgainRows(first: Store, store: Store, c: AccountQuery, before: set<int>, ids: set<int>)
    ensures ChildrenKnown(store, c, before, ids) ==>
      SelectRows(store.accounts, ChildrenAgain(first, c, before, ids))
      == SelectRows(store.accounts, ChildrenQuery(c, ids))
    ensures forall r :: r in SelectRows(store.accounts, ChildrenAgain(first, c, before, ids)) ==>
      ParentInBefore(before)(r)
  {
    hide AfterRun, ChildrenQuery, Nodes;
    var once, again := Matching(ChildrenQuery(c, ids)), Matching(ChildrenAgain(first, c, before, ids));
    forall r
      ensures again(r) <==> once(r) && ParentInBefore(before)(r)
    {
      ChildrenAgainMatch(first, c, before, ids, r);
    }
    ChildrenAgainIs(first, c, before, ids);
    if ChildrenKnown(store, c, before, ids) {
      LimitedAgain(store.accounts, once, again, ParentInBefore(before), c.limit);
    }
    forall r | r in SelectRows(store.accounts, ChildrenAgain(first, c, before, ids))
      ensures ParentInBefore(before)(r)
    {
      AgainKnown(store.accounts, once, again, ParentInBefore(before), c.limit, r);
    }
  }

  lemma NoSuchChild(first: Store, store: Store, c: AccountQuery, before: set<int>, ids: set<int>, id: int)
    requires id !in before
    ensures Filter(All(store, ChildrenAgain(first, c, before, ids)), ChildOf(id)) == []
  {
    hide All, AfterRun, SelectRows, Nodes, ChildrenQuery;
    var again := ChildrenAgain(first, c, before, ids);
    var a := All(store, again);
    ChildrenAgainRows(first, store, c, before, ids);
    forall t | t in a
      ensures !ChildOf(id)(t)
    {
      var j :| 0 <= j < |a| && a[j] == t;
      ChildTreeParent(store, AfterRun(first, ChildrenQuery(c, before)), ids, j);
      assert ParentInBefore(before)(SelectRows(store.accounts, again)[j]);
    }
    FilterNone(a, ChildOf(id));
  }

  lemma UnknownParentShows(first: Store, store: Store, c: AccountQuery, before: set<int>, nodes: seq<AccountRow>,
                           r: AccountRow)
    requires r in SelectRows(store.accounts, ChildrenQuery(c, IDs(nodes))) && !ParentInBefore(before)(r)
    ensures !SameFamilies(All(store, ChildrenAgain(first, c, before, IDs(nodes))),
                          All(store, ChildrenQuery(c, IDs(nodes))), nodes)
  {
    hide All, AfterRun, SelectRows, Nodes, ChildrenQuery;
    var ids := IDs(nodes);
    var b, rows := All(store, ChildrenQuery(c, ids)), SelectRows(store.accounts, ChildrenQuery(c, ids));
    ChildSelected(store, c, ids, r);
    var id := r.parentID.value;
    var i :| 0 <= i < |nodes| && nodes[i].id == id;
    var k :| 0 <= k < |rows| && rows[k] == r;
    TreeCount(store, ChildrenQuery(c, ids));
    ChildTreeParent(store, c, ids, k);
    FilterKeeps(b, ChildOf(id), b[k]);
    NoSuchChild(first, store, c, before, ids, id);
  }

  lemma ChildrenAligned(store: Store, c: AccountQuery, ids: set<int>, rows: seq<AccountRow>)
    requires rows == SelectRows(store.accounts, ChildrenQuery(c, ids))
    ensures var trees := All(store, ChildrenQuery(c, ids));
      |trees| == |rows| && forall i :: 0 <= i < |rows| ==> trees[i].row.parentID == rows[i].parentID
  {
    hide All, SelectRows, ChildrenQuery;
    TreeCount(store, ChildrenQuery(c, ids));
    forall i | 0 <= i < |rows|
      ensures All(store, ChildrenQuery(c, ids))[i].row.parentID == rows[i].parentID
    {
      ChildTreeParent(store, c, ids, i);
    }
  }

  lemma SameChildren(store: Store, x: AccountQuery, c: AccountQuery, nodes: seq<AccountRow>)
    requires var ids := IDs(nodes);
      && SelectRows(store.accounts, ChildrenQuery(x, ids)) == SelectRows(store.accounts, ChildrenQuery(c, ids))
      && SameFamilies(All(store, ChildrenQuery(x, ids)), All(store, ChildrenQuery(c, ids)), nodes)
    ensures All(store, ChildrenQuery(x, IDs(nodes))) == All(store, ChildrenQuery(c, IDs(nodes)))
  {
    hide *;
    var ids := IDs(nodes);
    var rows := SelectRows(store.accounts, ChildrenQuery(c, ids));
    ChildrenAligned(store, x, ids, rows);
    ChildrenAligned(store, c, ids, rows);
    forall i | 0 <= i < |rows|
      ensures rows[i].parentID.Some? && rows[i].parentID.value in ids
    {
      ChildSelected(store, c, ids, rows[i]);
    }
    SameByNodes(All(store, ChildrenQuery(x, ids)), All(store, ChildrenQuery(c, ids)), nodes);
  }

  lemma ChildrenAgainTrees(first: Store, store: Store, c: AccountQuery, before: set<int>, ids: set<int>)
    requires ChildrenKnown(store, c, before, ids)
    ensures All(store, ChildrenAgain(first, c, before, ids)) == All(store, UsedChildren(first, c, before, ids))
    ensures Sound(store, ChildrenAgain(first, c, before, ids)) == Sound(store, UsedChildren(first, c, before, ids))
  {
    hide All, Sound, AfterRun;
    var x, y := ChildrenAgain(first, c, before, ids), UsedChildren(first, c, before, ids);
    ChildrenAgainRows(first, store, c, before, ids);
    ChildrenAgainIs(first, c, before, ids);
    FilterSame(store.accounts, Matching(y), Matching(ChildrenQuery(c, ids)));
    AllByRows(store, x, y);
    SoundByRows(store, x, y);
  }

  lemma ChildrenAgainSame(first: Store, store: Store, c: AccountQuery, before: set<int>, nodes: seq<AccountRow>)
    requires ChildrenKnown(store, c, before, IDs(nodes))
    requires SameFamilies(All(store, ChildrenAgain(first, c, before, IDs(nodes))),
                          All(store, ChildrenQuery(c, IDs(nodes))), nodes)
    ensures All(store, ChildrenAgain(first, c, before, IDs(nodes))) == All(store, ChildrenQuery(c, IDs(nodes)))
  {
    hide All, AfterRun, IDs, SelectRows, ChildrenQuery, SameFamilies;
    ChildrenAgainRows(first, store, c, before, IDs(nodes));
    SameChildren(store, AfterRun(first, ChildrenQuery(c, before)), c, nodes);
  }

  /** Every node is given the same children by a load that gets by. */
  ghost predicate ChildrenAlike(store: Store, x: AccountQuery, f: AccountQuery, nodes: seq<AccountRow>) {
    Sound(store, x) && SameFamilies(All(store, x), All(store, f), nodes)
  }

  lemma ChildrenKnownExactly(first: Store, store: Store, c: AccountQuery, before: set<int>, nodes: seq<AccountRow>)
    requires ChildrenKnown(store, c, before, IDs(nodes))
    ensures ChildrenAlike(store, ChildrenAgain(first, c, before, IDs(nodes)), ChildrenQuery(c, IDs(nodes)), nodes)
            <==> RunsAlike(store, UsedChildren(first, c, before, IDs(nodes)), ChildrenQuery(c, IDs(nodes)))
  {
    hide All, Sound, AfterRun, IDs, ChildrenQuery, ChildrenKnown, ChildrenAgain, UsedChildren, SameFamilies;
    var ids := IDs(nodes);
    ChildrenAgainTrees(first, store, c, before, ids);
    if SameFamilies(All(store, ChildrenAgain(first, c, before, ids)), All(store, ChildrenQuery(c, ids)), nodes) {
      ChildrenAgainSame(first, store, c, before, nodes);
    }
    NoFamilyDiffers(All(store, ChildrenQuery(c, ids)), nodes);
  }

  lemma UnknownChildrenShow(first: Store, store: Store, c: AccountQuery, before: set<int>, nodes: seq<AccountRow>)
    requires !ChildrenKnown(store, c, before, IDs(nodes))
    ensures !SameFamilies(All(store, ChildrenAgain(first, c, before, IDs(nodes))),
                          All(store, ChildrenQuery(c, IDs(nodes))), nodes)
  {
    hide All, IDs, ChildrenAgain, SelectRows, ChildrenQuery, SameFamilies;
    var r :| r in SelectRows(store.accounts, ChildrenQuery(c, IDs(nodes)))
             && !(r.parentID.Some? && r.parentID.value in before);
    UnknownParentShows(first, store, c, before, nodes, r);
  }

  /** The children's query of an earlier run gives every node what a fresh one would exactly if each child belongs to a
      node of that run, and the children's own edges are alike. */
  lemma ChildrenAgainExactly(first: Store, store: Store, c: AccountQuery, before: set<int>, nodes: seq<AccountRow>)
    ensures ChildrenAlike(store, ChildrenAgain(first, c, before, IDs(nodes)), ChildrenQuery(c, IDs(nodes)), nodes)
            <==> ChildrenKnown(store, c, before, IDs(nodes))
                 && RunsAlike(store, UsedChildren(first, c, before, IDs(nodes)), ChildrenQuery(c, IDs(nodes)))
  {
    hide All, Sound, AfterRun, IDs, ChildrenQuery, ChildrenKnown, ChildrenAgain, UsedChildren, SameFamilies, RunsAlike;
    if ChildrenKnown(store, c, before, IDs(nodes)) {
      ChildrenKnownExactly(first, store, c, before, nodes);
    } else {
      UnknownChildrenShow(first, store, c, before, nodes);
    }
  }

  // ---------------------------------------------------------------- parents

  function ParentsAgain(first: Store, p: AccountQuery, before: set<int>, ids: set<int>): AccountQuery {
    ParentQuery(AfterRun(first, ParentQuery(p, before)), ids)
  }

  function UsedParents(first: Store, p: AccountQuery, before: set<int>, ids: set<int>): AccountQuery {
    Used(first, ParentQuery(p, before), ParentQuery(p, ids))
  }

  lemma ParentsAgainIs(first: Store, p: AccountQuery, before: set<int>, ids: set<int>)
    ensures var x, y := ParentsAgain(first, p, before, ids), UsedParents(first, p, before, ids);
      x == y.(predicates := x.predicates) && x.limit == p.limit
  {
    RootKept(first, ParentQuery(p, before));
  }

  function IDInBefore(before: set<int>): AccountRow -> bool {
    (r: AccountRow) => r.id in before
  }

  lemma ParentsAgainMatch(first: Store, p: AccountQuery, before: set<int>, ids: set<int>, r: AccountRow)
    ensures Matching(ParentsAgain(first, p, before, ids))(r)
            <==> Matching(ParentQuery(p, ids))(r) && IDInBefore(before)(r)
  {
    hide AfterRun;
    var kept := AfterRun(first, ParentQuery(p, before));
    RootKept(first, ParentQuery(p, before));
    MatchWhere(p, IDIn(before), r);
    MatchWhere(p, IDIn(ids), r);
    MatchWhere(kept, IDIn(ids), r);
  }

  lemma ParentsAgainRows(first: Store, store: Store, p: AccountQuery, before: set<int>, ids: set<int>)
    ensures ParentsKnown(store, p, before, ids) ==>
      SelectRows(store.accounts, ParentsAgain(first, p, before, ids)) == SelectRows(store.accounts, ParentQuery(p, ids))
    ensures forall r :: r in SelectRows(store.accounts, ParentsAgain(first, p, before, ids)) ==> r.id in before
  {
    hide AfterRun, ParentQuery, Nodes;
    var once, again := Matching(ParentQuery(p, ids)), Matching(ParentsAgain(first, p, before, ids));
    forall r
      ensures again(r) <==> once(r) && IDInBefore(before)(r)
    {
      ParentsAgainMatch(first, p, before, ids, r);
    }
    ParentsAgainIs(first, p, before, ids);
    if ParentsKnown(store, p, before, ids) {
      LimitedAgain(store.accounts, once, again, IDInBefore(before), p.limit);
    }
    forall r | r in SelectRows(store.accounts, ParentsAgain(first, p, before, ids))
      ensures r.id in before
    {
      AgainKnown(store.accounts, once, again, IDInBefore(before), p.limit, r);
    }
  }

  lemma UnknownTargetShows(first: Store, store: Store, p: AccountQuery, before: set<int>, nodes: seq<AccountRow>,
                           r: AccountRow)
    requires r in SelectRows(store.accounts, ParentQuery(p, ParentKeys(nodes))) && r.id !in before
    ensures !SameParents(All(store, ParentsAgain(first, p, before, ParentKeys(nodes))),
                         All(store, ParentQuery(p, ParentKeys(nodes))), nodes)
  {
    hide All, AfterRun, SelectRows, Nodes, ParentQuery, Present;
    var ids := ParentKeys(nodes);
    var a, b := All(store, ParentsAgain(first, p, before, ids)), All(store, ParentQuery(p, ids));
    var rows := SelectRows(store.accounts, ParentQuery(p, ids));
    ParentSelected(store, p, ids, r);
    var i := KeyHasNode(nodes, ParentKey(), r.id);
    assert nodes[i].parentID == Some(r.id);
    var k :| 0 <= k < |rows| && rows[k] == r;
    TreeCount(store, ParentQuery(p, ids));
    ParentTreeID(store, ParentQuery(p, ids), k);
    assert b[k] in b;
    TreePresent(b, r.id);
    ParentsAgainRows(first, store, p, before, ids);
    forall t | t in a
      ensures t.row.id != r.id
    {
      var j :| 0 <= j < |a| && a[j] == t;
      ParentTreeID(store, ParentsAgain(first, p, before, ids), j);
    }
    TreePresent(a, r.id);
  }

  lemma ParentsAligned(store: Store, p: AccountQuery, ids: set<int>, rows: seq<AccountRow>)
    requires rows == SelectRows(store.accounts, ParentQuery(p, ids))
    ensures var trees := All(store, ParentQuery(p, ids));
      |trees| == |rows| && forall i :: 0 <= i < |rows| ==> trees[i].row.id == rows[i].id
  {
    hide All, SelectRows, ParentQuery;
    TreeCount(store, ParentQuery(p, ids));
    forall i | 0 <= i < |rows|
      ensures All(store, ParentQuery(p, ids))[i].row.id == rows[i].id
    {
      ParentTreeID(store, ParentQuery(p, ids), i);
    }
  }

  lemma SameTargetsLoaded(store: Store, x: AccountQuery, p: AccountQuery, nodes: seq<AccountRow>)
    requires ValidStore(store)
    requires var ids := ParentKeys(nodes);
      && SelectRows(store.accounts, ParentQuery(x, ids)) == SelectRows(store.accounts, ParentQuery(p, ids))
      && SameParents(All(store, ParentQuery(x, ids)), All(store, ParentQuery(p, ids)), nodes)
    ensures All(store, ParentQuery(x, ParentKeys(nodes))) == All(store, ParentQuery(p, ParentKeys(nodes)))
  {
    hide *;
    var ids := ParentKeys(nodes);
    var rows := SelectRows(store.accounts, ParentQuery(p, ids));
    ParentsAligned(store, x, ids, rows);
    ParentsAligned(store, p, ids, rows);
    TreesDistinct(store, ParentQuery(x, ids));
    TreesDistinct(store, ParentQuery(p, ids));
    forall i | 0 <= i < |rows|
      ensures rows[i].id in ids
    {
      ParentSelected(store, p, ids, rows[i]);
    }
    SameByKeys(All(store, ParentQuery(x, ids)), All(store, ParentQuery(p, ids)), nodes);
  }

  lemma ParentsAgainTrees(first: Store, store: Store, p: AccountQuery, before: set<int>, ids: set<int>)
    requires ParentsKnown(store, p, before, ids)
    ensures All(store, ParentsAgain(first, p, before, ids)) == All(store, UsedParents(first, p, before, ids))
    ensures Sound(store, ParentsAgain(first, p, before, ids)) == Sound(store, UsedParents(first, p, before, ids))
  {
    hide All, Sound, AfterRun;
    var x, y := ParentsAgain(first, p, before, ids), UsedParents(first, p, before, ids);
    ParentsAgainRows(first, store, p, before, ids);
    ParentsAgainIs(first, p, before, ids);
    FilterSame(store.accounts, Matching(y), Matching(ParentQuery(p, ids)));
    AllByRows(store, x, y);
    SoundByRows(store, x, y);
  }

  lemma ParentsAgainSame(first: Store, store: Store, p: AccountQuery, before: set<int>, nodes: seq<AccountRow>)
    requires ValidStore(store) && ParentsKnown(store, p, before, ParentKeys(nodes))
    requires SameParents(All(store, ParentsAgain(first, p, before, ParentKeys(nodes))),
                         All(store, ParentQuery(p, ParentKeys(nodes))), nodes)
    ensures All(store, ParentsAgain(first, p, before, ParentKeys(nodes)))
            == All(store, ParentQuery(p, ParentKeys(nodes)))
  {
    hide All, AfterRun, ParentKeys, SelectRows, ParentQuery, SameParents;
    ParentsAgainRows(first, store, p, before, ParentKeys(nodes));
    SameTargetsLoaded(store, AfterRun(first, ParentQuery(p, before)), p, nodes);
  }

  /** Every node is given the same parent by a load that gets by. */
  ghost predicate ParentsAlike(store: Store, x: AccountQuery, f: AccountQuery, nodes: seq<AccountRow>) {
    Sound(store, x) && SameParents(All(store, x), All(store, f), nodes)
  }

  lemma ParentsKnownExactly(first: Store, store: Store, p: AccountQuery, before: set<int>, nodes: seq<AccountRow>)
    requires ValidStore(store) && ParentsKnown(store, p, before, ParentKeys(nodes))
    ensures var ids := ParentKeys(nodes);
      ParentsAlike(store, ParentsAgain(first, p, before, ids), ParentQuery(p, ids), nodes)
      <==> RunsAlike(store, UsedParents(first, p, before, ids), ParentQuery(p, ids))
  {
    hide All, Sound, AfterRun, ParentKeys, ParentQuery, ParentsKnown, ParentsAgain, UsedParents, SameParents,
      ValidStore;
    var ids := ParentKeys(nodes);
    ParentsAgainTrees(first, store, p, before, ids);
    if SameParents(All(store, ParentsAgain(first, p, before, ids)), All(store, ParentQuery(p, ids)), nodes) {
      ParentsAgainSame(first, store, p, before, nodes);
    }
    NothingDiffers(All(store, ParentQuery(p, ids)), nodes);
  }

  lemma UnknownParentsShow(first: Store, store: Store, p: AccountQuery, before: set<int>, nodes: seq<AccountRow>)
    requires !ParentsKnown(store, p, before, ParentKeys(nodes))
    ensures !SameParents(All(store, ParentsAgain(first, p, before, ParentKeys(nodes))),
                         All(store, ParentQuery(p, ParentKeys(nodes))), nodes)
  {
    hide All, ParentKeys, ParentsAgain, SelectRows, ParentQuery, SameParents;
    var r :| r in SelectRows(store.accounts, ParentQuery(p, ParentKeys(nodes))) && r.id !in before;
    UnknownTargetShows(first, store, p, before, nodes, r);
  }

  /** The parents' query of an earlier run gives every node what a fresh one would exactly if each parent belongs to a
      node of that run, and the parents' own edges are alike. */
  lemma ParentsAgainExactly(first: Store, store: Store, p: AccountQuery, before: set<int>, nodes: seq<AccountRow>)
    requires ValidStore(store)
    ensures var ids := ParentKeys(nodes);
      ParentsAlike(store, ParentsAgain(first, p, before, ids), ParentQuery(p, ids), nodes)
      <==> ParentsKnown(store, p, before, ids)
           && RunsAlike(store, UsedParents(first, p, before, ids), ParentQuery(p, ids))
  {
    hide All, Sound, AfterRun, ParentKeys, ParentQuery, ParentsKnown, ParentsAgain, UsedParents, SameParents, RunsAlike,
      ValidStore;
    if ParentsKnown(store, p, before, ParentKeys(nodes)) {
      ParentsKnownExactly(first, store, p, before, nodes);
    } else {
      UnknownParentsShow(first, store, p, before, nodes);
    }
  }

  // ---------------------------------------------------------------- the whole query

  predicate SameRequests(x: AccountQuery, f: AccountQuery) {
    && x.withGroups.Some? == f.withGroups.Some? && x.withProxy.Some? == f.withProxy.Some?
    && x.withParent.Some? == f.withParent.Some? && x.withChildren.Some? == f.withChildren.Some?
    && x.withUsageLogs.Some? == f.withUsageLogs.Some? && x.withAccountGroups.Some? == f.withAccountGroups.Some?
  }

  /** The edge queries that a run with nodes has left. */
  lemma UsedEdges(first: Store, q: AccountQuery, f: AccountQuery, before: seq<AccountRow>)
    requires SameEdgeQueries(q, f) && before == Nodes(first, q) && before != []
    ensures var x := Used(first, q, f);
      && x.withGroups == (if f.withGroups.Some? then Some(KeptJoin(f.withGroups.value, IDs(before))) else None)
      && x.withProxy == (if f.withProxy.Some?
                         then Some(KeptTargets(f.withProxy.value, ProxyKeys(before))) else None)
      && x.withParent == (if f.withParent.Some?
                          then Some(AfterParent(first, f.withParent.value, ParentKeys(before))) else None)
      && x.withChildren == (if f.withChildren.Some?
                            then Some(AfterChildren(first, f.withChildren.value, IDs(before))) else None)
      && x.withUsageLogs == (if f.withUsageLogs.Some?
                             then Some(KeptOwned(f.withUsageLogs.value, IDs(before))) else None)
      && x.withAccountGroups == (if f.withAccountGroups.Some?
                                 then Some(KeptOwned(f.withAccountGroups.value, IDs(before))) else None)
  {
    hide AfterRun, AfterParent, AfterChildren, KeptJoin, KeptTargets, KeptOwned, IDs, ParentKeys, ProxyKeys, Nodes;
    LoadsLeave(first, q, before);
  }

  lemma NothingRun(first: Store, q: AccountQuery, f: AccountQuery)
    requires SameEdgeQueries(q, f) && Nodes(first, q) == []
    ensures Used(first, q, f) == f
  {
    hide Nodes;
  }

  lemma UsedRequests(first: Store, q: AccountQuery, f: AccountQuery)
    requires SameEdgeQueries(q, f)
    ensures SameRequests(Used(first, q, f), f)
  {
    hide AfterRun, Used, Nodes;
    if Nodes(first, q) == [] {
      NothingRun(first, q, f);
    } else {
      UsedEdges(first, q, f, Nodes(first, q));
    }
  }

  lemma UsedRoot(first: Store, q: AccountQuery, f: AccountQuery)
    ensures var x := Used(first, q, f);
      x.predicates == f.predicates && x.limit == f.limit && x.fields == f.fields
  {
    hide AfterRun;
  }

  lemma SameRoot(store: Store, x: AccountQuery, f: AccountQuery)
    requires x.predicates == f.predicates && x.limit == f.limit && x.fields == f.fields
    requires x.withProxy.Some? == f.withProxy.Some? && x.withParent.Some? == f.withParent.Some?
    ensures Nodes(store, x) == Nodes(store, f)
  {
    assert SpecColumns(x) == SpecColumns(f);
    FilterSame(store.accounts, Matching(x), Matching(f));
  }

  lemma UsedNodes(first: Store, store: Store, q: AccountQuery, f: AccountQuery)
    requires SameEdgeQueries(q, f)
    ensures Nodes(store, Used(first, q, f)) == Nodes(store, f)
  {
    hide Used, Nodes;
    UsedRequests(first, q, f);
    UsedRoot(first, q, f);
    SameRoot(store, Used(first, q, f), f);
  }

  ghost predicate SidesAlike(f: AccountQuery, a: Edges, b: Edges, nodes: seq<AccountRow>) {
    && (f.withGroups.Some? ==> SameGroups(a.groups, b.groups, nodes))
    && (f.withProxy.Some? ==> SameProxies(a.proxies, b.proxies, nodes))
    && (f.withUsageLogs.Some? ==> SameShares(a.usageLogs, b.usageLogs, nodes))
    && (f.withAccountGroups.Some? ==> SameShares(a.accountGroups, b.accountGroups, nodes))
  }

  ghost predicate Alike(f: AccountQuery, a: Edges, b: Edges, nodes: seq<AccountRow>) {
    && SidesAlike(f, a, b, nodes)
    && (f.withParent.Some? ==> SameParents(a.parents, b.parents, nodes))
    && (f.withChildren.Some? ==> SameFamilies(a.children, b.children, nodes))
  }

  ghost predicate NodeAlike(f: AccountQuery, a: Edges, b: Edges, n: AccountRow) {
    && (f.withGroups.Some? ==> GroupsFor(a.groups, n.id) == GroupsFor(b.groups, n.id))
    && (f.withProxy.Some? ==> TargetFor(a.proxies, n.proxyID) == TargetFor(b.proxies, n.proxyID))
    && (f.withParent.Some? ==> TreeFor(a.parents, n.parentID) == TreeFor(b.parents, n.parentID))
    && (f.withChildren.Some? ==> Filter(a.children, ChildOf(n.id)) == Filter(b.children, ChildOf(n.id)))
    && (f.withUsageLogs.Some? ==> Filter(a.usageLogs, OwnedBy(n.id)) == Filter(b.usageLogs, OwnedBy(n.id)))
    && (f.withAccountGroups.Some? ==> Filter(a.accountGroups, OwnedBy(n.id)) == Filter(b.accountGroups, OwnedBy(n.id)))
  }

  lemma NodeAttachedAlike(x: AccountQuery, f: AccountQuery, a: Edges, b: Edges, n: AccountRow)
    requires SameRequests(x, f)
    ensures Attacher(x, a)(n) == Attacher(f, b)(n) <==> NodeAlike(f, a, b, n)
  {
    hide GroupsFor, TargetFor, TreeFor, Filter;
  }

  lemma NodesAlike(f: AccountQuery, a: Edges, b: Edges, nodes: seq<AccountRow>)
    ensures Alike(f, a, b, nodes) <==> forall i :: 0 <= i < |nodes| ==> NodeAlike(f, a, b, nodes[i])
  {
    hide GroupsFor, TargetFor, TreeFor, Filter;
  }

  /** Nodes with their shares are the same exactly if all shares are. */
  lemma AttachedAlike(x: AccountQuery, f: AccountQuery, a: Edges, b: Edges, nodes: seq<AccountRow>)
    requires SameRequests(x, f)
    ensures Map(nodes, Attacher(x, a)) == Map(nodes, Attacher(f, b)) <==> Alike(f, a, b, nodes)
  {
    hide Attacher, Alike, NodeAlike, SameRequests;
    var s, t := Map(nodes, Attacher(x, a)), Map(nodes, Attacher(f, b));
    NodesAlike(f, a, b, nodes);
    forall i | 0 <= i < |nodes|
      ensures s[i] == t[i] <==> NodeAlike(f, a, b, nodes[i])
    {
      NodeAttachedAlike(x, f, a, b, nodes[i]);
    }
  }

  lemma SidesAgainExactly(first: Store, store: Store, q: AccountQuery, f: AccountQuery, nodes: seq<AccountRow>)
    requires SameEdgeQueries(q, f) && Nodes(first, q) != [] && SidesSound(store, f, nodes)
    ensures var x := Used(first, q, f);
      SidesSound(store, x, nodes) && SidesAlike(f, EdgesOf(store, x, nodes), EdgesOf(store, f, nodes), nodes)
      <==> SidesKnown(store, f, Nodes(first, q), nodes)
  {
    hide Nodes, IDs, All, GroupRows, ProxyRows, OwnedRows, SameGroups, SameProxies, SameShares, AfterRun, KeptJoin,
      KeptTargets, KeptOwned, GroupsSound;
    var before := Nodes(first, q);
    UsedEdges(first, q, f, before);
    if f.withGroups.Some? {
      GroupsAgainExactly(store, f.withGroups.value, IDs(before), nodes);
    }
    if f.withProxy.Some? {
      if ProxyKeys(before) != {} {
        ProxiesAgainExactly(store, f.withProxy.value, ProxyKeys(before), nodes);
      } else {
        NoKeysKept(f.withProxy.value);
        SelfAlike(ProxyRows(store, f.withProxy.value, ProxyKeys(nodes)), nodes);
      }
    }
    if f.withUsageLogs.Some? {
      OwnedAgainExactly(store.usageLogs, f.withUsageLogs.value, true, IDs(before), nodes);
    }
    if f.withAccountGroups.Some? {
      OwnedAgainExactly(store.accountGroups, f.withAccountGroups.value, false, IDs(before), nodes);
    }
  }

  lemma NoKeysKept(q: TargetQuery)
    ensures KeptTargets(q, {}) == q
  {
  }

  lemma ParentPartIs(store: Store, q: AccountQuery, nodes: seq<AccountRow>)
    requires q.withParent.Some?
    ensures var p, ids := q.withParent.value, ParentKeys(nodes);
      ParentPart(store, q, nodes) == (ids == {} || Sound(store, ParentQuery(p, ids)))
  {
    hide Sound;
  }

  lemma ChildrenPartIs(store: Store, q: AccountQuery, nodes: seq<AccountRow>)
    requires q.withChildren.Some?
    ensures ChildrenPart(store, q, nodes) == Sound(store, ChildrenQuery(q.withChildren.value, IDs(nodes)))
  {
    hide Sound;
  }

  ghost predicate ParentEdgeAlike(store: Store, x: AccountQuery, f: AccountQuery, nodes: seq<AccountRow>) {
    && ParentPart(store, x, nodes)
    && SameParents(EdgesOf(store, x, nodes).parents, EdgesOf(store, f, nodes).parents, nodes)
  }

  ghost predicate ChildEdgeAlike(store: Store, x: AccountQuery, f: AccountQuery, nodes: seq<AccountRow>) {
    && ChildrenPart(store, x, nodes)
    && SameFamilies(EdgesOf(store, x, nodes).children, EdgesOf(store, f, nodes).children, nodes)
  }

  lemma {:induction false} ParentEdgeExactly(first: Store, store: Store, q: AccountQuery, f: AccountQuery,
                                             nodes: seq<AccountRow>)
    requires ValidStore(store) && SameEdgeQueries(q, f) && Nodes(first, q) != [] && f.withParent.Some?
    requires ParentPart(store, f, nodes)
    ensures ParentEdgeAlike(store, Used(first, q, f), f, nodes)
            <==> ParentEdgeKnown(first, store, f.withParent.value, ParentKeys(Nodes(first, q)), ParentKeys(nodes))
    decreases Depth(f), 0
  {
    hide Nodes, All, EdgesOf, IDs, ParentKeys, SameParents, Known, AfterRun, Used, Sound, ParentPart;
    var before, ids, p := ParentKeys(Nodes(first, q)), ParentKeys(nodes), f.withParent.value;
    UsedEdges(first, q, f, Nodes(first, q));
    ParentEdges(store, f, nodes);
    ParentEdges(store, Used(first, q, f), nodes);
    ParentPartIs(store, f, nodes);
    ParentPartIs(store, Used(first, q, f), nodes);
    if before == {} || ids == {} {
      NothingDiffers(EdgesOf(store, f, nodes).parents, nodes);
    } else {
      SubqueryDepth(p, ids);
      EdgesStay(p, before, ids);
      RunAgainExactly(first, store, ParentQuery(p, before), ParentQuery(p, ids));
      ParentsAgainExactly(first, store, p, before, nodes);
    }
  }

  lemma {:induction false} ChildEdgeExactly(first: Store, store: Store, q: AccountQuery, f: AccountQuery,
                                            nodes: seq<AccountRow>)
    requires ValidStore(store) && SameEdgeQueries(q, f) && Nodes(first, q) != [] && f.withChildren.Some?
    requires ChildrenPart(store, f, nodes)
    ensures ChildEdgeAlike(store, Used(first, q, f), f, nodes)
            <==> ChildEdgeKnown(first, store, f.withChildren.value, IDs(Nodes(first, q)), IDs(nodes))
    decreases Depth(f), 0
  {
    hide Nodes, All, EdgesOf, IDs, SameFamilies, Known, AfterRun, Used, Sound, ChildrenPart;
    var before, ids, c := IDs(Nodes(first, q)), IDs(nodes), f.withChildren.value;
    UsedEdges(first, q, f, Nodes(first, q));
    ChildEdges(store, f, nodes);
    ChildEdges(store, Used(first, q, f), nodes);
    ChildrenPartIs(store, f, nodes);
    ChildrenPartIs(store, Used(first, q, f), nodes);
    SubqueryDepth(c, ids);
    EdgesStay(c, before, ids);
    RunAgainExactly(first, store, ChildrenQuery(c, before), ChildrenQuery(c, ids));
    ChildrenAgainExactly(first, store, c, before, nodes);
  }

  lemma EdgesStay(q: AccountQuery, before: set<int>, ids: set<int>)
    ensures SameEdgeQueries(ParentQuery(q, before), ParentQuery(q, ids))
    ensures SameEdgeQueries(ChildrenQuery(q, before), ChildrenQuery(q, ids))
  {
  }

  lemma SoundIs(store: Store, q: AccountQuery)
    requires Nodes(store, q) != []
    ensures var nodes := Nodes(store, q);
      Sound(store, q) <==>
      Prepared(q) && SidesSound(store, q, nodes) && ParentPart(store, q, nodes) && ChildrenPart(store, q, nodes)
  {
    EdgesSoundIs(store, q);
    hide Nodes, SidesSound, Prepared, EdgesSound;
  }

  lemma EdgesSoundIs(store: Store, q: AccountQuery)
    requires Nodes(store, q) != []
    ensures var nodes := Nodes(store, q);
      EdgesSound(store, q) <==>
      SidesSound(store, q, nodes) && ParentPart(store, q, nodes) && ChildrenPart(store, q, nodes)
  {
    hide Nodes, SidesSound, ParentSound, Sound;
  }

  lemma SoundWithoutNodes(store: Store, q: AccountQuery)
    requires Nodes(store, q) == []
    ensures Sound(store, q) <==> Prepared(q)
  {
    hide Nodes, Prepared;
  }

  lemma SameFields(x: AccountQuery, f: AccountQuery)
    requires x.fields == f.fields
    ensures Prepared(x) == Prepared(f)
  {
  }

  lemma NotRequested(store: Store, x: AccountQuery, nodes: seq<AccountRow>)
    ensures x.withParent.None? ==> ParentPart(store, x, nodes)
    ensures x.withChildren.None? ==> ChildrenPart(store, x, nodes)
  {
  }

  /** A query that gets by is alike with another exactly if every edge is. */
  lemma EdgesAlike(store: Store, x: AccountQuery, f: AccountQuery, nodes: seq<AccountRow>)
    requires nodes == Nodes(store, f) == Nodes(store, x) && nodes != []
    requires SameRequests(x, f) && Prepared(x)
    ensures RunsAlike(store, x, f) <==>
      && SidesSound(store, x, nodes) && SidesAlike(f, EdgesOf(store, x, nodes), EdgesOf(store, f, nodes), nodes)
      && (f.withParent.Some? ==> ParentEdgeAlike(store, x, f, nodes))
      && (f.withChildren.Some? ==> ChildEdgeAlike(store, x, f, nodes))
  {
    hide Nodes, All, EdgesOf, Attacher, SidesSound, ParentPart, ChildrenPart, Sound, Prepared, SidesAlike, SameParents,
      SameFamilies;
    SoundIs(store, x);
    NotRequested(store, x, nodes);
    AllIsAttached(store, x);
    AllIsAttached(store, f);
    AttachedAlike(x, f, EdgesOf(store, x, nodes), EdgesOf(store, f, nodes), nodes);
  }

  /** After a run of q against the store first, its edge queries serve for f as well as fresh ones would: the run gets
      by and loads the same graphs, down to the last edge. That is so exactly when every row that the fresh ones select
      belongs to a node of the first run, and they select no groups. */
  lemma {:induction false} RunAgainExactly(first: Store, store: Store, q: AccountQuery, f: AccountQuery)
    requires ValidStore(store) && SameEdgeQueries(q, f) && Sound(store, f)
    ensures RunsAlike(store, Used(first, q, f), f) <==> Known(first, store, q, f)
    decreases Depth(f)
  {
    hide Nodes, All, EdgesOf, IDs, ParentKeys, SidesKnown, ParentEdgeKnown, ChildEdgeKnown, AfterRun, Used, SidesAlike,
      ParentEdgeAlike, ChildEdgeAlike, Sound, SidesSound, ParentPart, ChildrenPart, Prepared, ValidStore;
    var before, nodes, x := Nodes(first, q), Nodes(store, f), Used(first, q, f);
    UsedNodes(first, store, q, f);
    UsedRoot(first, q, f);
    SameFields(x, f);
    if before == [] {
      NothingRun(first, q, f);
    } else if nodes == [] {
      NothingLoaded(store, f);
      NothingLoaded(store, x);
      SoundWithoutNodes(store, f);
      SoundWithoutNodes(store, x);
    } else {
      SoundIs(store, f);
      UsedRequests(first, q, f);
      EdgesAlike(store, x, f, nodes);
      SidesAgainExactly(first, store, q, f, nodes);
      if f.withParent.Some? {
        ParentEdgeExactly(first, store, q, f, nodes);
      }
      if f.withChildren.Some? {
        ChildEdgeExactly(first, store, q, f, nodes);
      }
    }
  }

  // ---------------------------------------------------------------- two runs

  /** No groups query that the run reaches selects a row. */
  ghost predicate NoGroupsFound(store: Store, q: AccountQuery)
    decreases Depth(q), 0
  {
    var nodes := Nodes(store, q);
    nodes == [] ||
    (&& (q.withGroups.Some? ==> GroupRows(store, q.withGroups.value, IDs(nodes)) == [])
     && (q.withParent.Some? ==> NoParentGroups(store, q.withParent.value, ParentKeys(nodes)))
     && (q.withChildren.Some? ==> NoChildGroups(store, q.withChildren.value, IDs(nodes))))
  }

  ghost predicate NoParentGroups(store: Store, p: AccountQuery, keys: set<int>)
    decreases Depth(p), 1
  {
    keys == {} || (SubqueryDepth(p, keys); NoGroupsFound(store, ParentQuery(p, keys)))
  }

  ghost predicate NoChildGroups(store: Store, c: AccountQuery, ids: set<int>)
    decreases Depth(c), 1
  {
    SubqueryDepth(c, ids);
    NoGroupsFound(store, ChildrenQuery(c, ids))
  }

  lemma SidesOfSameRun(store: Store, f: AccountQuery, nodes: seq<AccountRow>)
    ensures SidesKnown(store, f, nodes, nodes)
            <==> (f.withGroups.Some? ==> GroupRows(store, f.withGroups.value, IDs(nodes)) == [])
  {
    hide IDs, ProxyKeys, GroupRows;
    if f.withProxy.Some? {
      var q, ids := f.withProxy.value, ProxyKeys(nodes);
      FilterFits(store.proxies, WithID(q, ids));
    }
    if f.withUsageLogs.Some? {
      FilterFits(store.usageLogs, OwnedIn(f.withUsageLogs.value, IDs(nodes)));
    }
    if f.withAccountGroups.Some? {
      FilterFits(store.accountGroups, OwnedIn(f.withAccountGroups.value, IDs(nodes)));
    }
  }

  lemma SameRunKnows(store: Store, q: AccountQuery, nodes: seq<AccountRow>)
    ensures q.withParent.Some? ==> ParentsKnown(store, q.withParent.value, ParentKeys(nodes), ParentKeys(nodes))
    ensures q.withChildren.Some? ==> ChildrenKnown(store, q.withChildren.value, IDs(nodes), IDs(nodes))
  {
    hide IDs, ParentKeys, SelectRows, ParentQuery, ChildrenQuery;
    if q.withParent.Some? {
      var p, ids := q.withParent.value, ParentKeys(nodes);
      forall r | r in SelectRows(store.accounts, ParentQuery(p, ids))
        ensures r.id in ids
      {
        ParentSelected(store, p, ids, r);
      }
    }
    if q.withChildren.Some? {
      var c, ids := q.withChildren.value, IDs(nodes);
      forall r | r in SelectRows(store.accounts, ChildrenQuery(c, ids))
        ensures r.parentID.Some? && r.parentID.value in ids
      {
        ChildSelected(store, c, ids, r);
      }
    }
  }

  lemma {:induction false} SameRunIsKnown(store: Store, q: AccountQuery)
    ensures Known(store, store, q, q) <==> NoGroupsFound(store, q)
    decreases Depth(q)
  {
    hide Nodes, SidesKnown, ParentsKnown, ChildrenKnown, IDs, ParentKeys, SelectRows, ParentQuery, ChildrenQuery,
      GroupRows;
    var nodes := Nodes(store, q);
    SidesOfSameRun(store, q, nodes);
    SameRunKnows(store, q, nodes);
    if q.withParent.Some? {
      SubqueryDepth(q.withParent.value, ParentKeys(nodes));
      SameRunIsKnown(store, ParentQuery(q.withParent.value, ParentKeys(nodes)));
    }
    if q.withChildren.Some? {
      SubqueryDepth(q.withChildren.value, IDs(nodes));
      SameRunIsKnown(store, ChildrenQuery(q.withChildren.value, IDs(nodes)));
    }
  }

  lemma UsedBySelf(store: Store, q: AccountQuery)
    ensures Used(store, q, q) == AfterRun(store, q)
  {
    RootKept(store, q);
  }

  lemma FoundAgain(store: Store, q: TargetQuery, ids: set<int>)
    requires GroupRows(store, q, ids) != []
    ensures !GroupsSound(store, KeptJoin(q, ids), ids)
  {
    hide GroupRows;
    var g := JoinedGroup(store, q, ids);
    var kept := KeptJoin(q, ids);
    JoinsStart(store, q, ids);
    assert JoinedAgain(store, kept, ids)(g);
    FilterKeeps(store.groups, JoinedAgain(store, kept, ids), g);
  }

  lemma JoinsStart(store: Store, q: TargetQuery, ids: set<int>)
    requires GroupRows(store, q, ids) != []
    ensures q.joins == [] && (q.limit.Some? ==> q.limit.value > 0)
  {
  }

  /** A group of the first row. */
  lemma JoinedGroup(store: Store, q: TargetQuery, ids: set<int>) returns (g: TargetRow)
    requires GroupRows(store, q, ids) != []
    ensures g in store.groups && q.keep(g) && HasLinkTo(store.accountGroups, g.id, ids)
  {
    var gs := Filter(store.groups, q.keep);
    var k := RowGivesLink(Map(gs, DecodeTarget(q)), store.accountGroups, ids);
    g := gs[k];
    FilterHolds(store.groups, q.keep, g);
  }

  lemma {:induction false} RowGivesLink(gs: seq<TargetRow>, links: seq<OwnedRow>, ids: set<int>) returns (k: nat)
    requires Join(gs, links, ids) != []
    ensures k < |gs| && HasLinkTo(links, gs[k].id, ids)
  {
    hide HasLinkTo, Filter;
    if Filter(links, LinkOf(gs[0].id, ids)) != [] {
      FirstGivesLink(gs[0].id, links, ids);
      return 0;
    }
    var j := RowGivesLink(gs[1..], links, ids);
    return j + 1;
  }

  lemma FirstGivesLink(gid: int, links: seq<OwnedRow>, ids: set<int>)
    requires Filter(links, LinkOf(gid, ids)) != []
    ensures HasLinkTo(links, gid, ids)
  {
    FilterHolds(links, LinkOf(gid, ids), Filter(links, LinkOf(gid, ids))[0]);
  }

  lemma ParentsFoundFail(store: Store, p: AccountQuery, ids: set<int>)
    requires ParentsKnown(store, p, ids, ids) && !Sound(store, AfterRun(store, ParentQuery(p, ids)))
    ensures !Sound(store, ParentsAgain(store, p, ids, ids))
  {
    hide Sound, AfterRun, ParentsKnown, ParentQuery;
    UsedBySelf(store, ParentQuery(p, ids));
    ParentsAgainTrees(store, store, p, ids, ids);
  }

  lemma ChildrenFoundFail(store: Store, c: AccountQuery, ids: set<int>)
    requires ChildrenKnown(store, c, ids, ids) && !Sound(store, AfterRun(store, ChildrenQuery(c, ids)))
    ensures !Sound(store, ChildrenAgain(store, c, ids, ids))
  {
    hide Sound, AfterRun, ChildrenKnown, ChildrenQuery;
    UsedBySelf(store, ChildrenQuery(c, ids));
    ChildrenAgainTrees(store, store, c, ids, ids);
  }

  /** Once groups are found, the same query fails. */
  lemma {:induction false} FoundGroupsFail(store: Store, q: AccountQuery)
    requires !NoGroupsFound(store, q)
    ensures !Sound(store, AfterRun(store, q))
    decreases Depth(q)
  {
    hide Nodes, IDs, ParentKeys, ParentQuery, ChildrenQuery, GroupRows, GroupsSound, Sound, ParentPart, ChildrenPart,
      AfterRun, Prepared, Used;
    var nodes, x := Nodes(store, q), AfterRun(store, q);
    UsedBySelf(store, q);
    UsedNodes(store, store, q, q);
    UsedEdges(store, q, q, nodes);
    SoundIs(store, x);
    SameRunKnows(store, q, nodes);
    if q.withGroups.Some? && GroupRows(store, q.withGroups.value, IDs(nodes)) != [] {
      FoundAgain(store, q.withGroups.value, IDs(nodes));
    } else if q.withParent.Some? && !NoParentGroups(store, q.withParent.value, ParentKeys(nodes)) {
      var p, ids := q.withParent.value, ParentKeys(nodes);
      SubqueryDepth(p, ids);
      FoundGroupsFail(store, ParentQuery(p, ids));
      ParentsFoundFail(store, p, ids);
      ParentPartIs(store, x, nodes);
    } else {
      var c, ids := q.withChildren.value, IDs(nodes);
      SubqueryDepth(c, ids);
      FoundGroupsFail(store, ChildrenQuery(c, ids));
      ChildrenFoundFail(store, c, ids);
      ChildrenPartIs(store, x, nodes);
    }
  }

  /** A query run a second time against an unchanged store fails exactly when the first run found groups; otherwise it
      gives the same graphs, though its edge queries have changed. */
  lemma RunTwice(store: Store, q: AccountQuery)
    requires ValidStore(store) && Sound(store, q)
    ensures Sound(store, AfterRun(store, q)) <==> NoGroupsFound(store, q)
    ensures Sound(store, AfterRun(store, q)) ==> All(store, AfterRun(store, q)) == All(store, q)
  {
    hide All, Sound, AfterRun, NoGroupsFound, Used, Known, Nodes, ValidStore;
    SameRunIsKnown(store, q);
    UsedBySelf(store, q);
    RunAgainExactly(store, store, q, q);
    if !NoGroupsFound(store, q) {
      FoundGroupsFail(store, q);
    }
  }

  function Plain(limit: Option<nat>, children: Option<AccountQuery>): AccountQuery {
    AccountQuery([], limit, [], None, None, None, children, None, None)
  }

  /** Accounts 1 and 2, and account 3, a child of account 2. */
  const FAMILY: seq<AccountRow> := [
    AccountRow(1, None, None, map[]), AccountRow(2, None, None, map[]), AccountRow(3, None, Some(2), map[])]

  lemma PlainSelects(limit: Option<nat>, children: Option<AccountQuery>)
    ensures SelectRows(FAMILY, Plain(limit, children)) == Take(FAMILY, limit)
  {
    FilterAll(FAMILY, Matching(Plain(limit, children)));
  }

  lemma NodeID(store: Store, q: AccountQuery, i: nat)
    requires i < |SelectRows(store.accounts, q)|
    ensures |Nodes(store, q)| == |SelectRows(store.accounts, q)|
    ensures Nodes(store, q)[i].id == SelectRows(store.accounts, q)[i].id
  {
    hide SelectRows;
    DecodeKeepsKeys(q, SelectRows(store.accounts, q)[i]);
  }

  lemma FirstID(store: Store, children: Option<AccountQuery>)
    requires store.accounts == FAMILY
    ensures IDs(Nodes(store, Plain(Some(1), children))) == {1}
  {
    hide SelectRows, Nodes;
    PlainSelects(Some(1), children);
    NodeID(store, Plain(Some(1), children), 0);
    var nodes := Nodes(store, Plain(Some(1), children));
    assert |nodes| == 1 && nodes[0].id == 1;
  }

  lemma SecondID(store: Store, children: Option<AccountQuery>)
    requires store.accounts == FAMILY
    ensures 2 in IDs(Nodes(store, Plain(Some(3), children)))
  {
    hide SelectRows, Nodes;
    PlainSelects(Some(3), children);
    NodeID(store, Plain(Some(3), children), 1);
    assert Nodes(store, Plain(Some(3), children))[1].id == 2;
  }

  lemma SomeIDs(nodes: seq<AccountRow>, id: int)
    requires id in IDs(nodes)
    ensures nodes != []
  {
  }

  lemma ThirdIsSelected(ids: set<int>)
    requires 2 in ids
    ensures FAMILY[2] in SelectRows(FAMILY, ChildrenQuery(Plain(None, None), ids))
  {
    var child := Plain(None, None);
    assert AppendFieldOnce(child, ParentAccountID) == child;
    MatchWhere(child, ParentIn(ids), FAMILY[2]);
    FilterKeeps(FAMILY, Matching(ChildrenQuery(child, ids)), FAMILY[2]);
  }

  predicate NoEdges(q: AccountQuery) {
    && q.withGroups.None? && q.withProxy.None? && q.withParent.None? && q.withChildren.None?
    && q.withUsageLogs.None? && q.withAccountGroups.None?
  }

  lemma NothingLeft(store: Store, q: AccountQuery)
    requires NoEdges(q)
    ensures AfterRun(store, q) == q
  {
    hide AfterRun, Nodes;
    if Nodes(store, q) == [] {
      NothingRun(store, q, q);
      UsedBySelf(store, q);
    } else {
      LoadsLeave(store, q, Nodes(store, q));
    }
  }

  lemma PlainIsSound(store: Store, q: AccountQuery)
    requires q.fields == [] && q.withParent.None? && (q.withGroups.Some? ==> q.withGroups.value.joins == [])
    requires q.withChildren.Some? ==> NoEdges(q.withChildren.value) && q.withChildren.value.fields == []
    ensures Sound(store, q)
  {
    hide Nodes, Sound, SidesSound;
    var nodes := Nodes(store, q);
    if nodes == [] {
      SoundWithoutNodes(store, q);
    } else {
      assert SidesSound(store, q, nodes) by {
        NoJoins(store, q, nodes);
      }
      SoundIs(store, q);
      if q.withChildren.Some? {
        LeafIsSound(store, ChildrenQuery(q.withChildren.value, IDs(nodes)));
        ChildrenPartIs(store, q, nodes);
      }
    }
  }

  lemma NoJoins(store: Store, q: AccountQuery, nodes: seq<AccountRow>)
    requires q.withGroups.Some? ==> q.withGroups.value.joins == []
    ensures SidesSound(store, q, nodes)
  {
  }

  lemma LeafIsSound(store: Store, q: AccountQuery)
    requires NoEdges(q) && q.fields == []
    ensures Sound(store, q)
  {
    hide Nodes, Sound;
    if Nodes(store, q) == [] {
      SoundWithoutNodes(store, q);
    } else {
      NoJoins(store, q, Nodes(store, q));
      SoundIs(store, q);
    }
  }

  /** One query with children, run with Limit(1) and then with Limit(3): the second run does not find the child of
      account 2. */
  lemma LargerPageMisses()
    ensures var store, children := Store(FAMILY, [], [], [], []), Some(Plain(None, None));
      All(store, Used(store, Plain(Some(1), children), Plain(Some(3), children)))
      != All(store, Plain(Some(3), children))
  {
    hide All, Used, Nodes, IDs, SelectRows, ChildrenQuery, Sound;
    var store, child := Store(FAMILY, [], [], [], []), Plain(None, None);
    var q, f := Plain(Some(1), Some(child)), Plain(Some(3), Some(child));
    FirstID(store, Some(child));
    SecondID(store, Some(child));
    SomeIDs(Nodes(store, q), 1);
    SomeIDs(Nodes(store, f), 2);
    ThirdIsSelected(IDs(Nodes(store, f)));
    assert FAMILY[2].parentID == Some(2);
    assert !ChildrenKnown(store, child, {1}, IDs(Nodes(store, f)));
    UsedIsSound(store, q, f, child);
    PlainIsSound(store, f);
    RunAgainExactly(store, store, q, f);
  }

  lemma UsedIsSound(store: Store, q: AccountQuery, f: AccountQuery, child: AccountQuery)
    requires q == Plain(Some(1), Some(child)) && f == Plain(Some(3), Some(child)) && child == Plain(None, None)
    requires Nodes(store, q) != []
    ensures Sound(store, Used(store, q, f))
  {
    hide Nodes, Sound, IDs, AfterRun, Used;
    var ids := IDs(Nodes(store, q));
    UsedEdges(store, q, f, Nodes(store, q));
    assert AfterChildren(store, child, ids) == AfterRun(store, ChildrenQuery(child, ids));
    NothingLeft(store, ChildrenQuery(child, ids));
    UsedRoot(store, q, f);
    PlainIsSound(store, Used(store, q, f));
  }

  function AllGroups(): TargetRow -> bool {
    (r: TargetRow) => true
  }

  /** An account with a group, and a query that loads it: run a second time, the query fails. */
  lemma SecondRunFails()
    ensures var store := Store([AccountRow(1, None, None, map[])], [TargetRow(7, map[])], [], [],
                               [OwnedRow(7, 1, map[])]);
      var q := Plain(None, None).(withGroups := Some(TargetQuery(AllGroups(), None, [], [])));
      ValidStore(store) && Sound(store, q) && !Sound(store, AfterRun(store, q))
  {
    hide Nodes, Sound, AfterRun, GroupRows, NoGroupsFound;
    var a, g, l := AccountRow(1, None, None, map[]), TargetRow(7, map[]), OwnedRow(7, 1, map[]);
    var store, groups := Store([a], [g], [], [], [l]), TargetQuery(AllGroups(), None, [], []);
    var q := Plain(None, None).(withGroups := Some(groups));
    PlainIsSound(store, q);
    OneNode(store, q, a);
    OneGroup(store, groups, g, l);
    GroupsFound(store, q);
    FoundGroupsFail(store, q);
  }

  lemma OneNode(store: Store, q: AccountQuery, a: AccountRow)
    requires store.accounts == [a] && q.predicates == [] && q.limit.None?
    ensures Nodes(store, q) != [] && IDs(Nodes(store, q)) == {a.id}
  {
    hide Decode;
    FilterAll(store.accounts, Matching(q));
    DecodeKeepsKeys(q, a);
    var nodes := Nodes(store, q);
    assert |nodes| == 1 && nodes[0].id == a.id;
  }

  lemma OneGroup(store: Store, q: TargetQuery, g: TargetRow, l: OwnedRow)
    requires store.groups == [g] && store.accountGroups == [l] && l.id == g.id
    requires q == TargetQuery(AllGroups(), None, [], [])
    ensures GroupRows(store, q, {l.accountID}) != []
  {
    hide Join;
    FilterAll(store.groups, AllGroups());
    assert l in store.accountGroups;
    LinkGivesRow(Map(store.groups, DecodeTarget(q)), store.accountGroups, {l.accountID}, 0);
  }

  lemma GroupsFound(store: Store, q: AccountQuery)
    requires q.withGroups.Some? && Nodes(store, q) != []
    requires GroupRows(store, q.withGroups.value, IDs(Nodes(store, q))) != []
    ensures !NoGroupsFound(store, q)
  {
    hide Nodes, GroupRows, IDs;
  }

  function WithGroups(limit: Option<nat>): AccountQuery {
    Plain(limit, None).(withGroups := Some(TargetQuery(AllGroups(), None, [], [])))
  }

  const PAIR: Store := Store(
    [AccountRow(1, None, None, map[]), AccountRow(2, None, None, map[])], [TargetRow(7, map[])], [], [],
    [OwnedRow(7, 2, map[])])

  lemma PairSelected(limit: Option<nat>)
    ensures SelectRows(PAIR.accounts, WithGroups(limit)) == Take(PAIR.accounts, limit)
  {
    FilterAll(PAIR.accounts, Matching(WithGroups(limit)));
  }

  lemma PairNodes()
    ensures IDs(Nodes(PAIR, WithGroups(Some(1)))) == {1} && Nodes(PAIR, WithGroups(Some(1))) != []
    ensures IDs(Nodes(PAIR, WithGroups(Some(3)))) == {1, 2} && Nodes(PAIR, WithGroups(Some(3))) != []
  {
    hide SelectRows, Nodes, WithGroups;
    PairSelected(Some(1));
    PairSelected(Some(3));
    NodeID(PAIR, WithGroups(Some(1)), 0);
    NodeID(PAIR, WithGroups(Some(3)), 0);
    NodeID(PAIR, WithGroups(Some(3)), 1);
    var one, both := Nodes(PAIR, WithGroups(Some(1))), Nodes(PAIR, WithGroups(Some(3)));
    assert |one| == 1 && one[0].id == 1 && |both| == 2 && both[0].id == 1 && both[1].id == 2;
  }

  lemma SecondJoinIsEmpty(used: AccountQuery, kept: TargetQuery)
    requires used.withGroups == Some(kept) && kept.joins == [{1}]
    ensures SidesSound(PAIR, used, Nodes(PAIR, used))
  {
    hide Nodes, IDs;
    assert kept.joins[0] in kept.joins && forall gid :: !HasLinkTo(PAIR.accountGroups, gid, {1});
    AgainFailsExactly(PAIR, kept, IDs(Nodes(PAIR, used)));
  }

  lemma FoundIsUnknown(first: Store, store: Store, q: AccountQuery, f: AccountQuery)
    requires Nodes(first, q) != [] && Nodes(store, f) != [] && f.withGroups.Some?
    requires GroupRows(store, f.withGroups.value, IDs(Nodes(store, f))) != []
    ensures !Known(first, store, q, f)
  {
    hide Nodes, IDs, GroupRows;
  }

  lemma PairRunsAgain()
    ensures var q, f := WithGroups(Some(1)), WithGroups(Some(3)); Sound(PAIR, f) && Sound(PAIR, Used(PAIR, q, f))
  {
    hide Nodes, Sound, IDs, AfterRun, Used, SidesSound;
    var q, f := WithGroups(Some(1)), WithGroups(Some(3));
    var used := Used(PAIR, q, f);
    PairNodes();
    UsedEdges(PAIR, q, f, Nodes(PAIR, q));
    UsedRoot(PAIR, q, f);
    UsedNodes(PAIR, PAIR, q, f);
    SecondJoinIsEmpty(used, used.withGroups.value);
    SoundIs(PAIR, used);
    NotRequested(PAIR, used, Nodes(PAIR, used));
    PlainIsSound(PAIR, f);
  }

  /** An account without groups and one with a group: with a limit of one, and then of three, the second run gets by,
      and does not find the group. */
  lemma GroupsGoMissing()
    ensures var q, f := WithGroups(Some(1)), WithGroups(Some(3));
      && ValidStore(PAIR) && Sound(PAIR, f)
      && Sound(PAIR, Used(PAIR, q, f)) && All(PAIR, Used(PAIR, q, f)) != All(PAIR, f)
  {
    hide Nodes, Sound, IDs, AfterRun, Used, GroupRows, All, Known;
    var q, f := WithGroups(Some(1)), WithGroups(Some(3));
    PairNodes();
    PairRunsAgain();
    PairGroupFound(f.withGroups.value);
    FoundIsUnknown(PAIR, PAIR, q, f);
    RunAgainExactly(PAIR, PAIR, q, f);
  }

  lemma PairGroupFound(q: TargetQuery)
    requires q == TargetQuery(AllGroups(), None, [], [])
    ensures GroupRows(PAIR, q, {1, 2}) != []
  {
    hide Join;
    FilterAll(PAIR.groups, AllGroups());
    assert PAIR.accountGroups[0] in PAIR.accountGroups;
    LinkGivesRow(Map(PAIR.groups, DecodeTarget(q)), PAIR.accountGroups, {1, 2}, 0);
  }
}
