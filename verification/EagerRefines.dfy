/** Batched eager loading gives every account what its own queries would have given it. */
module EagerRefines {
  import opened Common
  import opened AccountSchema
  import opened EagerSpec

  /** No edge query, at any depth, has a limit of its own, and no groups query was joined before. */
  predicate PlainEdges(q: AccountQuery)
    decreases Depth(q)
  {
    && (q.withGroups.Some? ==> q.withGroups.value.limit.None? && q.withGroups.value.joins == [])
    && (q.withProxy.Some? ==> q.withProxy.value.limit.None?)
    && (q.withUsageLogs.Some? ==> q.withUsageLogs.value.limit.None?)
    && (q.withAccountGroups.Some? ==> q.withAccountGroups.value.limit.None?)
    && (q.withParent.Some? ==> q.withParent.value.limit.None? && PlainEdges(q.withParent.value))
    && (q.withChildren.Some? ==> q.withChildren.value.limit.None? && PlainEdges(q.withChildren.value))
  }

  function NestedFn(store: Store, q: AccountQuery): AccountRow -> AccountTree {
    (r: AccountRow) => Nested(store, q, r)
  }

  // ---------------------------------------------------------------- narrowing

  lemma BaseKeepsFields(fields: seq<Column>, c: Column)
    requires c in fields
    ensures c in BaseColumns(fields)
  {
    if c != ID {
      FilterKeeps(fields, NotID(), c);
    }
  }

  ghost predicate StartsWithID(columns: seq<Column>) {
    columns != [] && columns[0] == ID && forall i :: 1 <= i < |columns| ==> columns[i] != ID
  }

  lemma AllColumnsStartWithID()
    ensures StartsWithID(COLUMNS)
  {
  }

  lemma BaseStartsWithID(fields: seq<Column>)
    ensures StartsWithID(BaseColumns(fields))
  {
    var rest := Filter(fields, NotID());
    forall i | 0 <= i < |rest|
      ensures rest[i] != ID
    {
      assert NotID()(rest[i]);
    }
  }

  lemma AppendKeepsStart(wanted: bool, columns: seq<Column>, c: Column)
    requires StartsWithID(columns) && c != ID
    ensures StartsWithID(AppendIf(wanted, columns, c))
  {
  }

  lemma NarrowedStartsWithID(q: AccountQuery)
    ensures StartsWithID(NarrowedColumns(q))
  {
    var base := BaseColumns(q.fields);
    BaseStartsWithID(q.fields);
    AppendKeepsStart(q.withProxy.Some?, base, ProxyID);
    AppendKeepsStart(q.withParent.Some?, AppendIf(q.withProxy.Some?, base, ProxyID), ParentAccountID);
  }

  /** The projection starts with the id, and has it once. */
  lemma ProjectionStartsWithID(q: AccountQuery)
    ensures StartsWithID(SpecColumns(q))
  {
    if q.fields == [] {
      AllColumnsStartWithID();
    } else {
      NarrowedStartsWithID(q);
    }
  }

  lemma KeyColumnsAreColumns()
    ensures ProxyID in COLUMNS && ParentAccountID in COLUMNS
  {
    assert COLUMNS[10] == ProxyID && COLUMNS[30] == ParentAccountID;
  }

  lemma NarrowedKeepsKeys(q: AccountQuery)
    ensures q.withProxy.Some? ==> ProxyID in NarrowedColumns(q)
    ensures q.withParent.Some? ==> ParentAccountID in NarrowedColumns(q)
    ensures forall c :: c in q.fields ==> c in NarrowedColumns(q)
  {
    forall c | c in q.fields
      ensures c in NarrowedColumns(q)
    {
      BaseKeepsFields(q.fields, c);
    }
  }

  /** It has every selected column, and every foreign key a requested edge needs. */
  lemma ProjectionKeepsKeys(q: AccountQuery)
    ensures q.withProxy.Some? ==> ProxyID in SpecColumns(q)
    ensures q.withParent.Some? ==> ParentAccountID in SpecColumns(q)
    ensures forall c :: c in q.fields ==> c in SpecColumns(q)
  {
    if q.fields == [] {
      KeyColumnsAreColumns();
    } else {
      NarrowedKeepsKeys(q);
    }
  }

  /** A child query projects the key its rows are distributed by. */
  lemma ChildProjectionKeepsParent(q: AccountQuery)
    ensures ParentAccountID in SpecColumns(AppendFieldOnce(q, ParentAccountID))
  {
    if q.fields == [] {
      KeyColumnsAreColumns();
    } else {
      ProjectionKeepsKeys(AppendFieldOnce(q, ParentAccountID));
    }
  }

  /** So decoding keeps all keys the loader reads. */
  lemma DecodeKeepsKeys(q: AccountQuery, r: AccountRow)
    ensures Decode(q)(r).id == r.id
    ensures q.withProxy.Some? ==> Decode(q)(r).proxyID == r.proxyID
    ensures q.withParent.Some? ==> Decode(q)(r).parentID == r.parentID
    ensures Decode(AppendFieldOnce(q, ParentAccountID))(r).parentID == r.parentID
  {
    ProjectionStartsWithID(q);
    ProjectionKeepsKeys(q);
    ChildProjectionKeepsParent(q);
  }

  lemma DecodeOwnedKeepsOwner(q: OwnedQuery, keyed: bool, r: OwnedRow)
    ensures DecodeOwned(q, keyed)(r).accountID == r.accountID
  {
  }

  // ---------------------------------------------------------------- one edge at a time

  lemma MatchWhere(q: AccountQuery, p: Predicate, r: AccountRow)
    ensures Matching(Where(q, p))(r) <==> Matching(q)(r) && Holds(p, r)
  {
    var ps := q.predicates + [p];
    assert ps[|q.predicates|] == p && forall i :: 0 <= i < |q.predicates| ==> ps[i] == q.predicates[i];
  }

  lemma DecodeIgnoresWhere(q: AccountQuery, p: Predicate, r: AccountRow)
    ensures Decode(Where(q, p))(r) == Decode(q)(r)
  {
    assert SpecColumns(Where(q, p)) == SpecColumns(q);
  }

  /** A node is assembled the same way whatever selected it. */
  lemma NestedIgnoresWhere(store: Store, q: AccountQuery, p: Predicate, r: AccountRow)
    ensures Nested(store, Where(q, p), r) == Nested(store, q, r)
  {
    DecodeIgnoresWhere(q, p, r);
    var a, b := Nested(store, Where(q, p), r), Nested(store, q, r);
    assert a.row == b.row;
    assert a.parent == b.parent;
    assert a.children == b.children;
  }

  function HasParent(id: int): AccountRow -> bool {
    (r: AccountRow) => r.parentID == Some(id)
  }

  lemma ChildrenOfOne(store: Store, q: AccountQuery, ids: set<int>, id: int)
    requires id in ids
    ensures Filter(Filter(store.accounts, Matching(ChildrenQuery(q, ids))), HasParent(id))
            == Filter(store.accounts, Matching(ChildrenQuery(q, {id})))
  {
    var child := AppendFieldOnce(q, ParentAccountID);
    forall r
      ensures Matching(ChildrenQuery(q, {id}))(r) <==> Matching(ChildrenQuery(q, ids))(r) && HasParent(id)(r)
    {
      MatchWhere(child, ParentIn(ids), r);
      MatchWhere(child, ParentIn({id}), r);
    }
    FilterTwice(store.accounts, Matching(ChildrenQuery(q, ids)), HasParent(id), Matching(ChildrenQuery(q, {id})));
  }

  lemma NestedChildrenIs(store: Store, q: AccountQuery, id: int)
    ensures NestedChildren(store, q, id)
            == Map(Filter(store.accounts, Matching(ChildrenQuery(q, {id}))),
                   NestedFn(store, AppendFieldOnce(q, ParentAccountID)))
  {
  }

  lemma ChildNode(store: Store, q: AccountQuery, ids: set<int>, id: int, r: AccountRow)
    ensures var all, child := ChildrenQuery(q, ids), AppendFieldOnce(q, ParentAccountID);
      && NestedFn(store, all)(r) == NestedFn(store, child)(r)
      && ChildOf(id)(NestedFn(store, all)(r)) == HasParent(id)(r)
  {
    NestedIgnoresWhere(store, AppendFieldOnce(q, ParentAccountID), ParentIn(ids), r);
    DecodeKeepsKeys(q, r);
  }

  lemma ChildNodesAgree(store: Store, q: AccountQuery, ids: set<int>, id: int)
    ensures var all, child := ChildrenQuery(q, ids), AppendFieldOnce(q, ParentAccountID);
      forall r :: NestedFn(store, all)(r) == NestedFn(store, child)(r)
                  && ChildOf(id)(NestedFn(store, all)(r)) == HasParent(id)(r)
  {
    var all, child := ChildrenQuery(q, ids), AppendFieldOnce(q, ParentAccountID);
    forall r
      ensures NestedFn(store, all)(r) == NestedFn(store, child)(r)
              && ChildOf(id)(NestedFn(store, all)(r)) == HasParent(id)(r)
    {
      ChildNode(store, q, ids, id, r);
    }
  }

  lemma ChildrenAgree(store: Store, q: AccountQuery, ids: set<int>, id: int, trees: seq<AccountTree>)
    requires id in ids
    requires trees
             == Map(Filter(store.accounts, Matching(ChildrenQuery(q, ids))), NestedFn(store, ChildrenQuery(q, ids)))
    ensures Filter(trees, ChildOf(id)) == NestedChildren(store, q, id)
  {
    ChildNodesAgree(store, q, ids, id);
    FilterThenMap(Filter(store.accounts, Matching(ChildrenQuery(q, ids))), NestedFn(store, ChildrenQuery(q, ids)),
                  NestedFn(store, AppendFieldOnce(q, ParentAccountID)), ChildOf(id), HasParent(id));
    ChildrenOfOne(store, q, ids, id);
    NestedChildrenIs(store, q, id);
  }

  function HasID(id: int): AccountRow -> bool {
    (r: AccountRow) => r.id == id
  }

  lemma ParentsOfOne(store: Store, q: AccountQuery, ids: set<int>, id: int)
    requires id in ids
    ensures Filter(Filter(store.accounts, Matching(ParentQuery(q, ids))), HasID(id))
            == Filter(store.accounts, Matching(ParentQuery(q, {id})))
  {
    forall r
      ensures Matching(ParentQuery(q, {id}))(r) <==> Matching(ParentQuery(q, ids))(r) && HasID(id)(r)
    {
      MatchWhere(q, IDIn(ids), r);
      MatchWhere(q, IDIn({id}), r);
    }
    FilterTwice(store.accounts, Matching(ParentQuery(q, ids)), HasID(id), Matching(ParentQuery(q, {id})));
  }

  lemma {:induction false} DistinctRows(rows: seq<AccountRow>, p: AccountRow -> bool)
    requires DistinctAccounts(rows)
    ensures DistinctAccounts(Filter(rows, p))
  {
    if rows != [] {
      var rest := Filter(rows[1..], p);
      DistinctRows(rows[1..], p);
      FilterFrom(rows[1..], p);
      forall i | 0 <= i < |rest|
        ensures rest[i].id != rows[0].id
      {
        assert rest[i] in rows[1..];
      }
    }
  }

  /** Among rows with distinct ids the lookup by key finds the one row with that id. */
  lemma {:induction false} TreeForUnique(rows: seq<AccountRow>, f: AccountRow -> AccountTree, id: int)
    requires DistinctAccounts(rows) && forall r :: r in rows ==> f(r).row.id == r.id
    ensures TreeFor(Map(rows, f), Some(id))
            == match FirstOf(Filter(rows, HasID(id))) case None => None case Some(r) => Some(f(r))
    decreases |rows|
  {
    if rows != [] {
      var init, last := rows[..|rows| - 1], rows[|rows| - 1];
      assert rows == init + [last];
      TreeForUnique(init, f, id);
      assert Map(rows, f)[..|init|] == Map(init, f) && Map(rows, f)[|init|] == f(last);
      FilterSnoc(init, last, HasID(id));
      if last.id == id {
        forall r | r in init
          ensures !HasID(id)(r)
        {
        }
        FilterNone(init, HasID(id));
      }
    }
  }

  lemma ParentNode(store: Store, q: AccountQuery, ids: set<int>, r: AccountRow)
    ensures NestedFn(store, ParentQuery(q, ids))(r) == Nested(store, q, r)
    ensures NestedFn(store, ParentQuery(q, ids))(r).row.id == r.id
  {
    NestedIgnoresWhere(store, q, IDIn(ids), r);
    DecodeKeepsKeys(q, r);
  }

  lemma NestedParentIs(store: Store, q: AccountQuery, k: int)
    ensures NestedParent(store, q, Some(k))
            == match FirstOf(Filter(store.accounts, Matching(ParentQuery(q, {k}))))
               case None => None
               case Some(r) => Some(Nested(store, q, r))
  {
  }

  lemma NoKeyNoParent(store: Store, q: AccountQuery, trees: seq<AccountTree>)
    ensures TreeFor(trees, None) == None && NestedParent(store, q, None) == None
  {
  }

  lemma ParentAgrees(store: Store, q: AccountQuery, ids: set<int>, key: Option<int>, trees: seq<AccountTree>)
    requires ValidStore(store) && (key.Some? ==> key.value in ids)
    requires trees == Map(Filter(store.accounts, Matching(ParentQuery(q, ids))), NestedFn(store, ParentQuery(q, ids)))
    ensures TreeFor(trees, key) == NestedParent(store, q, key)
  {
    NoKeyNoParent(store, q, trees);
    if key.Some? {
      ParentWithKeyAgrees(store, q, ids, key.value, trees);
    }
  }

  lemma ParentWithKeyAgrees(store: Store, q: AccountQuery, ids: set<int>, k: int, trees: seq<AccountTree>)
    requires ValidStore(store) && k in ids
    requires trees == Map(Filter(store.accounts, Matching(ParentQuery(q, ids))), NestedFn(store, ParentQuery(q, ids)))
    ensures TreeFor(trees, Some(k)) == NestedParent(store, q, Some(k))
  {
    hide Nested, NestedFn, NestedParent, Matching, TreeFor, ParentQuery, Filter, Map, HasID, Depth;
    var all := ParentQuery(q, ids);
    var rows := Filter(store.accounts, Matching(all));
    DistinctRows(store.accounts, Matching(all));
    forall r
      ensures NestedFn(store, all)(r).row.id == r.id
      ensures NestedFn(store, all)(r) == Nested(store, q, r)
    {
      ParentNode(store, q, ids, r);
    }
    TreeForUnique(rows, NestedFn(store, all), k);
    ParentsOfOne(store, q, ids, k);
    NestedParentIs(store, q, k);
  }

  function IsTarget(id: int): TargetRow -> bool {
    (r: TargetRow) => r.id == id
  }

  lemma {:induction false} DistinctTargetRows(rows: seq<TargetRow>, p: TargetRow -> bool)
    requires DistinctTargets(rows)
    ensures DistinctTargets(Filter(rows, p))
  {
    if rows != [] {
      var rest := Filter(rows[1..], p);
      DistinctTargetRows(rows[1..], p);
      FilterFrom(rows[1..], p);
      forall i | 0 <= i < |rest|
        ensures rest[i].id != rows[0].id
      {
        assert rest[i] in rows[1..];
      }
    }
  }

  lemma {:induction false} TargetForUnique(rows: seq<TargetRow>, f: TargetRow -> TargetRow, id: int)
    requires DistinctTargets(rows) && forall r :: r in rows ==> f(r).id == r.id
    ensures TargetFor(Map(rows, f), Some(id))
            == match FirstOf(Filter(rows, IsTarget(id))) case None => None case Some(r) => Some(f(r))
    decreases |rows|
  {
    if rows != [] {
      var init, last := rows[..|rows| - 1], rows[|rows| - 1];
      assert rows == init + [last];
      TargetForUnique(init, f, id);
      assert Map(rows, f)[..|init|] == Map(init, f) && Map(rows, f)[|init|] == f(last);
      FilterSnoc(init, last, IsTarget(id));
      if last.id == id {
        forall r | r in init
          ensures !IsTarget(id)(r)
        {
        }
        FilterNone(init, IsTarget(id));
      }
    }
  }

  lemma ProxiesOfOne(store: Store, q: TargetQuery, ids: set<int>, id: int)
    requires id in ids
    ensures Filter(Filter(store.proxies, WithID(q, ids)), IsTarget(id)) == Filter(store.proxies, WithID(q, {id}))
  {
    FilterTwice(store.proxies, WithID(q, ids), IsTarget(id), WithID(q, {id}));
  }

  lemma ProxyAgrees(store: Store, q: TargetQuery, ids: set<int>, key: Option<int>)
    requires ValidStore(store) && q.limit.None? && (key.Some? ==> key.value in ids)
    ensures TargetFor(ProxyRows(store, q, ids), key) == NestedProxy(store, q, key)
  {
    if key.Some? {
      DistinctTargetRows(store.proxies, WithID(q, ids));
      TargetForUnique(Filter(store.proxies, WithID(q, ids)), DecodeTarget(q), key.value);
      ProxiesOfOne(store, q, ids, key.value);
    }
  }

  lemma OwnedAgrees(table: seq<OwnedRow>, q: OwnedQuery, keyed: bool, ids: set<int>, id: int)
    requires q.limit.None? && id in ids
    ensures Filter(OwnedRows(table, q, keyed, ids), OwnedBy(id)) == NestedOwned(table, q, keyed, id)
  {
    var rows := Filter(table, OwnedIn(q, ids));
    forall r
      ensures OwnedBy(id)(DecodeOwned(q, keyed)(r)) == OwnedBy(id)(r)
    {
      DecodeOwnedKeepsOwner(q, keyed, r);
    }
    FilterOfMap(rows, DecodeOwned(q, keyed), OwnedBy(id), OwnedBy(id));
    FilterTwice(table, OwnedIn(q, ids), OwnedBy(id), OwnedIn(q, {id}));
  }

  // ---------------------------------------------------------------- groups

  /** The join rows of one group. */
  function Block(g: TargetRow, links: seq<OwnedRow>, ids: set<int>): seq<JoinRow> {
    Map(Filter(links, LinkOf(g.id, ids)), Joined(g))
  }

  lemma {:induction false} JoinSnoc(gs: seq<TargetRow>, g: TargetRow, links: seq<OwnedRow>, ids: set<int>)
    ensures Join(gs + [g], links, ids) == Join(gs, links, ids) + Block(g, links, ids)
  {
    if gs == [] {
      assert gs + [g] == [g];
      assert [g][1..] == [];
    } else {
      assert (gs + [g])[1..] == gs[1..] + [g];
      JoinSnoc(gs[1..], g, links, ids);
      AppendAssociates(Block(gs[0], links, ids), Join(gs[1..], links, ids), Block(g, links, ids));
    }
  }

  ghost predicate AllOf(block: seq<JoinRow>, g: TargetRow) {
    forall i :: 0 <= i < |block| ==> block[i].1 == g
  }

  /** A run of rows of one new group adds that group once. */
  lemma {:induction false} FirstOfBlock(rows: seq<JoinRow>, block: seq<JoinRow>, g: TargetRow)
    requires AllOf(block, g) && g.id !in TargetIDs(FirstTargets(rows))
    ensures FirstTargets(rows + block) == FirstTargets(rows) + (if block == [] then [] else [g])
    decreases |block|
  {
    if block == [] {
      assert rows + block == rows;
    } else {
      var init := block[..|block| - 1];
      FirstOfBlock(rows, init, g);
      assert (rows + block)[..|rows + block| - 1] == rows + init;
      if init != [] {
        var firsts := FirstTargets(rows) + [g];
        assert firsts[|firsts| - 1].id == g.id;
      }
    }
  }

  function HasLink(links: seq<OwnedRow>, ids: set<int>): TargetRow -> bool {
    (g: TargetRow) => Filter(links, LinkOf(g.id, ids)) != []
  }

  lemma {:induction false} FirstsOfJoin(gs: seq<TargetRow>, links: seq<OwnedRow>, ids: set<int>)
    requires DistinctTargets(gs)
    ensures FirstTargets(Join(gs, links, ids)) == Filter(gs, HasLink(links, ids))
    decreases |gs|
  {
    if gs != [] {
      var init, g := gs[..|gs| - 1], gs[|gs| - 1];
      assert gs == init + [g];
      FirstsOfJoin(init, links, ids);
      JoinSnoc(init, g, links, ids);
      FilterSnoc(init, g, HasLink(links, ids));
      FilterFrom(init, HasLink(links, ids));
      var firsts := FirstTargets(Join(init, links, ids));
      forall i | 0 <= i < |firsts|
        ensures firsts[i].id != g.id
      {
        assert firsts[i] in init;
      }
      FirstOfBlock(Join(init, links, ids), Block(g, links, ids), g);
    }
  }

  ghost predicate IsLinked(links: seq<OwnedRow>, account: int, gid: int) {
    exists l :: l in links && l.id == gid && l.accountID == account
  }

  lemma {:induction false} JoinedAccounts(gs: seq<TargetRow>, links: seq<OwnedRow>, ids: set<int>)
    ensures forall i :: 0 <= i < |Join(gs, links, ids)| ==> Join(gs, links, ids)[i].0 in ids
  {
    if gs != [] {
      JoinedAccounts(gs[1..], links, ids);
      var kept := Filter(links, LinkOf(gs[0].id, ids));
      assert forall i :: 0 <= i < |kept| ==> LinkOf(gs[0].id, ids)(kept[i]);
    }
  }

  lemma BlockLinks(g: TargetRow, links: seq<OwnedRow>, ids: set<int>, account: int, gid: int)
    ensures (account, gid) in Links(Block(g, links, ids))
            <==> g.id == gid && account in ids && IsLinked(links, account, gid)
  {
    var kept := Filter(links, LinkOf(g.id, ids));
    var block := Block(g, links, ids);
    if g.id == gid && account in ids && IsLinked(links, account, gid) {
      var l :| l in links && l.id == gid && l.accountID == account;
      FilterKeeps(links, LinkOf(g.id, ids), l);
      var j :| 0 <= j < |kept| && kept[j] == l;
      assert block[j] == (account, g);
    }
    if (account, gid) in Links(block) {
      var j :| 0 <= j < |block| && block[j].0 == account && block[j].1.id == gid;
      FilterHolds(links, LinkOf(g.id, ids), kept[j]);
      assert block[j] == Joined(g)(kept[j]);
    }
  }

  lemma LinksAppend(rows: seq<JoinRow>, more: seq<JoinRow>)
    ensures Links(rows + more) == Links(rows) + Links(more)
  {
    forall x
      ensures x in Links(rows + more) <==> x in Links(rows) || x in Links(more)
    {
      if x in Links(rows) {
        var i :| 0 <= i < |rows| && x == (rows[i].0, rows[i].1.id);
        assert (rows + more)[i] == rows[i];
      }
      if x in Links(more) {
        var i :| 0 <= i < |more| && x == (more[i].0, more[i].1.id);
        assert (rows + more)[|rows| + i] == more[i];
      }
    }
  }

  lemma {:induction false} LinksOfJoin(gs: seq<TargetRow>, links: seq<OwnedRow>, ids: set<int>, account: int, gid: int)
    ensures (account, gid) in Links(Join(gs, links, ids))
            <==> gid in TargetIDs(gs) && account in ids && IsLinked(links, account, gid)
    decreases |gs|
  {
    if gs != [] {
      LinksOfJoin(gs[1..], links, ids, account, gid);
      LinksAppend(Block(gs[0], links, ids), Join(gs[1..], links, ids));
      BlockLinks(gs[0], links, ids, account, gid);
      assert gid in TargetIDs(gs) <==> gs[0].id == gid || gid in TargetIDs(gs[1..]) by {
        if gid in TargetIDs(gs[1..]) {
          var i :| 0 <= i < |gs[1..]| && gs[1..][i].id == gid;
          assert gs[i + 1].id == gid;
        }
        if gid in TargetIDs(gs) {
          var i :| 0 <= i < |gs| && gs[i].id == gid;
          assert i > 0 ==> gs[1..][i - 1].id == gid;
        }
      }
    }
  }

  function LinkedGroupRow(links: seq<OwnedRow>, account: int): TargetRow -> bool {
    (g: TargetRow) => exists l :: l in links && l.id == g.id && l.accountID == account
  }

  /** Joined, loaded and distributed, the groups of an account are those linked to it, in table order. */
  lemma GroupsOfJoin(gs: seq<TargetRow>, links: seq<OwnedRow>, ids: set<int>, account: int)
    requires DistinctTargets(gs) && account in ids
    ensures GroupsFor(Join(gs, links, ids), account) == Filter(gs, LinkedGroupRow(links, account))
  {
    var rows := Join(gs, links, ids);
    FirstsOfJoin(gs, links, ids);
    forall g | g in gs
      ensures LinkedGroupRow(links, account)(g) <==> HasLink(links, ids)(g) && LinkedTo(rows, account)(g)
    {
      var i :| 0 <= i < |gs| && gs[i] == g;
      assert g.id in TargetIDs(gs);
      LinksOfJoin(gs, links, ids, account, g.id);
      if l :| l in links && l.id == g.id && l.accountID == account {
        FilterKeeps(links, LinkOf(g.id, ids), l);
      }
    }
    FilterTwice(gs, HasLink(links, ids), LinkedTo(rows, account), LinkedGroupRow(links, account));
  }

  lemma GroupsAgree(store: Store, q: TargetQuery, ids: set<int>, account: int)
    requires ValidStore(store) && q.limit.None? && q.joins == [] && account in ids
    ensures GroupsFor(GroupRows(store, q, ids), account) == NestedGroups(store, q, account)
  {
    var kept := Filter(store.groups, q.keep);
    var gs := Map(kept, DecodeTarget(q));
    DistinctTargetRows(store.groups, q.keep);
    GroupsOfJoin(gs, store.accountGroups, ids, account);
    FilterOfMap(kept, DecodeTarget(q), LinkedGroupRow(store.accountGroups, account),
                LinkedGroupRow(store.accountGroups, account));
    FilterTwice(store.groups, q.keep, LinkedGroupRow(store.accountGroups, account), LinkedGroup(store, q, account));
  }

  // ---------------------------------------------------------------- the whole query

  /** The batched result of q is, row by row, the nested one. */
  ghost predicate IsNested(store: Store, q: AccountQuery) {
    All(store, q) == Map(SelectRows(store.accounts, q), NestedFn(store, q))
  }

  ghost predicate EdgesNested(store: Store, q: AccountQuery, nodes: seq<AccountRow>) {
    && (q.withParent.Some? && Present(Map(nodes, ParentKey())) != {} ==>
          IsNested(store, ParentQuery(q.withParent.value, Present(Map(nodes, ParentKey())))))
    && (q.withChildren.Some? ==> IsNested(store, ChildrenQuery(q.withChildren.value, IDs(nodes))))
  }

  lemma ParentEdgeAgrees(store: Store, s: AccountQuery, keys: set<int>, key: Option<int>)
    requires ValidStore(store) && s.limit.None? && (key.Some? ==> key.value in keys)
    requires keys != {} ==> IsNested(store, ParentQuery(s, keys))
    ensures TreeFor(if keys != {} then All(store, ParentQuery(s, keys)) else [], key) == NestedParent(store, s, key)
  {
    hide All, Matching, NestedFn;
    NoKeyNoParent(store, s, []);
    if keys != {} {
      ParentAgrees(store, s, keys, key, All(store, ParentQuery(s, keys)));
    }
  }

  lemma ChildrenEdgeAgrees(store: Store, s: AccountQuery, ids: set<int>, id: int)
    requires s.limit.None? && id in ids
    requires IsNested(store, ChildrenQuery(s, ids))
    ensures Filter(All(store, ChildrenQuery(s, ids)), ChildOf(id)) == NestedChildren(store, s, id)
  {
    hide NestedChildren, NestedFn, ChildOf, All, Matching;
    ChildrenAgree(store, s, ids, id, All(store, ChildrenQuery(s, ids)));
  }

  lemma SideEdgesAgree(store: Store, q: AccountQuery, nodes: seq<AccountRow>, i: nat)
    requires ValidStore(store) && PlainEdges(q) && i < |nodes|
    ensures var e, n := EdgesOf(store, q, nodes), nodes[i];
      && (q.withGroups.Some? ==> GroupsFor(e.groups, n.id) == NestedGroups(store, q.withGroups.value, n.id))
      && (q.withProxy.Some? ==> TargetFor(e.proxies, n.proxyID) == NestedProxy(store, q.withProxy.value, n.proxyID))
      && (q.withUsageLogs.Some? ==>
            Filter(e.usageLogs, OwnedBy(n.id)) == NestedOwned(store.usageLogs, q.withUsageLogs.value, true, n.id))
      && (q.withAccountGroups.Some? ==>
            Filter(e.accountGroups, OwnedBy(n.id))
            == NestedOwned(store.accountGroups, q.withAccountGroups.value, false, n.id))
  {
    var n, ids := nodes[i], IDs(nodes);
    assert n.id in ids;
    if q.withGroups.Some? { GroupsAgree(store, q.withGroups.value, ids, n.id); }
    if q.withProxy.Some? {
      assert Map(nodes, ProxyKey())[i] == n.proxyID;
      ProxyAgrees(store, q.withProxy.value, Present(Map(nodes, ProxyKey())), n.proxyID);
    }
    if q.withUsageLogs.Some? { OwnedAgrees(store.usageLogs, q.withUsageLogs.value, true, ids, n.id); }
    if q.withAccountGroups.Some? { OwnedAgrees(store.accountGroups, q.withAccountGroups.value, false, ids, n.id); }
  }

  lemma AccountEdgesAgree(store: Store, q: AccountQuery, nodes: seq<AccountRow>, i: nat)
    requires ValidStore(store) && PlainEdges(q) && i < |nodes|
    requires EdgesNested(store, q, nodes)
    ensures var e, n := EdgesOf(store, q, nodes), nodes[i];
      && (q.withParent.Some? ==> TreeFor(e.parents, n.parentID) == NestedParent(store, q.withParent.value, n.parentID))
      && (q.withChildren.Some? ==>
          Filter(e.children, ChildOf(n.id)) == NestedChildren(store, q.withChildren.value, n.id))
  {
    hide All, TreeFor, ChildOf, ParentQuery, ChildrenQuery, NestedParent, NestedChildren, GroupRows, ProxyRows,
        OwnedRows;
    if q.withParent.Some? {
      assert Map(nodes, ParentKey())[i] == nodes[i].parentID;
      ParentEdgeAgrees(store, q.withParent.value, Present(Map(nodes, ParentKey())), nodes[i].parentID);
    }
    if q.withChildren.Some? {
      assert nodes[i].id in IDs(nodes);
      ChildrenEdgeAgrees(store, q.withChildren.value, IDs(nodes), nodes[i].id);
    }
  }

  lemma NodeAgrees(store: Store, q: AccountQuery, rows: seq<AccountRow>, i: nat)
    requires ValidStore(store) && PlainEdges(q) && i < |rows|
    requires EdgesNested(store, q, Map(rows, Decode(q)))
    ensures Attach(q, Decode(q)(rows[i]), EdgesOf(store, q, Map(rows, Decode(q)))) == Nested(store, q, rows[i])
  {
    var nodes := Map(rows, Decode(q));
    DecodeKeepsKeys(q, rows[i]);
    assert nodes[i] == Decode(q)(rows[i]);
    SideEdgesAgree(store, q, nodes, i);
    AccountEdgesAgree(store, q, nodes, i);
  }

  lemma NodesAgree(store: Store, q: AccountQuery)
    requires ValidStore(store) && PlainEdges(q)
    requires EdgesNested(store, q, Nodes(store, q))
    ensures IsNested(store, q)
  {
    hide Nested, EdgesOf, Attach, PlainEdges, SelectRows, Decode;
    var rows := SelectRows(store.accounts, q);
    forall i | 0 <= i < |rows|
      ensures All(store, q)[i] == NestedFn(store, q)(rows[i])
    {
      NodeAgrees(store, q, rows, i);
    }
  }

  lemma SubqueryBound(q: AccountQuery, s: AccountQuery, ids: set<int>)
    requires PlainEdges(q) && (q.withParent == Some(s) || q.withChildren == Some(s))
    ensures Depth(ParentQuery(s, ids)) < Depth(q) && Depth(ChildrenQuery(s, ids)) < Depth(q)
    ensures PlainEdges(ParentQuery(s, ids)) && PlainEdges(ChildrenQuery(s, ids))
  {
    SubqueryDepth(s, ids);
    assert PlainEdges(s);
    StaysUnlimited(s, AppendFieldOnce(s, ParentAccountID).fields, s.predicates + [IDIn(ids)]);
    StaysUnlimited(s, AppendFieldOnce(s, ParentAccountID).fields, s.predicates + [ParentIn(ids)]);
    StaysUnlimited(s, s.fields, s.predicates + [IDIn(ids)]);
  }

  lemma StaysUnlimited(s: AccountQuery, fields: seq<Column>, predicates: seq<Predicate>)
    requires PlainEdges(s)
    ensures PlainEdges(s.(fields := fields, predicates := predicates))
  {
  }

  /** Batched eager loading, nested to any depth and narrowed to any columns, equals one query per node and
      edge, as long as no edge query carries a limit. */
  lemma {:induction false} BatchedIsNested(store: Store, q: AccountQuery)
    requires ValidStore(store) && PlainEdges(q)
    ensures IsNested(store, q)
    decreases Depth(q)
  {
    var nodes := Nodes(store, q);
    var keys := Present(Map(nodes, ParentKey()));
    if q.withParent.Some? {
      SubqueryBound(q, q.withParent.value, keys);
      BatchedIsNested(store, ParentQuery(q.withParent.value, keys));
    }
    if q.withChildren.Some? {
      SubqueryBound(q, q.withChildren.value, IDs(nodes));
      BatchedIsNested(store, ChildrenQuery(q.withChildren.value, IDs(nodes)));
    }
    NodesAgree(store, q);
  }
}
