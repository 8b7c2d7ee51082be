/** Account queries with eager loading, as values: what the batched loader computes, and what one query per
    node and edge would compute (backend/ent/account_query.go). */
module EagerSpec {
  import opened Common
  import opened AccountSchema

  // ---------------------------------------------------------------- rows and tables

  datatype AccountRow = AccountRow(id: int, proxyID: Option<int>, parentID: Option<int>, rest: map<Column, Cell>)

  /** A row of groups or proxies. */
  datatype TargetRow = TargetRow(id: int, rest: map<string, string>)

  /** A row of usage_logs, or of account_groups, where `id` is the group_id. */
  datatype OwnedRow = OwnedRow(id: int, accountID: int, rest: map<string, string>)

  datatype Store = Store(
    accounts: seq<AccountRow>, groups: seq<TargetRow>, proxies: seq<TargetRow>,
    usageLogs: seq<OwnedRow>, accountGroups: seq<OwnedRow>)

  ghost predicate DistinctAccounts(rows: seq<AccountRow>) {
    forall i, j :: 0 <= i < j < |rows| ==> rows[i].id != rows[j].id
  }

  ghost predicate DistinctTargets(rows: seq<TargetRow>) {
    forall i, j :: 0 <= i < j < |rows| ==> rows[i].id != rows[j].id
  }

  ghost predicate DistinctLinks(links: seq<OwnedRow>) {
    forall i, j :: 0 <= i < j < |links| ==> links[i].id != links[j].id || links[i].accountID != links[j].accountID
  }

  /** Primary keys are keys; that of account_groups is made of both its ids. */
  ghost predicate ValidStore(store: Store) {
    && DistinctAccounts(store.accounts) && DistinctTargets(store.groups) && DistinctTargets(store.proxies)
    && DistinctLinks(store.accountGroups)
  }

  // ---------------------------------------------------------------- queries

  /** Columns of the tables at the far end of an edge. */
  datatype SideColumn = SideID | SideAccountID | SideOther(name: string)

  /** A query for groups or proxies. Loading groups joins the query with the links of the accounts, and the join stays:
      `joins` are the accounts of the loads before. */
  datatype TargetQuery = TargetQuery(
    keep: TargetRow -> bool, limit: Option<nat>, fields: seq<SideColumn>, joins: seq<set<int>>)

  datatype OwnedQuery = OwnedQuery(keep: OwnedRow -> bool, limit: Option<nat>, fields: seq<SideColumn>)

  datatype Predicate = Keep(p: AccountRow -> bool) | IDIn(ids: set<int>) | ParentIn(ids: set<int>)

  datatype AccountQuery = AccountQuery(
    predicates: seq<Predicate>, limit: Option<nat>, fields: seq<Column>,
    withGroups: Option<TargetQuery>, withProxy: Option<TargetQuery>,
    withParent: Option<AccountQuery>, withChildren: Option<AccountQuery>,
    withUsageLogs: Option<OwnedQuery>, withAccountGroups: Option<OwnedQuery>)

  /** Depth of nested eager loading. */
  function Depth(q: AccountQuery): nat {
    1 + Max(if q.withParent.Some? then Depth(q.withParent.value) else 0,
            if q.withChildren.Some? then Depth(q.withChildren.value) else 0)
  }

  function Max(a: nat, b: nat): nat {
    if a < b then b else a
  }

  predicate Holds(p: Predicate, r: AccountRow) {
    match p
    case Keep(f) => f(r)
    case IDIn(ids) => r.id in ids
    case ParentIn(ids) => r.parentID.Some? && r.parentID.value in ids
  }

  predicate Match(ps: seq<Predicate>, r: AccountRow) {
    forall i :: 0 <= i < |ps| ==> Holds(ps[i], r)
  }

  function Matching(q: AccountQuery): AccountRow -> bool {
    (r: AccountRow) => Match(q.predicates, r)
  }

  function Where(q: AccountQuery, p: Predicate): AccountQuery {
    q.(predicates := q.predicates + [p])
  }

  /** The rows a query selects from a table, limit included. */
  function SelectRows(accounts: seq<AccountRow>, q: AccountQuery): seq<AccountRow> {
    Take(Filter(accounts, Matching(q)), q.limit)
  }

  function AppendOnce<C(==)>(columns: seq<C>, c: C): (r: seq<C>)
    ensures c in r && columns <= r && |r| <= |columns| + 1
  {
    if c in columns then columns else columns + [c]
  }

  function AppendIf<C(==)>(wanted: bool, columns: seq<C>, c: C): seq<C> {
    if wanted then AppendOnce(columns, c) else columns
  }

  /** A narrowed query gets the column it will be joined on. */
  function AppendFieldOnce(q: AccountQuery, c: Column): AccountQuery {
    if q.fields == [] then q else q.(fields := AppendOnce(q.fields, c))
  }

  function NotID(): Column -> bool {
    (c: Column) => c != ID
  }

  function BaseColumns(fields: seq<Column>): seq<Column> {
    [ID] + Filter(fields, NotID())
  }

  /** The selected columns after the id, and the foreign keys of the requested edges. */
  function NarrowedColumns(q: AccountQuery): seq<Column> {
    AppendIf(q.withParent.Some?, AppendIf(q.withProxy.Some?, BaseColumns(q.fields), ProxyID), ParentAccountID)
  }

  /** The columns the query's specification projects. */
  function SpecColumns(q: AccountQuery): seq<Column> {
    if q.fields == [] then COLUMNS else NarrowedColumns(q)
  }

  /** A row as decoded from the projected columns; what is not selected stays at its zero value. */
  function Projection(columns: seq<Column>): AccountRow -> AccountRow {
    (r: AccountRow) =>
      AccountRow(if ID in columns then r.id else 0,
                 if ProxyID in columns then r.proxyID else None,
                 if ParentAccountID in columns then r.parentID else None,
                 map c | c in r.rest && c in columns :: r.rest[c])
  }

  function Decode(q: AccountQuery): AccountRow -> AccountRow {
    Projection(SpecColumns(q))
  }

  /** Groups, proxies and usage logs always select their id; account_groups has no id column of its own. */
  function SideColumns(fields: seq<SideColumn>, keyed: bool): seq<SideColumn> {
    if keyed then [SideID] + fields else fields
  }

  function DecodeTarget(q: TargetQuery): TargetRow -> TargetRow {
    (r: TargetRow) =>
      TargetRow(r.id, if q.fields == [] then r.rest else map c | c in r.rest && SideOther(c) in q.fields :: r.rest[c])
  }

  function DecodeOwned(q: OwnedQuery, keyed: bool): OwnedRow -> OwnedRow {
    var fields := if q.fields == [] then [] else SideColumns(AppendOnce(q.fields, SideAccountID), keyed);
    (r: OwnedRow) =>
      if fields == [] then r
      else OwnedRow(if SideID in fields then r.id else 0,
                    if SideAccountID in fields then r.accountID else 0,
                    map c | c in r.rest && SideOther(c) in fields :: r.rest[c])
  }

  // ---------------------------------------------------------------- loaded graphs

  /** A loaded account. An edge that was not requested is None. */
  datatype AccountTree = AccountTree(
    row: AccountRow, groups: Option<seq<TargetRow>>, proxy: Option<Option<TargetRow>>,
    parent: Option<Option<AccountTree>>, children: Option<seq<AccountTree>>,
    usageLogs: Option<seq<OwnedRow>>, accountGroups: Option<seq<OwnedRow>>)

  // ---------------------------------------------------------------- the batched loads

  function IDs(rows: seq<AccountRow>): set<int> {
    set i | 0 <= i < |rows| :: rows[i].id
  }

  /** The foreign keys that are present. */
  function Present(keys: seq<Option<int>>): set<int> {
    set i | 0 <= i < |keys| && keys[i].Some? :: keys[i].value
  }

  function ProxyKey(): AccountRow -> Option<int> {
    (r: AccountRow) => r.proxyID
  }

  function ParentKey(): AccountRow -> Option<int> {
    (r: AccountRow) => r.parentID
  }

  function ProxyKeys(rows: seq<AccountRow>): set<int> {
    Present(Map(rows, ProxyKey()))
  }

  function ParentKeys(rows: seq<AccountRow>): set<int> {
    Present(Map(rows, ParentKey()))
  }

  /** A row of groups joined with account_groups: the account, and the group. */
  type JoinRow = (int, TargetRow)

  function LinkOf(gid: int, ids: set<int>): OwnedRow -> bool {
    (l: OwnedRow) => l.id == gid && l.accountID in ids
  }

  function Joined(g: TargetRow): OwnedRow -> JoinRow {
    (l: OwnedRow) => (l.accountID, g)
  }

  function Join(groups: seq<TargetRow>, links: seq<OwnedRow>, ids: set<int>): seq<JoinRow> {
    if groups == [] then []
    else Map(Filter(links, LinkOf(groups[0].id, ids)), Joined(groups[0])) + Join(groups[1..], links, ids)
  }

  /** The join rows of a first load; a later one can use none. */
  function GroupRows(store: Store, q: TargetQuery, ids: set<int>): seq<JoinRow> {
    if q.joins != [] then []
    else Take(Join(Map(Filter(store.groups, q.keep), DecodeTarget(q)), store.accountGroups, ids), q.limit)
  }

  /** The group has a link to one of the accounts. */
  predicate HasLinkTo(links: seq<OwnedRow>, gid: int, ids: set<int>) {
    exists l :: l in links && l.id == gid && l.accountID in ids
  }

  function JoinedAgain(store: Store, q: TargetQuery, ids: set<int>): TargetRow -> bool {
    (g: TargetRow) =>
      && q.keep(g) && HasLinkTo(store.accountGroups, g.id, ids)
      && forall i :: 0 <= i < |q.joins| ==> HasLinkTo(store.accountGroups, g.id, q.joins[i])
  }

  /** The groups in the rows of a later load: those linked to an account of every load. Their rows start with one
      account column per load, and the scan expects the group's id in the second: the first such row is the end of it.
      */
  function AgainRows(store: Store, q: TargetQuery, ids: set<int>): seq<TargetRow> {
    Take(Filter(store.groups, JoinedAgain(store, q, ids)), q.limit)
  }

  /** The load of groups gets by. */
  predicate GroupsSound(store: Store, q: TargetQuery, ids: set<int>) {
    q.joins == [] || AgainRows(store, q, ids) == []
  }

  /** Account and group ids of the join rows. */
  function Links(rows: seq<JoinRow>): set<(int, int)> {
    set i | 0 <= i < |rows| :: (rows[i].0, rows[i].1.id)
  }

  function TargetIDs(rows: seq<TargetRow>): set<int> {
    set i | 0 <= i < |rows| :: rows[i].id
  }

  lemma TargetIDsSnoc(ts: seq<TargetRow>, t: TargetRow)
    ensures TargetIDs(ts + [t]) == TargetIDs(ts) + {t.id}
  {
    var more := ts + [t];
    assert more[|ts|] == t;
    forall x | x in TargetIDs(ts)
      ensures x in TargetIDs(more)
    {
      var i :| 0 <= i < |ts| && x == ts[i].id;
      assert more[i] == ts[i];
    }
  }

  /** Each group once, at its first appearance. */
  function FirstTargets(rows: seq<JoinRow>): seq<TargetRow> {
    if rows == [] then []
    else
      var firsts, g := FirstTargets(rows[..|rows| - 1]), rows[|rows| - 1].1;
      if g.id in TargetIDs(firsts) then firsts else firsts + [g]
  }

  function LinkedTo(rows: seq<JoinRow>, account: int): TargetRow -> bool {
    (g: TargetRow) => (account, g.id) in Links(rows)
  }

  /** The groups of an account: those linked to it, in order of first appearance in all the rows. */
  function GroupsFor(rows: seq<JoinRow>, account: int): seq<TargetRow> {
    Filter(FirstTargets(rows), LinkedTo(rows, account))
  }

  function WithID(q: TargetQuery, ids: set<int>): TargetRow -> bool {
    (r: TargetRow) => q.keep(r) && r.id in ids
  }

  function ProxyRows(store: Store, q: TargetQuery, ids: set<int>): seq<TargetRow> {
    if ids == {} then []
    else Map(Take(Filter(store.proxies, WithID(q, ids)), q.limit), DecodeTarget(q))
  }

  /** The last row with the key; a later one replaces an earlier one. */
  function TargetFor(rows: seq<TargetRow>, key: Option<int>): Option<TargetRow> {
    if key.None? || rows == [] then None
    else if rows[|rows| - 1].id == key.value then Some(rows[|rows| - 1])
    else TargetFor(rows[..|rows| - 1], key)
  }

  function TreeFor(trees: seq<AccountTree>, key: Option<int>): Option<AccountTree> {
    if key.None? || trees == [] then None
    else if trees[|trees| - 1].row.id == key.value then Some(trees[|trees| - 1])
    else TreeFor(trees[..|trees| - 1], key)
  }

  function ChildOf(id: int): AccountTree -> bool {
    (t: AccountTree) => t.row.parentID == Some(id)
  }

  function OwnedBy(id: int): OwnedRow -> bool {
    (r: OwnedRow) => r.accountID == id
  }

  function OwnedIn(q: OwnedQuery, ids: set<int>): OwnedRow -> bool {
    (r: OwnedRow) => q.keep(r) && r.accountID in ids
  }

  function OwnedRows(table: seq<OwnedRow>, q: OwnedQuery, keyed: bool, ids: set<int>): seq<OwnedRow> {
    Map(Take(Filter(table, OwnedIn(q, ids)), q.limit), DecodeOwned(q, keyed))
  }

  /** The query for all children at once. */
  function ChildrenQuery(q: AccountQuery, ids: set<int>): AccountQuery {
    Where(AppendFieldOnce(q, ParentAccountID), ParentIn(ids))
  }

  /** The query for all parents at once. */
  function ParentQuery(q: AccountQuery, ids: set<int>): AccountQuery {
    Where(q, IDIn(ids))
  }

  lemma FieldDepth(q: AccountQuery, c: Column)
    ensures Depth(AppendFieldOnce(q, c)) == Depth(q)
  {
  }

  lemma SubqueryDepth(q: AccountQuery, ids: set<int>)
    ensures Depth(ChildrenQuery(q, ids)) == Depth(q) && Depth(ParentQuery(q, ids)) == Depth(q)
  {
  }

  /** What the edge queries of one level return. */
  datatype Edges = Edges(
    groups: seq<JoinRow>, proxies: seq<TargetRow>, parents: seq<AccountTree>, children: seq<AccountTree>,
    usageLogs: seq<OwnedRow>, accountGroups: seq<OwnedRow>)

  /** One node with its share of what the edge queries returned. */
  function Attach(q: AccountQuery, n: AccountRow, e: Edges): AccountTree {
    AccountTree(
      n,
      if q.withGroups.Some? then Some(GroupsFor(e.groups, n.id)) else None,
      if q.withProxy.Some? then Some(TargetFor(e.proxies, n.proxyID)) else None,
      if q.withParent.Some? then Some(TreeFor(e.parents, n.parentID)) else None,
      if q.withChildren.Some? then Some(Filter(e.children, ChildOf(n.id))) else None,
      if q.withUsageLogs.Some? then Some(Filter(e.usageLogs, OwnedBy(n.id))) else None,
      if q.withAccountGroups.Some? then Some(Filter(e.accountGroups, OwnedBy(n.id))) else None)
  }

  function Attacher(q: AccountQuery, e: Edges): AccountRow -> AccountTree {
    (n: AccountRow) => Attach(q, n, e)
  }

  function Nodes(store: Store, q: AccountQuery): seq<AccountRow> {
    Map(SelectRows(store.accounts, q), Decode(q))
  }

  /** One query per requested edge, for all nodes together. */
  function EdgesOf(store: Store, q: AccountQuery, nodes: seq<AccountRow>): Edges
    decreases Depth(q), 0
  {
    var ids := IDs(nodes);
    var parents := Present(Map(nodes, ParentKey()));
    Edges(
      if q.withGroups.Some? then GroupRows(store, q.withGroups.value, ids) else [],
      if q.withProxy.Some? then ProxyRows(store, q.withProxy.value, Present(Map(nodes, ProxyKey()))) else [],
      if q.withParent.Some? && parents != {}
      then SubqueryDepth(q.withParent.value, parents); All(store, ParentQuery(q.withParent.value, parents)) else [],
      if q.withChildren.Some?
      then SubqueryDepth(q.withChildren.value, ids); All(store, ChildrenQuery(q.withChildren.value, ids)) else [],
      if q.withUsageLogs.Some? then OwnedRows(store.usageLogs, q.withUsageLogs.value, true, ids) else [],
      if q.withAccountGroups.Some? then OwnedRows(store.accountGroups, q.withAccountGroups.value, false, ids) else [])
  }

  /** The batched result: edge queries are made only when there are nodes. */
  function All(store: Store, q: AccountQuery): (r: seq<AccountTree>)
    ensures |r| == |Nodes(store, q)|
    decreases Depth(q), 1
  {
    var nodes := Nodes(store, q);
    if nodes == [] then [] else Map(nodes, Attacher(q, EdgesOf(store, q, nodes)))
  }

  // ---------------------------------------------------------------- one query per node and edge

  function FirstOf<T>(rows: seq<T>): Option<T> {
    if |rows| == 0 then None else Some(rows[0])
  }

  function LinkedGroup(store: Store, q: TargetQuery, account: int): TargetRow -> bool {
    (g: TargetRow) => q.keep(g) && exists l :: l in store.accountGroups && l.id == g.id && l.accountID == account
  }

  function NestedGroups(store: Store, q: TargetQuery, account: int): seq<TargetRow> {
    Map(Filter(store.groups, LinkedGroup(store, q, account)), DecodeTarget(q))
  }

  function NestedProxy(store: Store, q: TargetQuery, key: Option<int>): Option<TargetRow> {
    if key.None? then None
    else
      match FirstOf(Filter(store.proxies, WithID(q, {key.value})))
      case None => None
      case Some(r) => Some(DecodeTarget(q)(r))
  }

  function NestedOwned(table: seq<OwnedRow>, q: OwnedQuery, keyed: bool, account: int): seq<OwnedRow> {
    Map(Filter(table, OwnedIn(q, {account})), DecodeOwned(q, keyed))
  }

  function NestedParent(store: Store, q: AccountQuery, key: Option<int>): Option<AccountTree>
    decreases Depth(q), 1
  {
    if key.None? then None
    else
      match FirstOf(Filter(store.accounts, Matching(ParentQuery(q, {key.value}))))
      case None => None
      case Some(r) => Some(Nested(store, q, r))
  }

  function NestedChildren(store: Store, q: AccountQuery, account: int): seq<AccountTree>
    decreases Depth(q), 1
  {
    var rows := Filter(store.accounts, Matching(ChildrenQuery(q, {account})));
    var child := AppendFieldOnce(q, ParentAccountID);
    seq(|rows|, i requires 0 <= i < |rows| => Nested(store, child, rows[i]))
  }

  /** The account with every requested edge looked up by a query of its own. */
  function Nested(store: Store, q: AccountQuery, r: AccountRow): AccountTree
    decreases Depth(q), 0
  {
    AccountTree(
      Decode(q)(r),
      if q.withGroups.Some? then Some(NestedGroups(store, q.withGroups.value, r.id)) else None,
      if q.withProxy.Some? then Some(NestedProxy(store, q.withProxy.value, r.proxyID)) else None,
      if q.withParent.Some? then Some(NestedParent(store, q.withParent.value, r.parentID)) else None,
      if q.withChildren.Some? then Some(NestedChildren(store, q.withChildren.value, r.id)) else None,
      if q.withUsageLogs.Some? then Some(NestedOwned(store.usageLogs, q.withUsageLogs.value, true, r.id)) else None,
      if q.withAccountGroups.Some?
      then Some(NestedOwned(store.accountGroups, q.withAccountGroups.value, false, r.id)) else None)
  }
}
