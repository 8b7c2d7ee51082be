/** The query behind each edge, and what the nodes hold once it is answered
    (backend/ent/account_query.go). */
module EagerQuery {
  import opened Common
  import opened EagerSpec
  import opened EagerRefines
  import opened EagerLoad
  import opened EagerEdges

  // ---------------------------------------------------------------- objects and the graphs they stand for

  function RowsOf(nodes: seq<Account>): seq<AccountRow> {
    Map(nodes, AccountRowOf())
  }

  ghost function TreesOf(nodes: seq<Account>): (r: seq<AccountTree>)
    reads nodes`tree
    ensures |r| == |nodes| && forall i :: 0 <= i < |nodes| ==> r[i] == nodes[i].tree
  {
    if nodes == [] then [] else [nodes[0].tree] + TreesOf(nodes[1..])
  }

  /** The account's fields say what its tree says, one level deep, and an edge that was not requested is empty. */
  ghost predicate Reflects(a: Account)
    reads a, a.children, a.parent
  {
    && (a.proxy != null ==> a.loaded.proxy)
    && (a.parent != null ==> a.loaded.parent)
    && a.tree == AccountTree(
      a.row,
      if a.loaded.groups then Some(Map(a.groups, TargetRowOf())) else None,
      if a.loaded.proxy then Some(if a.proxy == null then None else Some(a.proxy.row)) else None,
      if a.loaded.parent then Some(if a.parent == null then None else Some(a.parent.tree)) else None,
      if a.loaded.children then Some(TreesOf(a.children)) else None,
      if a.loaded.usageLogs then Some(Map(a.usageLogs, OwnedRowOf())) else None,
      if a.loaded.accountGroups then Some(Map(a.accountGroups, OwnedRowOf())) else None)
  }

  /** A set of accounts closed under the loaded edges, all of which say what their trees say. */
  ghost predicate Linked(made: set<Account>)
    reads made
  {
    forall a :: a in made ==>
      && (a.parent != null ==> a.parent in made)
      && (forall c :: c in a.children ==> c in made)
      && Reflects(a)
  }

  function Requested(q: AccountQuery): LoadedTypes {
    LoadedTypes(q.withGroups.Some?, q.withProxy.Some?, q.withParent.Some?,
                q.withChildren.Some?, q.withUsageLogs.Some?, q.withAccountGroups.Some?)
  }

  /** A node as the scan leaves it: no edges yet. */
  ghost predicate Blank(a: Account, row: AccountRow, loaded: LoadedTypes)
    reads a
  {
    && a.row == row && a.loaded == loaded
    && a.groups == [] && a.proxy == null && a.parent == null && a.children == []
    && a.usageLogs == [] && a.accountGroups == []
  }

  // ---------------------------------------------------------------- the database

  /** The database: it answers the n-th query it is asked, or fails to. */
  class Database {
    const up: nat -> bool
    var asked: nat

    constructor (up: nat -> bool)
      ensures this.up == up && asked == 0
    {
      this.up, asked := up, 0;
    }

    /** Every query from one count up to another was answered. */
    ghost predicate AllUp(start: nat, end: nat) {
      forall i: nat :: start <= i < end ==> up(i)
    }

    method Ask<T>(rows: seq<T>) returns (res: Option<seq<T>>)
      modifies this`asked
      ensures asked == old(asked) + 1
      ensures res == if up(old(asked)) then Some(rows) else None
    {
      res := if up(asked) then Some(rows) else None;
      asked := asked + 1;
    }
  }

  lemma AllUpOne(db: Database, k: nat)
    ensures db.AllUp(k, k)
    ensures db.AllUp(k, k + 1) <==> db.up(k)
  {
    if db.up(k) {
      forall i: nat | k <= i < k + 1
        ensures db.up(i)
      {
        assert i == k;
      }
    }
  }

  /** A run between two counts: it asks at most n queries, and exactly n if it succeeds; it succeeds if all of them are
      answered, unless it is unsound for a reason of its own. */
  ghost predicate Ran(db: Database, ok: bool, sound: bool, start: nat, end: nat, n: nat) {
    && start <= end <= start + n
    && (ok <==> sound && db.AllUp(start, end))
    && (ok ==> end == start + n)
  }

  lemma RanNothing(db: Database, k: nat)
    ensures Ran(db, true, true, k, k, 0)
  {
  }

  lemma RanOne(db: Database, k: nat)
    ensures Ran(db, db.up(k), true, k, k + 1, 1)
  {
    AllUpOne(db, k);
  }

  /** One query, after which the run may be unsound. */
  lemma RanOneIf(db: Database, k: nat, sound: bool)
    ensures Ran(db, sound && db.up(k), sound, k, k + 1, 1)
  {
    AllUpOne(db, k);
  }

  lemma RanRefused(db: Database, k: nat, n: nat)
    ensures Ran(db, false, false, k, k, n)
  {
  }

  lemma RanThen(db: Database, start: nat, mid: nat, end: nat, sound: bool, n: nat, ok: bool, after: bool, m: nat)
    requires Ran(db, true, sound, start, mid, n) && Ran(db, ok, after, mid, end, m)
    ensures Ran(db, ok, sound && after, start, end, n + m)
  {
  }

  lemma RanFailed(db: Database, start: nat, end: nat, sound: bool, n: nat, after: bool, m: nat)
    requires Ran(db, false, sound, start, end, n)
    ensures Ran(db, false, sound && after, start, end, n + m)
  {
  }

  /** One entity per row, as Assign creates them. */
  method MakeNodes(rows: seq<AccountRow>, decode: AccountRow -> AccountRow, loaded: LoadedTypes)
    returns (nodes: seq<Account>)
    ensures fresh(nodes) && DistinctNodes(nodes) && RowsOf(nodes) == Map(rows, decode)
    ensures forall a :: a in nodes ==> Blank(a, a.row, loaded)
  {
    nodes := [];
    var i := 0;
    while i < |rows|
      invariant 0 <= i <= |rows| && |nodes| == i
      invariant fresh(nodes) && DistinctNodes(nodes)
      invariant forall j :: 0 <= j < i ==> nodes[j].row == decode(rows[j])
      invariant forall a :: a in nodes ==> Blank(a, a.row, loaded)
    {
      var node := new Account(decode(rows[i]), loaded);
      nodes := nodes + [node];
      i := i + 1;
    }
  }

  method MakeTargets(rows: seq<TargetRow>) returns (ts: seq<Target>)
    ensures Map(ts, TargetRowOf()) == rows
  {
    ts := [];
    var i := 0;
    while i < |rows|
      invariant 0 <= i <= |rows| && |ts| == i
      invariant forall j :: 0 <= j < i ==> ts[j].row == rows[j]
    {
      var t := new Target(rows[i]);
      ts := ts + [t];
      i := i + 1;
    }
  }

  method MakeOwned(rows: seq<OwnedRow>) returns (os: seq<Owned>)
    ensures Map(os, OwnedRowOf()) == rows
  {
    os := [];
    var i := 0;
    while i < |rows|
      invariant 0 <= i <= |rows| && |os| == i
      invariant forall j :: 0 <= j < i ==> os[j].row == rows[j]
    {
      var o := new Owned(rows[i]);
      os := os + [o];
      i := i + 1;
    }
  }

  // ---------------------------------------------------------------- one edge

  ghost predicate DistinctIDs(nodes: seq<Account>) {
    forall i, j :: 0 <= i < j < |nodes| ==> nodes[i].row.id != nodes[j].row.id
  }

  lemma AllLast(nodes: seq<Account>, i: nat)
    requires DistinctIDs(nodes) && i < |nodes|
    ensures IsLast(nodes, i)
  {
  }

  lemma JoinedNodes(store: Store, q: TargetQuery, nodes: seq<Account>)
    ensures var rows := GroupRows(store, q, IDs(RowsOf(nodes)));
      forall i :: 0 <= i < |rows| ==> IsNodeID(nodes, rows[i].0)
  {
    var ids := IDs(RowsOf(nodes));
    var rows := GroupRows(store, q, ids);
    JoinedAccounts(Map(Filter(store.groups, q.keep), DecodeTarget(q)), store.accountGroups, ids);
    forall i | 0 <= i < |rows|
      ensures IsNodeID(nodes, rows[i].0)
    {
      assert rows[i].0 in ids;
      var k :| 0 <= k < |RowsOf(nodes)| && RowsOf(nodes)[k].id == rows[i].0;
      assert nodes[k].row == RowsOf(nodes)[k];
    }
  }

  method QueryGroups(db: Database, store: Store, q: TargetQuery, nodes: seq<Account>) returns (ok: bool)
    requires DistinctNodes(nodes) && DistinctIDs(nodes)
    modifies db`asked, nodes`groups
    ensures Ran(db, ok, GroupsSound(store, q, IDs(RowsOf(nodes))), old(db.asked), db.asked, 1)
    ensures ok ==> forall a :: a in nodes ==>
      Map(a.groups, TargetRowOf()) == GroupsFor(GroupRows(store, q, IDs(RowsOf(nodes))), a.row.id)
    ensures ok ==> OneObjectPerGroup(nodes)
  {
    var ids := IDs(RowsOf(nodes));
    RanOneIf(db, db.asked, GroupsSound(store, q, ids));
    var rows: seq<JoinRow> := [];
    if q.joins == [] {
      var answer := db.Ask(GroupRows(store, q, ids));
      if answer.None? {
        return false;
      }
      rows := answer.value;
    } else {
      // The scan of a row expects an id where the column of the load before is.
      var again := db.Ask(AgainRows(store, q, ids));
      if again.None? || |again.value| > 0 {
        return false;
      }
    }
    JoinedNodes(store, q, nodes);
    var err := LoadGroups(nodes, rows);
    forall a | a in nodes
      ensures Map(a.groups, TargetRowOf()) == GroupsFor(rows, a.row.id)
    {
      var i :| 0 <= i < |nodes| && nodes[i] == a;
      AllLast(nodes, i);
    }
    return !err;
  }

  lemma PresentKeys(nodes: seq<Account>, key: AccountRow -> Option<int>, k: int)
    ensures k in Present(Map(RowsOf(nodes), key)) <==> Occurs(nodes, key, k)
  {
    var keys := Map(RowsOf(nodes), key);
    if k in Present(keys) {
      var i :| 0 <= i < |keys| && keys[i] == Some(k);
      assert KeyIs(key, k)(nodes[i]);
    }
    if Occurs(nodes, key, k) {
      var i :| 0 <= i < |nodes| && KeyIs(key, k)(nodes[i]);
      assert keys[i] == Some(k);
    }
  }

  lemma PresentIsBucketed(ids: seq<int>, nodeids: map<int, seq<Account>>, nodes: seq<Account>,
                          key: AccountRow -> Option<int>)
    requires Buckets(ids, nodeids, nodes, key)
    ensures forall k :: k in nodeids <==> k in SetOf(ids)
    ensures SetOf(ids) == Present(Map(RowsOf(nodes), key))
    ensures |ids| == 0 <==> SetOf(ids) == {}
  {
    var present := Present(Map(RowsOf(nodes), key));
    forall k
      ensures k in SetOf(ids) <==> k in present
    {
      PresentKeys(nodes, key, k);
    }
    if |ids| > 0 {
      assert ids[0] in SetOf(ids);
    }
  }

  lemma {:induction false} TargetByRow(ts: seq<Target>, key: Option<int>)
    ensures TargetFor(Map(ts, TargetRowOf()), key)
            == match LastWith(ts, TargetID(), key) case None => None case Some(t) => Some(t.row)
    decreases |ts|
  {
    if key.Some? && ts != [] {
      TargetByRow(ts[..|ts| - 1], key);
      assert Map(ts, TargetRowOf())[..|ts| - 1] == Map(ts[..|ts| - 1], TargetRowOf());
    }
  }

  function ProxyRowOf(p: Target?): Option<TargetRow> {
    if p == null then None else Some(p.row)
  }

  ghost predicate AllAsked(rows: seq<TargetRow>, nodeids: map<int, seq<Account>>) {
    forall i :: 0 <= i < |rows| ==> rows[i].id in nodeids
  }

  ghost predicate ProxiesPlaced(nodes: seq<Account>, rows: seq<TargetRow>)
    reads nodes`proxy
  {
    forall a :: a in nodes ==> ProxyRowOf(a.proxy) == TargetFor(rows, a.row.proxyID)
  }

  /** Hands out the proxies that the query returned; all of them were asked for. */
  method PlaceProxies(nodes: seq<Account>, ids: seq<int>, nodeids: map<int, seq<Account>>, rows: seq<TargetRow>)
    returns (err: bool)
    requires Buckets(ids, nodeids, nodes, ProxyKey()) && AllAsked(rows, nodeids)
    requires forall a :: a in nodes ==> a.proxy == null
    modifies nodes`proxy
    ensures !err && ProxiesPlaced(nodes, rows)
  {
    var neighbors := MakeTargets(rows);
    assert forall i :: 0 <= i < |neighbors| ==> neighbors[i].row == Map(neighbors, TargetRowOf())[i];
    ghost var seen;
    err, seen := AssignProxies(nodes, ids, nodeids, neighbors);
    forall a | a in nodes
      ensures ProxyRowOf(a.proxy) == TargetFor(rows, a.row.proxyID)
    {
      TargetByRow(neighbors, a.row.proxyID);
    }
  }

  lemma ProxyRowsHaveKeys(store: Store, q: TargetQuery, keys: set<int>)
    ensures forall i :: 0 <= i < |ProxyRows(store, q, keys)| ==> ProxyRows(store, q, keys)[i].id in keys
  {
    var kept := Filter(store.proxies, WithID(q, keys));
    assert forall i :: 0 <= i < |kept| ==> WithID(q, keys)(kept[i]);
  }

  lemma AskedProxies(store: Store, q: TargetQuery, ids: seq<int>, nodeids: map<int, seq<Account>>, nodes: seq<Account>)
    requires Buckets(ids, nodeids, nodes, ProxyKey())
    ensures AllAsked(ProxyRows(store, q, SetOf(ids)), nodeids)
  {
    PresentIsBucketed(ids, nodeids, nodes, ProxyKey());
    ProxyRowsHaveKeys(store, q, SetOf(ids));
  }

  lemma NothingAsked(store: Store, q: TargetQuery, nodes: seq<Account>)
    requires forall a :: a in nodes ==> a.proxy == null
    ensures ProxiesPlaced(nodes, ProxyRows(store, q, {}))
  {
  }

  method QueryProxies(db: Database, store: Store, q: TargetQuery, nodes: seq<Account>, ghost keys: set<int>)
    returns (ok: bool)
    requires keys == Present(Map(RowsOf(nodes), ProxyKey()))
    requires forall a :: a in nodes ==> a.proxy == null
    modifies db`asked, nodes`proxy
    ensures Ran(db, ok, true, old(db.asked), db.asked, if keys == {} then 0 else 1)
    ensures ok ==> ProxiesPlaced(nodes, ProxyRows(store, q, keys))
  {
    RanNothing(db, db.asked);
    RanOne(db, db.asked);
    var ids, nodeids := Bucket(nodes, ProxyKey());
    PresentIsBucketed(ids, nodeids, nodes, ProxyKey());
    if |ids| == 0 {
      NothingAsked(store, q, nodes);
      return true;
    }
    var answer := db.Ask(ProxyRows(store, q, SetOf(ids)));
    if answer.None? {
      return false;
    }
    AskedProxies(store, q, ids, nodeids, nodes);
    var err := PlaceProxies(nodes, ids, nodeids, answer.value);
    return !err;
  }

  lemma {:induction false} TreeByObject(parents: seq<Account>, trees: seq<AccountTree>, key: Option<int>)
    requires |trees| == |parents| && forall i :: 0 <= i < |parents| ==> trees[i].row == parents[i].row
    ensures LastWith(parents, AccountID(), key).None? <==> TreeFor(trees, key).None?
    ensures LastWith(parents, AccountID(), key).Some? ==>
      exists i :: 0 <= i < |parents| && parents[i] == LastWith(parents, AccountID(), key).value
                  && TreeFor(trees, key) == Some(trees[i])
    decreases |parents|
  {
    if key.Some? && parents != [] {
      TreeByObject(parents[..|parents| - 1], trees[..|trees| - 1], key);
    }
  }

  ghost predicate ParentsPlaced(nodes: seq<Account>, trees: seq<AccountTree>, made: set<Account>)
    reads nodes`parent, made`tree
  {
    forall a :: a in nodes ==>
      && (a.parent != null ==> a.parent in made)
      && (if a.parent == null then None else Some(a.parent.tree)) == TreeFor(trees, a.row.parentID)
  }

  /** Hands out the parents. */
  method PlaceParents(nodes: seq<Account>, ids: seq<int>, nodeids: map<int, seq<Account>>, parents: seq<Account>,
                      ghost trees: seq<AccountTree>, ghost made: set<Account>)
    returns (err: bool)
    requires Buckets(ids, nodeids, nodes, ParentKey())
    requires forall i :: 0 <= i < |parents| ==> parents[i].row.id in nodeids && parents[i].tree.row == parents[i].row
    requires forall a :: a in nodes ==> a.parent == null
    requires trees == TreesOf(parents) && forall p :: p in parents ==> p in made
    modifies nodes`parent
    ensures !err
    ensures ParentsPlaced(nodes, trees, made)
  {
    ghost var seen;
    err, seen := AssignParents(nodes, ids, nodeids, parents);
    forall a | a in nodes
      ensures a.parent != null ==> a.parent in parents
      ensures (if a.parent == null then None else Some(a.parent.tree)) == TreeFor(TreesOf(parents), a.row.parentID)
    {
      TreeByObject(parents, TreesOf(parents), a.row.parentID);
    }
  }

  ghost predicate ChildrenPlaced(nodes: seq<Account>, trees: seq<AccountTree>, made: set<Account>)
    reads nodes`children, made`tree
  {
    forall a :: a in nodes ==>
      && (forall c :: c in a.children ==> c in made)
      && TreesOf(a.children) == Filter(trees, ChildOf(a.row.id))
  }

  /** Hands out the children. */
  method PlaceChildren(nodes: seq<Account>, kids: seq<Account>, ghost trees: seq<AccountTree>, ghost made: set<Account>)
    returns (err: bool)
    requires DistinctNodes(nodes) && DistinctIDs(nodes)
    requires trees == TreesOf(kids) && forall c :: c in kids ==> c in made
    requires forall i :: 0 <= i < |kids| ==> GoodChild(nodes, kids[i]) && kids[i].tree.row == kids[i].row
    modifies nodes`children
    ensures !err
    ensures ChildrenPlaced(nodes, trees, made)
  {
    ghost var seen;
    err, seen := LoadChildren(nodes, kids);
    forall a | a in nodes
      ensures a.children == Filter(kids, IsChildOf(a.row.id))
    {
      var i :| 0 <= i < |nodes| && nodes[i] == a;
      AllLast(nodes, i);
    }
    forall a | a in nodes
      ensures forall c :: c in a.children ==> c in made
      ensures TreesOf(a.children) == Filter(TreesOf(kids), ChildOf(a.row.id))
    {
      TreesOfFiltered(kids, a.row.id);
      FilterFrom(kids, IsChildOf(a.row.id));
    }
  }

  lemma {:induction false} TreesOfFiltered(kids: seq<Account>, id: int)
    requires forall c :: c in kids ==> c.tree.row == c.row
    ensures TreesOf(Filter(kids, IsChildOf(id))) == Filter(TreesOf(kids), ChildOf(id))
  {
    if kids != [] {
      TreesOfFiltered(kids[1..], id);
      assert TreesOf(kids)[1..] == TreesOf(kids[1..]);
      assert kids[0] in kids;
    }
  }

  lemma {:induction false} OwnedRowsOfFiltered(os: seq<Owned>, id: int)
    ensures Map(Filter(os, IsOwnedBy(id)), OwnedRowOf()) == Filter(Map(os, OwnedRowOf()), OwnedBy(id))
  {
    FilterOfMap(os, OwnedRowOf(), OwnedBy(id), IsOwnedBy(id));
  }

  lemma OwnedRowsHaveNodes(table: seq<OwnedRow>, q: OwnedQuery, keyed: bool, nodes: seq<Account>, o: Owned)
    requires o.row in OwnedRows(table, q, keyed, IDs(RowsOf(nodes)))
    ensures IsNodeID(nodes, o.row.accountID)
  {
    var ids := IDs(RowsOf(nodes));
    var kept := Take(Filter(table, OwnedIn(q, ids)), q.limit);
    var i :| 0 <= i < |kept| && DecodeOwned(q, keyed)(kept[i]) == o.row;
    DecodeOwnedKeepsOwner(q, keyed, kept[i]);
    assert Filter(table, OwnedIn(q, ids))[i] == kept[i];
    assert OwnedIn(q, ids)(kept[i]);
    var k :| 0 <= k < |RowsOf(nodes)| && RowsOf(nodes)[k].id == o.row.accountID;
    assert nodes[k].row.id == o.row.accountID;
  }

  lemma OwnedHaveNodes(table: seq<OwnedRow>, q: OwnedQuery, keyed: bool, nodes: seq<Account>, os: seq<Owned>)
    requires Map(os, OwnedRowOf()) == OwnedRows(table, q, keyed, IDs(RowsOf(nodes)))
    ensures forall o :: o in os ==> IsNodeID(nodes, o.row.accountID)
  {
    forall o | o in os
      ensures IsNodeID(nodes, o.row.accountID)
    {
      var i :| 0 <= i < |os| && os[i] == o;
      assert Map(os, OwnedRowOf())[i] == o.row;
      OwnedRowsHaveNodes(table, q, keyed, nodes, o);
    }
  }

  method QueryLogs(db: Database, store: Store, q: OwnedQuery, nodes: seq<Account>) returns (ok: bool)
    requires DistinctNodes(nodes) && DistinctIDs(nodes)
    modifies db`asked, nodes`usageLogs
    ensures Ran(db, ok, true, old(db.asked), db.asked, 1)
    ensures ok ==> forall a :: a in nodes ==>
      Map(a.usageLogs, OwnedRowOf())
      == Filter(OwnedRows(store.usageLogs, q, true, IDs(RowsOf(nodes))), OwnedBy(a.row.id))
  {
    RanOne(db, db.asked);
    var rows := OwnedRows(store.usageLogs, q, true, IDs(RowsOf(nodes)));
    var answer := db.Ask(rows);
    if answer.None? {
      return false;
    }
    var neighbors := MakeOwned(answer.value);
    OwnedHaveNodes(store.usageLogs, q, true, nodes, neighbors);
    ghost var seen;
    var err;
    err, seen := LoadUsageLogs(nodes, neighbors);
    forall a | a in nodes
      ensures Map(a.usageLogs, OwnedRowOf()) == Filter(rows, OwnedBy(a.row.id))
    {
      var i :| 0 <= i < |nodes| && nodes[i] == a;
      AllLast(nodes, i);
      OwnedRowsOfFiltered(neighbors, a.row.id);
    }
    return !err;
  }

  method QueryLinks(db: Database, store: Store, q: OwnedQuery, nodes: seq<Account>) returns (ok: bool)
    requires DistinctNodes(nodes) && DistinctIDs(nodes)
    modifies db`asked, nodes`accountGroups
    ensures Ran(db, ok, true, old(db.asked), db.asked, 1)
    ensures ok ==> forall a :: a in nodes ==>
      Map(a.accountGroups, OwnedRowOf())
      == Filter(OwnedRows(store.accountGroups, q, false, IDs(RowsOf(nodes))), OwnedBy(a.row.id))
  {
    RanOne(db, db.asked);
    var rows := OwnedRows(store.accountGroups, q, false, IDs(RowsOf(nodes)));
    var answer := db.Ask(rows);
    if answer.None? {
      return false;
    }
    var neighbors := MakeOwned(answer.value);
    OwnedHaveNodes(store.accountGroups, q, false, nodes, neighbors);
    ghost var seen;
    var err;
    err, seen := LoadAccountGroups(nodes, neighbors);
    forall a | a in nodes
      ensures Map(a.accountGroups, OwnedRowOf()) == Filter(rows, OwnedBy(a.row.id))
    {
      var i :| 0 <= i < |nodes| && nodes[i] == a;
      AllLast(nodes, i);
      OwnedRowsOfFiltered(neighbors, a.row.id);
    }
    return !err;
  }
}
