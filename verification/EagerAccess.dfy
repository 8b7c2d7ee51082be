/** What the callers of a query see through the edge accessors (backend/ent/account.go). */
module EagerAccess {
  import opened Common
  import opened EagerSpec
  import opened EagerRefines
  import opened EagerLoad
  import opened EagerObjects
  import opened EagerOutcome
  import opened EagerQuery
  import opened EagerRun
  import EagerRerun

  /** The accessors show the loaded graph: an edge not requested is not loaded, an absent target not found. */
  lemma AccessorsShowTree(made: set<Account>, a: Account)
    requires Linked(made) && a in made
    ensures a.GroupsOrErr().NotLoaded? <==> a.tree.groups.None?
    ensures a.tree.groups.Some? ==>
      a.GroupsOrErr().Found? && Map(a.GroupsOrErr().value, TargetRowOf()) == a.tree.groups.value
    ensures a.ChildrenOrErr().NotLoaded? <==> a.tree.children.None?
    ensures a.tree.children.Some? ==>
      a.ChildrenOrErr().Found? && TreesOf(a.ChildrenOrErr().value) == a.tree.children.value
    ensures a.UsageLogsOrErr().NotLoaded? <==> a.tree.usageLogs.None?
    ensures a.tree.usageLogs.Some? ==>
      a.UsageLogsOrErr().Found? && Map(a.UsageLogsOrErr().value, OwnedRowOf()) == a.tree.usageLogs.value
    ensures a.AccountGroupsOrErr().NotLoaded? <==> a.tree.accountGroups.None?
    ensures a.tree.accountGroups.Some? ==>
      a.AccountGroupsOrErr().Found? && Map(a.AccountGroupsOrErr().value, OwnedRowOf()) == a.tree.accountGroups.value
    ensures a.ProxyOrErr().NotLoaded? <==> a.tree.proxy.None?
    ensures a.ProxyOrErr().NotFound? <==> a.tree.proxy == Some(None)
    ensures a.ProxyOrErr().Found? ==> a.tree.proxy == Some(Some(a.ProxyOrErr().value.row))
    ensures a.ParentOrErr().NotLoaded? <==> a.tree.parent.None?
    ensures a.ParentOrErr().NotFound? <==> a.tree.parent == Some(None)
    ensures a.ParentOrErr().Found? ==> a.tree.parent == Some(Some(a.ParentOrErr().value.tree))
  {
    assert Reflects(a);
  }

  /** Some row of the table has the id and passes the edge query's own filter. */
  ghost predicate HasProxy(store: Store, q: TargetQuery, key: Option<int>) {
    key.Some? && exists r :: r in store.proxies && r.id == key.value && q.keep(r)
  }

  ghost predicate HasParentRow(store: Store, q: AccountQuery, key: Option<int>) {
    key.Some? && exists r :: r in store.accounts && r.id == key.value && Match(q.predicates, r)
  }

  lemma ProxyFoundExactly(store: Store, q: TargetQuery, key: Option<int>)
    ensures NestedProxy(store, q, key).Some? <==> HasProxy(store, q, key)
  {
    if key.Some? {
      var found := Filter(store.proxies, WithID(q, {key.value}));
      if r :| r in store.proxies && r.id == key.value && q.keep(r) {
        FilterKeeps(store.proxies, WithID(q, {key.value}), r);
      }
      if |found| > 0 {
        FilterHolds(store.proxies, WithID(q, {key.value}), found[0]);
      }
    }
  }

  lemma ParentRowsAre(store: Store, q: AccountQuery, k: int, r: AccountRow)
    ensures Matching(ParentQuery(q, {k}))(r) <==> Match(q.predicates, r) && r.id == k
  {
    MatchWhere(q, IDIn({k}), r);
  }

  lemma ParentFoundExactly(store: Store, q: AccountQuery, key: Option<int>)
    ensures NestedParent(store, q, key).Some? <==> HasParentRow(store, q, key)
  {
    hide Nested, NestedParent, Matching, ParentQuery, Depth;
    NoKeyNoParent(store, q, []);
    if key.Some? {
      NestedParentIs(store, q, key.value);
      var p := Matching(ParentQuery(q, {key.value}));
      if r :| r in store.accounts && r.id == key.value && Match(q.predicates, r) {
        ParentRowsAre(store, q, key.value, r);
        FilterKeeps(store.accounts, p, r);
      }
      if |Filter(store.accounts, p)| > 0 {
        var r := Filter(store.accounts, p)[0];
        ParentRowsAre(store, q, key.value, r);
        FilterHolds(store.accounts, p, r);
      }
    }
  }

  lemma NodeTree(store: Store, q: AccountQuery, nodes: seq<Account>, made: set<Account>, i: nat)
    requires ValidStore(store) && PlainEdges(q) && IsLoaded(store, q, nodes, made) && i < |nodes|
    ensures i < |SelectRows(store.accounts, q)|
    ensures nodes[i].tree == Nested(store, q, SelectRows(store.accounts, q)[i])
    ensures nodes[i] in made
  {
    LoadedTree(store, q, nodes, made, i);
    BatchedIsNested(store, q);
    var rows := SelectRows(store.accounts, q);
    assert Map(rows, NestedFn(store, q))[i] == NestedFn(store, q)(rows[i]);
  }

  /** Through the accessors of a loaded account: not loaded exactly when not requested; not found exactly when
      requested and the row's key is null or names no row that the edge query admits. */
  lemma ProxyAccessExact(store: Store, q: AccountQuery, nodes: seq<Account>, made: set<Account>, i: nat)
    requires ValidStore(store) && PlainEdges(q) && IsLoaded(store, q, nodes, made) && i < |nodes|
    ensures i < |SelectRows(store.accounts, q)|
    ensures nodes[i].ProxyOrErr().NotLoaded? <==> q.withProxy.None?
    ensures nodes[i].ProxyOrErr().NotFound? <==>
      q.withProxy.Some? && !HasProxy(store, q.withProxy.value, SelectRows(store.accounts, q)[i].proxyID)
  {
    NodeTree(store, q, nodes, made, i);
    AccessorsShowTree(made, nodes[i]);
    if q.withProxy.Some? {
      ProxyFoundExactly(store, q.withProxy.value, SelectRows(store.accounts, q)[i].proxyID);
    }
  }

  lemma ParentAccessExact(store: Store, q: AccountQuery, nodes: seq<Account>, made: set<Account>, i: nat)
    requires ValidStore(store) && PlainEdges(q) && IsLoaded(store, q, nodes, made) && i < |nodes|
    ensures i < |SelectRows(store.accounts, q)|
    ensures nodes[i].ParentOrErr().NotLoaded? <==> q.withParent.None?
    ensures nodes[i].ParentOrErr().NotFound? <==>
      q.withParent.Some? && !HasParentRow(store, q.withParent.value, SelectRows(store.accounts, q)[i].parentID)
  {
    NodeTree(store, q, nodes, made, i);
    AccessorsShowTree(made, nodes[i]);
    if q.withParent.Some? {
      ParentFoundExactly(store, q.withParent.value, SelectRows(store.accounts, q)[i].parentID);
    }
  }

  /** What the accessors return is what queries of their own would have returned: through the method that runs
      everything, down to the objects. */
  method LoadedIsNested(db: Database, store: Store, b: AccountQueryBuilder)
    returns (ok: bool, nodes: seq<Account>, ghost made: set<Account>)
    requires ValidStore(store) && b.Valid() && PlainEdges(b.Query())
    modifies db`asked, b.Repr`own
    ensures var q := old(b.Query());
      && (ok ==> TreesOf(nodes) == Map(SelectRows(store.accounts, q), NestedFn(store, q)))
      && (ok <==> Sound(store, q) && db.AllUp(old(db.asked), db.asked))
      && db.asked <= old(db.asked) + Builders(q)
    ensures ok ==> Linked(made) && forall a :: a in nodes ==> a in made
  {
    ghost var q := b.Query();
    BatchedIsNested(store, q);
    QueriesBounded(store, q);
    ok, nodes, made := RunAll(db, store, b);
  }

  lemma LoadedGraphs(store: Store, q: AccountQuery, nodes: seq<Account>, made: set<Account>)
    requires IsLoaded(store, q, nodes, made)
    ensures TreesOf(nodes) == All(store, q) && Linked(made)
  {
  }

  lemma RanWhenUp(db: Database, ok: bool, sound: bool, start: nat, mid: nat, end: nat, n: nat)
    requires Ran(db, ok, sound, mid, end, n) && start <= mid && db.AllUp(start, end)
    ensures ok <==> sound
  {
  }

  lemma RanForward(db: Database, ok: bool, sound: bool, start: nat, end: nat, n: nat)
    requires Ran(db, ok, sound, start, end, n)
    ensures start <= end
  {
  }

  /** A builder run again, against the same store or another. If the database answers, the second run loads what a
      fresh builder would exactly when every row that is selected belongs to a node of the first run, and no groups
      are; against the same store, exactly when no groups were found. The graphs of the first run stay. */
  method RunAgain(db: Database, first: Store, store: Store, b: AccountQueryBuilder)
    returns (ok: bool, nodes: seq<Account>, again: bool, others: seq<Account>, ghost made: set<Account>)
    requires ValidStore(first) && ValidStore(store) && b.Valid() && Sound(store, b.Query())
    modifies db`asked, b.Repr`own
    ensures var q := old(b.Query());
      && (ok ==> Linked(made) && TreesOf(nodes) == All(first, q))
      && (ok && db.AllUp(old(db.asked), db.asked) ==>
          (again && TreesOf(others) == All(store, q) <==> EagerRerun.Known(first, store, q, q)))
      && (ok && first == store && db.AllUp(old(db.asked), db.asked) ==>
          (again <==> EagerRerun.NoGroupsFound(store, q)) && (again ==> TreesOf(others) == All(store, q)))
  {
    hide *;
    ghost var q, start := b.Query(), db.asked;
    SecondRun(first, store, q);
    again, others := false, [];
    ok, nodes, made := RunAll(db, first, b);
    if ok {
      RanForward(db, ok, Sound(first, q), start, db.asked, Queries(first, q));
      LoadedGraphs(first, q, nodes, made);
      ghost var mid, more := db.asked, {};
      label First:
      again, others, more := RunAll(db, store, b);
      LinkedKept@First(made);
      if again {
        LoadedGraphs(store, AfterRun(first, q), others, more);
      }
      if db.AllUp(start, db.asked) {
        ghost var kept := AfterRun(first, q);
        RanWhenUp(db, again, Sound(store, kept), start, mid, db.asked, Queries(store, kept));
      }
    }
  }

  lemma SecondRun(first: Store, store: Store, q: AccountQuery)
    requires ValidStore(store) && Sound(store, q)
    ensures Sound(store, AfterRun(first, q)) && All(store, AfterRun(first, q)) == All(store, q)
            <==> EagerRerun.Known(first, store, q, q)
    ensures first == store ==>
      && (Sound(store, AfterRun(first, q)) <==> EagerRerun.NoGroupsFound(store, q))
      && (Sound(store, AfterRun(first, q)) ==> All(store, AfterRun(first, q)) == All(store, q))
  {
    hide All, Sound, AfterRun, EagerRerun.Known, EagerRerun.NoGroupsFound, EagerRerun.Used, ValidStore;
    EagerRerun.UsedBySelf(first, q);
    EagerRerun.RunAgainExactly(first, store, q, q);
    EagerRerun.RunTwice(store, q);
  }

  lemma LimitRaised(store: Store, q: AccountQuery, f: AccountQuery)
    requires f == q.(limit := f.limit)
    ensures AfterRun(store, q).(limit := f.limit) == EagerRerun.Used(store, q, f)
  {
    hide AfterRun;
    EagerRerun.RootKept(store, q);
  }

  /** A builder with children run with Limit(1), and then with Limit(3), against two accounts and a child of the second:
      the child is missing. */
  method LargerPage(db: Database) returns (ok: bool, nodes: seq<Account>)
    modifies db`asked
    ensures ok ==>
      TreesOf(nodes) != All(Store(EagerRerun.FAMILY, [], [], [], []),
                            EagerRerun.Plain(Some(3), Some(EagerRerun.Plain(None, None))))
  {
    hide All, AfterRun, Sound, Ran, Queries, EagerRerun.Used, Linked;
    var store := Store(EagerRerun.FAMILY, [], [], [], []);
    var b := new AccountQueryBuilder();
    var c := new AccountQueryBuilder();
    b.WithChildren(c);
    b.Limit(1);
    ghost var q := b.Query();
    ghost var made;
    ok, nodes, made := RunAll(db, store, b);
    if ok {
      b.Limit(3);
      LimitRaised(store, q, q.(limit := Some(3)));
      EagerRerun.LargerPageMisses();
      ok, nodes, made := RunAll(db, store, b);
    }
  }
}
