/** The eager loader itself: entities on the heap, maps from keys to nodes, and one load per edge
    (sqlAll and the load methods of backend/ent/account_query.go). */
module EagerLoad {
  import opened Common
  import opened EagerSpec

  // ---------------------------------------------------------------- entities

  /** A group or a proxy. */
  class Target {
    const row: TargetRow

    constructor (row: TargetRow)
      ensures this.row == row
    {
      this.row := row;
    }
  }

  /** A usage log or an account-group link. */
  class Owned {
    const row: OwnedRow

    constructor (row: OwnedRow)
      ensures this.row == row
    {
      this.row := row;
    }
  }

  datatype LoadedTypes = LoadedTypes(
    groups: bool, proxy: bool, parent: bool, children: bool, usageLogs: bool, accountGroups: bool)

  /** What an edge accessor returns. */
  datatype Edge<+T> = Found(value: T) | NotFound | NotLoaded

  class Account {
    const row: AccountRow
    const loaded: LoadedTypes
    var groups: seq<Target>
    var proxy: Target?
    var parent: Account?
    var children: seq<Account>
    var usageLogs: seq<Owned>
    var accountGroups: seq<Owned>
    /** The loaded graph below this account. */
    ghost var tree: AccountTree

    constructor (row: AccountRow, loaded: LoadedTypes)
      ensures this.row == row && this.loaded == loaded
      ensures groups == [] && proxy == null && parent == null && children == []
      ensures usageLogs == [] && accountGroups == []
    {
      this.row, this.loaded := row, loaded;
      groups, proxy, parent, children, usageLogs, accountGroups := [], null, null, [], [], [];
    }

    function GroupsOrErr(): Edge<seq<Target>>
      reads this
    {
      if loaded.groups then Found(groups) else NotLoaded
    }

    function ProxyOrErr(): Edge<Target>
      reads this
    {
      if proxy != null then Found(proxy) else if loaded.proxy then NotFound else NotLoaded
    }

    function ParentOrErr(): Edge<Account>
      reads this
    {
      if parent != null then Found(parent) else if loaded.parent then NotFound else NotLoaded
    }

    function ChildrenOrErr(): Edge<seq<Account>>
      reads this
    {
      if loaded.children then Found(children) else NotLoaded
    }

    function UsageLogsOrErr(): Edge<seq<Owned>>
      reads this
    {
      if loaded.usageLogs then Found(usageLogs) else NotLoaded
    }

    function AccountGroupsOrErr(): Edge<seq<Owned>>
      reads this
    {
      if loaded.accountGroups then Found(accountGroups) else NotLoaded
    }
  }

  function TargetRowOf(): Target -> TargetRow {
    (t: Target) => t.row
  }

  function OwnedRowOf(): Owned -> OwnedRow {
    (o: Owned) => o.row
  }

  function AccountRowOf(): Account -> AccountRow {
    (a: Account) => a.row
  }

  ghost predicate DistinctNodes(nodes: seq<Account>) {
    forall i, j :: 0 <= i < j < |nodes| ==> nodes[i] != nodes[j]
  }

  /** Some node has the id. */
  ghost predicate IsNodeID(nodes: seq<Account>, id: int) {
    exists i :: 0 <= i < |nodes| && nodes[i].row.id == id
  }

  /** The node that a map from ids to nodes keeps: the last one with its id. */
  ghost predicate IsLast(nodes: seq<Account>, i: nat)
    requires i < |nodes|
  {
    forall j :: i < j < |nodes| ==> nodes[j].row.id != nodes[i].row.id
  }

  /** byID maps each id among the nodes to the last node with that id, and nothing else. */
  ghost predicate MapsLast(byID: map<int, Account>, nodes: seq<Account>) {
    && (forall id :: id in byID ==> exists i :: 0 <= i < |nodes| && byID[id] == nodes[i] && nodes[i].row.id == id)
    && (forall i :: 0 <= i < |nodes| ==> nodes[i].row.id in byID)
    && (forall i :: 0 <= i < |nodes| && IsLast(nodes, i) ==> byID[nodes[i].row.id] == nodes[i])
  }

  lemma MapsLastGrows(byID: map<int, Account>, nodes: seq<Account>, a: Account)
    requires MapsLast(byID, nodes)
    ensures MapsLast(byID[a.row.id := a], nodes + [a])
  {
    var next, more := byID[a.row.id := a], nodes + [a];
    assert more[|nodes|] == a;
    forall i | 0 <= i < |more| && IsLast(more, i)
      ensures next[more[i].row.id] == more[i]
    {
      if i < |nodes| {
        assert more[i] == nodes[i] && more[|nodes|].row.id != nodes[i].row.id;
        assert IsLast(nodes, i) by {
          forall j | i < j < |nodes| ensures nodes[j].row.id != nodes[i].row.id { assert more[j] == nodes[j]; }
        }
      }
    }
    forall id | id in next
      ensures exists i :: 0 <= i < |more| && next[id] == more[i] && more[i].row.id == id
    {
      if id == a.row.id {
        assert next[id] == more[|nodes|];
      } else {
        var i :| 0 <= i < |nodes| && byID[id] == nodes[i] && nodes[i].row.id == id;
        assert next[id] == more[i];
      }
    }
    assert forall i :: 0 <= i < |nodes| ==> more[i] == nodes[i];
  }

  lemma MappedNode(byID: map<int, Account>, nodes: seq<Account>, id: int)
    requires MapsLast(byID, nodes) && id in byID
    ensures byID[id] in nodes
  {
    var i :| 0 <= i < |nodes| && byID[id] == nodes[i];
  }

  /** Only the last node of an id is ever reached by that id. */
  lemma ReachedIsLast(byID: map<int, Account>, nodes: seq<Account>, id: int, i: nat)
    requires MapsLast(byID, nodes) && DistinctNodes(nodes) && i < |nodes|
    ensures id in byID && byID[id] == nodes[i] <==> id == nodes[i].row.id && IsLast(nodes, i)
  {
    if id in byID && byID[id] == nodes[i] {
      var k :| 0 <= k < |nodes| && byID[id] == nodes[k] && nodes[k].row.id == id;
      assert k == i;
      var last := LastOf(nodes, i);
      assert byID[nodes[last].row.id] == nodes[last];
      assert last == i;
    }
  }

  lemma LastOf(nodes: seq<Account>, i: nat) returns (k: nat)
    requires i < |nodes|
    ensures i <= k < |nodes| && nodes[k].row.id == nodes[i].row.id && IsLast(nodes, k)
    decreases |nodes| - i
  {
    if IsLast(nodes, i) {
      k := i;
    } else {
      var j :| i < j < |nodes| && nodes[j].row.id == nodes[i].row.id;
      k := LastOf(nodes, j);
    }
  }

  // ---------------------------------------------------------------- many to many

  /** The rows link account id, whose node is a, to group g. */
  ghost predicate Via(id: int, a: Account, g: int, rows: seq<JoinRow>, byID: map<int, Account>) {
    id in byID && byID[id] == a && (id, g) in Links(rows)
  }

  /** nids: for each group seen, the nodes linked to it by the rows. */
  ghost predicate Collects(nids: map<int, set<Account>>, rows: seq<JoinRow>, byID: map<int, Account>) {
    && (forall g :: g in nids <==> g in TargetIDs(FirstTargets(rows)))
    && (forall g, a :: g in nids && a in nids[g] ==> exists id :: Via(id, a, g, rows, byID))
    && (forall id, g :: (id, g) in Links(rows) && id in byID ==> g in nids && byID[id] in nids[g])
  }

  lemma CollectsGrows(nids: map<int, set<Account>>, rows: seq<JoinRow>, byID: map<int, Account>, r: JoinRow)
    requires Collects(nids, rows, byID) && r.0 in byID
    ensures var before := if r.1.id in nids then nids[r.1.id] else {};
      Collects(nids[r.1.id := before + {byID[r.0]}], rows + [r], byID)
  {
    var more := rows + [r];
    var g := r.1.id;
    var next := nids[g := (if g in nids then nids[g] else {}) + {byID[r.0]}];
    LinksSnoc(rows, r);
    FirstTargetsSnoc(rows, r);
    forall h, a | h in next && a in next[h]
      ensures exists id :: Via(id, a, h, more, byID)
    {
      if h == g && a == byID[r.0] {
        assert Via(r.0, a, h, more, byID);
      } else {
        var id :| Via(id, a, h, rows, byID);
        assert Via(id, a, h, more, byID);
      }
    }
  }

  lemma LinksSnoc(rows: seq<JoinRow>, r: JoinRow)
    ensures Links(rows + [r]) == Links(rows) + {(r.0, r.1.id)}
  {
    var more := rows + [r];
    assert more[|rows|] == r;
    forall x | x in Links(rows)
      ensures x in Links(more)
    {
      var i :| 0 <= i < |rows| && x == (rows[i].0, rows[i].1.id);
      assert more[i] == rows[i];
    }
  }

  lemma FirstTargetsSnoc(rows: seq<JoinRow>, r: JoinRow)
    ensures FirstTargets(rows + [r])
            == if r.1.id in TargetIDs(FirstTargets(rows)) then FirstTargets(rows) else FirstTargets(rows) + [r.1]
    ensures TargetIDs(FirstTargets(rows + [r])) == TargetIDs(FirstTargets(rows)) + {r.1.id}
  {
    assert (rows + [r])[..|rows|] == rows;
    TargetIDsSnoc(FirstTargets(rows), r.1);
  }

  /** Scanning the join rows: each group becomes one object, at its first row. */
  method ScanGroups(rows: seq<JoinRow>, byID: map<int, Account>)
    returns (neighbors: seq<Target>, nids: map<int, set<Account>>)
    requires forall i :: 0 <= i < |rows| ==> rows[i].0 in byID
    ensures fresh(neighbors)
    ensures Map(neighbors, TargetRowOf()) == FirstTargets(rows)
    ensures Collects(nids, rows, byID)
  {
    neighbors, nids := [], map[];
    ghost var done: seq<JoinRow> := [];
    var i := 0;
    while i < |rows|
      invariant 0 <= i <= |rows| && done == rows[..i]
      invariant fresh(neighbors)
      invariant Map(neighbors, TargetRowOf()) == FirstTargets(done)
      invariant Collects(nids, done, byID)
    {
      var account, group := rows[i].0, rows[i].1;
      TakeSnoc(rows, i);
      CollectsGrows(nids, done, byID, rows[i]);
      FirstTargetsSnoc(done, rows[i]);
      if group.id !in nids {
        nids := nids[group.id := {byID[account]}];
        var t := new Target(group);
        MapAppend(neighbors, [t], TargetRowOf());
        neighbors := neighbors + [t];
      } else {
        nids := nids[group.id := nids[group.id] + {byID[account]}];
      }
      done := done + [rows[i]];
      i := i + 1;
    }
    assert done == rows;
  }

  /** The neighbors that list the account among their nodes. */
  function Listing(nids: map<int, set<Account>>, a: Account): Target -> bool {
    (t: Target) => t.row.id in nids && a in nids[t.row.id]
  }

  /** Appends the group to every member, in whatever order the set yields them. */
  method GiveGroup(members: set<Account>, n: Target)
    modifies members`groups
    ensures forall a :: a in members ==> a.groups == old(a.groups) + [n]
  {
    var rest := members;
    while rest != {}
      invariant rest <= members
      invariant forall a :: a in members ==> a.groups == if a in rest then old(a.groups) else old(a.groups) + [n]
      decreases |rest|
    {
      var kn :| kn in rest;
      kn.groups := kn.groups + [n];
      rest := rest - {kn};
    }
  }

  /** Hands every neighbor to each of its nodes. */
  method FanOut(nodes: seq<Account>, neighbors: seq<Target>, nids: map<int, set<Account>>) returns (err: bool)
    requires DistinctNodes(nodes)
    requires forall i :: 0 <= i < |nodes| ==> nodes[i].groups == []
    requires forall g, a :: g in nids && a in nids[g] ==> a in nodes
    modifies nodes`groups
    ensures err <==> exists k :: 0 <= k < |neighbors| && neighbors[k].row.id !in nids
    ensures !err ==> forall a :: a in nodes ==> a.groups == Filter(neighbors, Listing(nids, a))
  {
    ghost var done: seq<Target> := [];
    var k := 0;
    while k < |neighbors|
      invariant 0 <= k <= |neighbors| && done == neighbors[..k]
      invariant forall m :: 0 <= m < k ==> neighbors[m].row.id in nids
      invariant forall a :: a in nodes ==> a.groups == Filter(done, Listing(nids, a))
    {
      var n := neighbors[k];
      if n.row.id !in nids {
        return true;
      }
      assert forall a :: a in nids[n.row.id] ==> a in nodes;
      GiveGroup(nids[n.row.id], n);
      forall a | a in nodes
        ensures Filter(done + [n], Listing(nids, a))
                == Filter(done, Listing(nids, a)) + (if a in nids[n.row.id] then [n] else [])
      {
        FilterSnoc(done, n, Listing(nids, a));
      }
      TakeSnoc(neighbors, k);
      done := done + [n];
      k := k + 1;
    }
    assert done == neighbors;
    return false;
  }

  /** Two accounts that have a group in common have the same object for it. */
  ghost predicate OneObjectPerGroup(nodes: seq<Account>)
    reads nodes
  {
    forall a, b, t, u :: a in nodes && b in nodes && t in a.groups && u in b.groups && t.row.id == u.row.id ==> t == u
  }

  method IndexNodes(nodes: seq<Account>) returns (byID: map<int, Account>)
    modifies nodes`groups
    ensures MapsLast(byID, nodes)
    ensures forall a :: a in nodes ==> a.groups == []
  {
    byID := map[];
    ghost var done: seq<Account> := [];
    var i := 0;
    while i < |nodes|
      invariant 0 <= i <= |nodes| && done == nodes[..i]
      invariant MapsLast(byID, done)
      invariant forall k :: 0 <= k < i ==> nodes[k].groups == []
    {
      MapsLastGrows(byID, done, nodes[i]);
      TakeSnoc(nodes, i);
      byID := byID[nodes[i].row.id := nodes[i]];
      nodes[i].groups := [];
      done := done + [nodes[i]];
      i := i + 1;
    }
    assert done == nodes;
  }

  /** Loads the groups edge: every node that is the last of its id gets exactly the groups linked to it,
      each once, ordered by first appearance in the rows; earlier nodes of the same id get none. */
  method LoadGroups(nodes: seq<Account>, rows: seq<JoinRow>) returns (err: bool)
    requires DistinctNodes(nodes)
    requires forall i :: 0 <= i < |rows| ==> IsNodeID(nodes, rows[i].0)
    modifies nodes`groups
    ensures !err
    ensures forall i :: 0 <= i < |nodes| ==>
      Map(nodes[i].groups, TargetRowOf()) == if IsLast(nodes, i) then GroupsFor(rows, nodes[i].row.id) else []
    ensures OneObjectPerGroup(nodes)
  {
    var byID := IndexNodes(nodes);
    forall i | 0 <= i < |rows|
      ensures rows[i].0 in byID
    {
      assert IsNodeID(nodes, rows[i].0);
      var k :| 0 <= k < |nodes| && nodes[k].row.id == rows[i].0;
    }
    var neighbors, nids := ScanGroups(rows, byID);
    forall g, a | g in nids && a in nids[g]
      ensures a in nodes
    {
      var id :| Via(id, a, g, rows, byID);
    }
    NeighborsAreListed(neighbors, nids, rows, byID);
    err := FanOut(nodes, neighbors, nids);
    forall i | 0 <= i < |nodes|
      ensures Map(nodes[i].groups, TargetRowOf()) == if IsLast(nodes, i) then GroupsFor(rows, nodes[i].row.id) else []
    {
      assert nodes[i] in nodes;
      GroupsOfNode(nodes, i, rows, byID, neighbors, nids);
    }
    SharedGroups(nodes, neighbors, rows, nids);
  }

  lemma SharedGroups(nodes: seq<Account>, neighbors: seq<Target>, rows: seq<JoinRow>, nids: map<int, set<Account>>)
    requires Map(neighbors, TargetRowOf()) == FirstTargets(rows)
    requires forall a :: a in nodes ==> a.groups == Filter(neighbors, Listing(nids, a))
    ensures OneObjectPerGroup(nodes)
  {
    OneObjectPerID(neighbors, rows);
    forall a | a in nodes
      ensures forall t :: t in a.groups ==> t in neighbors
    {
      FilterFrom(neighbors, Listing(nids, a));
    }
  }

  lemma NeighborsAreListed(neighbors: seq<Target>, nids: map<int, set<Account>>, rows: seq<JoinRow>,
                           byID: map<int, Account>)
    requires Map(neighbors, TargetRowOf()) == FirstTargets(rows) && Collects(nids, rows, byID)
    ensures forall k :: 0 <= k < |neighbors| ==> neighbors[k].row.id in nids
  {
    forall k | 0 <= k < |neighbors|
      ensures neighbors[k].row.id in nids
    {
      assert FirstTargets(rows)[k] == neighbors[k].row;
    }
  }

  lemma GroupsOfNode(nodes: seq<Account>, i: nat, rows: seq<JoinRow>, byID: map<int, Account>,
                     neighbors: seq<Target>, nids: map<int, set<Account>>)
    requires i < |nodes| && DistinctNodes(nodes) && MapsLast(byID, nodes)
    requires Map(neighbors, TargetRowOf()) == FirstTargets(rows) && Collects(nids, rows, byID)
    ensures Map(Filter(neighbors, Listing(nids, nodes[i])), TargetRowOf())
            == if IsLast(nodes, i) then GroupsFor(rows, nodes[i].row.id) else []
  {
    var a, id := nodes[i], nodes[i].row.id;
    ReachedIsLast(byID, nodes, id, i);
    forall t | t in neighbors
      ensures Listing(nids, a)(t) <==> IsLast(nodes, i) && LinkedTo(rows, id)(t.row)
    {
      if Listing(nids, a)(t) {
        var x :| Via(x, a, t.row.id, rows, byID);
        ReachedIsLast(byID, nodes, x, i);
      }
    }
    if IsLast(nodes, i) {
      FilterOfMap(neighbors, TargetRowOf(), LinkedTo(rows, id), Listing(nids, a));
    } else {
      FilterNone(neighbors, Listing(nids, a));
    }
  }

  lemma {:induction false} FirstTargetsDistinct(rows: seq<JoinRow>)
    ensures DistinctTargets(FirstTargets(rows))
    decreases |rows|
  {
    if rows != [] {
      var init, r := rows[..|rows| - 1], rows[|rows| - 1];
      assert rows == init + [r];
      FirstTargetsDistinct(init);
      FirstTargetsSnoc(init, r);
      var firsts := FirstTargets(init);
      assert forall k :: 0 <= k < |firsts| ==> firsts[k].id in TargetIDs(firsts);
    }
  }

  lemma OneObjectPerID(neighbors: seq<Target>, rows: seq<JoinRow>)
    requires Map(neighbors, TargetRowOf()) == FirstTargets(rows)
    ensures forall t, u :: t in neighbors && u in neighbors && t.row.id == u.row.id ==> t == u
  {
    FirstTargetsDistinct(rows);
    forall t, u | t in neighbors && u in neighbors && t.row.id == u.row.id
      ensures t == u
    {
      var k :| 0 <= k < |neighbors| && neighbors[k] == t;
      var l :| 0 <= l < |neighbors| && neighbors[l] == u;
      assert FirstTargets(rows)[k] == t.row && FirstTargets(rows)[l] == u.row;
    }
  }
}
