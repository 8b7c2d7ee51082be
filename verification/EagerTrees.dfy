/** Lists of loaded accounts: the rows they come from, and when what each node is given of two lists tells them apart.
    */
module EagerTrees {
  import opened Common
  import opened AccountSchema
  import opened EagerSpec
  import opened EagerRefines

  // ---------------------------------------------------------------- the batched result

  lemma AllIsAttached(store: Store, x: AccountQuery)
    ensures All(store, x) == Map(Nodes(store, x), Attacher(x, EdgesOf(store, x, Nodes(store, x))))
  {
    hide Nodes, Attacher, EdgesOf;
  }

  lemma NothingLoaded(store: Store, x: AccountQuery)
    requires Nodes(store, x) == []
    ensures All(store, x) == []
  {
    hide Nodes;
  }

  lemma ParentEdges(store: Store, x: AccountQuery, nodes: seq<AccountRow>)
    ensures EdgesOf(store, x, nodes).parents
            == if x.withParent.None? || ParentKeys(nodes) == {} then []
               else All(store, ParentQuery(x.withParent.value, ParentKeys(nodes)))
  {
    hide All, GroupRows, ProxyRows, OwnedRows;
  }

  lemma ChildEdges(store: Store, x: AccountQuery, nodes: seq<AccountRow>)
    ensures EdgesOf(store, x, nodes).children
            == if x.withChildren.None? then [] else All(store, ChildrenQuery(x.withChildren.value, IDs(nodes)))
  {
    hide All, GroupRows, ProxyRows, OwnedRows;
  }

  /** A query whose filters alone differ, and not in what they select, gives the same graphs. */
  lemma AllByRows(store: Store, x: AccountQuery, y: AccountQuery)
    requires SelectRows(store.accounts, x) == SelectRows(store.accounts, y) && x == y.(predicates := x.predicates)
    ensures All(store, x) == All(store, y)
  {
    assert SpecColumns(x) == SpecColumns(y);
    assert Nodes(store, x) == Nodes(store, y);
    EdgesByRows(store, x, y, Nodes(store, x));
    AttachByRows(x, y, EdgesOf(store, x, Nodes(store, x)), Nodes(store, x));
  }

  lemma EdgesByRows(store: Store, x: AccountQuery, y: AccountQuery, nodes: seq<AccountRow>)
    requires x == y.(predicates := x.predicates)
    ensures EdgesOf(store, x, nodes) == EdgesOf(store, y, nodes)
  {
    hide All, GroupRows, ProxyRows, OwnedRows, IDs, Present, ParentQuery, ChildrenQuery, Depth;
  }

  lemma AttachByRows(x: AccountQuery, y: AccountQuery, e: Edges, nodes: seq<AccountRow>)
    requires x == y.(predicates := x.predicates)
    ensures Map(nodes, Attacher(x, e)) == Map(nodes, Attacher(y, e))
  {
    forall n
      ensures Attacher(x, e)(n) == Attacher(y, e)(n)
    {
      assert Attach(x, n, e) == Attach(y, n, e);
    }
  }

  lemma TreeCount(store: Store, q: AccountQuery)
    ensures |All(store, q)| == |SelectRows(store.accounts, q)|
  {
  }

  lemma TreesHaveRows(store: Store, q: AccountQuery, i: nat)
    requires i < |All(store, q)|
    ensures |All(store, q)| == |SelectRows(store.accounts, q)|
    ensures All(store, q)[i].row == Decode(q)(SelectRows(store.accounts, q)[i])
  {
    assert All(store, q)[i].row == Nodes(store, q)[i];
  }

  // ---------------------------------------------------------------- rows selected by key

  lemma FilterFits<T>(s: seq<T>, p: T -> bool)
    ensures forall x :: x in Filter(s, p) ==> p(x)
  {
  }

  lemma KeyHasNode(nodes: seq<AccountRow>, key: AccountRow -> Option<int>, id: int) returns (i: nat)
    requires id in Present(Map(nodes, key))
    ensures i < |nodes| && key(nodes[i]) == Some(id)
  {
    var keys := Map(nodes, key);
    i :| 0 <= i < |keys| && keys[i].Some? && keys[i].value == id;
  }

  lemma ChildSelected(store: Store, c: AccountQuery, ids: set<int>, r: AccountRow)
    requires r in SelectRows(store.accounts, ChildrenQuery(c, ids))
    ensures r.parentID.Some? && r.parentID.value in ids
  {
    FilterHolds(store.accounts, Matching(ChildrenQuery(c, ids)), r);
    MatchWhere(AppendFieldOnce(c, ParentAccountID), ParentIn(ids), r);
  }

  lemma ChildTreeParent(store: Store, c: AccountQuery, ids: set<int>, j: nat)
    requires j < |All(store, ChildrenQuery(c, ids))|
    ensures j < |SelectRows(store.accounts, ChildrenQuery(c, ids))|
    ensures All(store, ChildrenQuery(c, ids))[j].row.parentID
            == SelectRows(store.accounts, ChildrenQuery(c, ids))[j].parentID
  {
    TreesHaveRows(store, ChildrenQuery(c, ids), j);
    var r := SelectRows(store.accounts, ChildrenQuery(c, ids))[j];
    DecodeIgnoresWhere(AppendFieldOnce(c, ParentAccountID), ParentIn(ids), r);
    DecodeKeepsKeys(c, r);
  }

  lemma ParentSelected(store: Store, p: AccountQuery, ids: set<int>, r: AccountRow)
    requires r in SelectRows(store.accounts, ParentQuery(p, ids))
    ensures r.id in ids
  {
    FilterHolds(store.accounts, Matching(ParentQuery(p, ids)), r);
    MatchWhere(p, IDIn(ids), r);
  }

  lemma ParentTreeID(store: Store, p: AccountQuery, j: nat)
    requires j < |All(store, p)|
    ensures j < |SelectRows(store.accounts, p)| && All(store, p)[j].row.id == SelectRows(store.accounts, p)[j].id
  {
    TreesHaveRows(store, p, j);
    DecodeKeepsKeys(p, SelectRows(store.accounts, p)[j]);
  }

  // ---------------------------------------------------------------- targets and owned rows

  /** Every node gets the same rows from both. */
  ghost predicate SameShares(a: seq<OwnedRow>, b: seq<OwnedRow>, nodes: seq<AccountRow>) {
    forall i :: 0 <= i < |nodes| ==> Filter(a, OwnedBy(nodes[i].id)) == Filter(b, OwnedBy(nodes[i].id))
  }

  ghost predicate SameProxies(a: seq<TargetRow>, b: seq<TargetRow>, nodes: seq<AccountRow>) {
    forall i :: 0 <= i < |nodes| ==> TargetFor(a, nodes[i].proxyID) == TargetFor(b, nodes[i].proxyID)
  }

  lemma SelfAlike(rows: seq<TargetRow>, nodes: seq<AccountRow>)
    ensures SameProxies(rows, rows, nodes)
  {
  }

  lemma {:induction false} TargetPresent(rows: seq<TargetRow>, id: int)
    ensures TargetFor(rows, Some(id)).Some? <==> exists r :: r in rows && r.id == id
    decreases |rows|
  {
    if rows != [] {
      var init, last := rows[..|rows| - 1], rows[|rows| - 1];
      assert rows == init + [last] && last in rows;
      TargetPresent(init, id);
    }
  }

  // ---------------------------------------------------------------- children

  ghost predicate SameFamilies(a: seq<AccountTree>, b: seq<AccountTree>, nodes: seq<AccountRow>) {
    forall i :: 0 <= i < |nodes| ==> Filter(a, ChildOf(nodes[i].id)) == Filter(b, ChildOf(nodes[i].id))
  }

  lemma NoFamilyDiffers(trees: seq<AccountTree>, nodes: seq<AccountRow>)
    ensures SameFamilies(trees, trees, nodes)
  {
  }

  /** Lists whose elements have the same parents in the same places, and agree parent by parent, are equal. */
  lemma {:induction false} SameByParent(a: seq<AccountTree>, b: seq<AccountTree>)
    requires |a| == |b| && forall i :: 0 <= i < |a| ==>
      a[i].row.parentID == b[i].row.parentID && a[i].row.parentID.Some?
    requires forall i :: 0 <= i < |a| ==>
      Filter(a, ChildOf(a[i].row.parentID.value)) == Filter(b, ChildOf(a[i].row.parentID.value))
    ensures a == b
  {
    if a != [] {
      var k := a[0].row.parentID.value;
      assert Filter(a, ChildOf(k)) == [a[0]] + Filter(a[1..], ChildOf(k));
      assert Filter(b, ChildOf(k)) == [b[0]] + Filter(b[1..], ChildOf(k));
      assert a[0] == Filter(a, ChildOf(k))[0] == b[0];
      forall i | 0 <= i < |a[1..]|
        ensures Filter(a[1..], ChildOf(a[1..][i].row.parentID.value))
                == Filter(b[1..], ChildOf(a[1..][i].row.parentID.value))
      {
        SameTails(a, b, a[i + 1].row.parentID.value);
      }
      SameByParent(a[1..], b[1..]);
      assert a == [a[0]] + a[1..] && b == [b[0]] + b[1..];
    }
  }

  lemma SameTails(a: seq<AccountTree>, b: seq<AccountTree>, k: int)
    requires |a| > 0 && |b| > 0 && a[0] == b[0] && Filter(a, ChildOf(k)) == Filter(b, ChildOf(k))
    ensures Filter(a[1..], ChildOf(k)) == Filter(b[1..], ChildOf(k))
  {
    var head := if ChildOf(k)(a[0]) then [a[0]] else [];
    assert Filter(a, ChildOf(k)) == head + Filter(a[1..], ChildOf(k));
    assert Filter(b, ChildOf(k)) == head + Filter(b[1..], ChildOf(k));
    assert Filter(a[1..], ChildOf(k)) == Filter(a, ChildOf(k))[|head|..];
    assert Filter(b[1..], ChildOf(k)) == Filter(b, ChildOf(k))[|head|..];
  }

  /** Children of the nodes, in the same places, that every node is given alike, are alike. */
  lemma SameByNodes(a: seq<AccountTree>, b: seq<AccountTree>, nodes: seq<AccountRow>)
    requires |a| == |b| && SameFamilies(a, b, nodes)
    requires forall i :: 0 <= i < |a| ==>
      a[i].row.parentID == b[i].row.parentID && a[i].row.parentID.Some? && a[i].row.parentID.value in IDs(nodes)
    ensures a == b
  {
    forall i | 0 <= i < |a|
      ensures Filter(a, ChildOf(a[i].row.parentID.value)) == Filter(b, ChildOf(a[i].row.parentID.value))
    {
      var n :| 0 <= n < |nodes| && nodes[n].id == a[i].row.parentID.value;
    }
    SameByParent(a, b);
  }

  // ---------------------------------------------------------------- parents

  ghost predicate SameParents(a: seq<AccountTree>, b: seq<AccountTree>, nodes: seq<AccountRow>) {
    forall i :: 0 <= i < |nodes| ==> TreeFor(a, nodes[i].parentID) == TreeFor(b, nodes[i].parentID)
  }

  lemma NothingDiffers(trees: seq<AccountTree>, nodes: seq<AccountRow>)
    ensures SameParents(trees, trees, nodes)
  {
  }

  lemma {:induction false} TreePresent(trees: seq<AccountTree>, id: int)
    ensures TreeFor(trees, Some(id)).Some? <==> exists t :: t in trees && t.row.id == id
    decreases |trees|
  {
    if trees != [] {
      var init, last := trees[..|trees| - 1], trees[|trees| - 1];
      assert trees == init + [last] && last in trees;
      TreePresent(init, id);
    }
  }

  ghost predicate DistinctTrees(trees: seq<AccountTree>) {
    forall i, j :: 0 <= i < j < |trees| ==> trees[i].row.id != trees[j].row.id
  }

  lemma {:induction false} TreeForOwn(trees: seq<AccountTree>, i: nat)
    requires DistinctTrees(trees) && i < |trees|
    ensures TreeFor(trees, Some(trees[i].row.id)) == Some(trees[i])
    decreases |trees|
  {
    if i < |trees| - 1 {
      assert trees[|trees| - 1].row.id != trees[i].row.id;
      TreeForOwn(trees[..|trees| - 1], i);
    }
  }

  lemma TreesDistinct(store: Store, p: AccountQuery)
    requires ValidStore(store)
    ensures DistinctTrees(All(store, p))
  {
    DistinctRows(store.accounts, Matching(p));
    var trees, rows := All(store, p), SelectRows(store.accounts, p);
    forall i, j | 0 <= i < j < |trees|
      ensures trees[i].row.id != trees[j].row.id
    {
      ParentTreeID(store, p, i);
      ParentTreeID(store, p, j);
      assert rows[i] == Filter(store.accounts, Matching(p))[i] && rows[j] == Filter(store.accounts, Matching(p))[j];
    }
  }

  /** Parents of the nodes, in the same places, that every node is given alike, are alike. */
  lemma SameByKeys(a: seq<AccountTree>, b: seq<AccountTree>, nodes: seq<AccountRow>)
    requires |a| == |b| && DistinctTrees(a) && DistinctTrees(b) && SameParents(a, b, nodes)
    requires forall i :: 0 <= i < |a| ==> a[i].row.id == b[i].row.id && a[i].row.id in ParentKeys(nodes)
    ensures a == b
  {
    forall i | 0 <= i < |a|
      ensures a[i] == b[i]
    {
      var n := KeyHasNode(nodes, ParentKey(), a[i].row.id);
      assert nodes[n].parentID == Some(a[i].row.id);
      TreeForOwn(a, i);
      TreeForOwn(b, i);
    }
  }
}
