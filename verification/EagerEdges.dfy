/** The loads of the to-one and one-to-many edges (loadProxy, loadParent, loadChildren, loadUsageLogs and
    loadAccountGroups of backend/ent/account_query.go). */
module EagerEdges {
  import opened Common
  import opened EagerSpec
  import opened EagerLoad

  // ---------------------------------------------------------------- to one: buckets by foreign key

  function KeyIs(key: AccountRow -> Option<int>, k: int): Account -> bool {
    (a: Account) => key(a.row) == Some(k)
  }

  function HasKey(key: AccountRow -> Option<int>): Account -> bool {
    (a: Account) => key(a.row).Some?
  }

  function SizeSum(ids: seq<int>, buckets: map<int, seq<Account>>): nat {
    if ids == [] then 0
    else var k := ids[|ids| - 1]; (if k in buckets then |buckets[k]| else 0) + SizeSum(ids[..|ids| - 1], buckets)
  }

  ghost predicate Occurs(nodes: seq<Account>, key: AccountRow -> Option<int>, k: int) {
    exists i :: 0 <= i < |nodes| && KeyIs(key, k)(nodes[i])
  }

  /** Each key present among the nodes once in ids, and its nodes, in order, in its bucket. */
  ghost predicate Buckets(ids: seq<int>, buckets: map<int, seq<Account>>, nodes: seq<Account>,
                          key: AccountRow -> Option<int>) {
    && Distinct(ids)
    && (forall k :: k in ids <==> k in buckets)
    && (forall k :: k in buckets <==> Occurs(nodes, key, k))
    && (forall k :: k in buckets ==> buckets[k] == Filter(nodes, KeyIs(key, k)))
  }

  lemma {:induction false} SizeSumOther(ids: seq<int>, before: map<int, seq<Account>>, after: map<int, seq<Account>>,
                                        k: int)
    requires k !in ids
    requires forall x :: x != k ==> (x in before <==> x in after) && (x in before ==> after[x] == before[x])
    ensures SizeSum(ids, after) == SizeSum(ids, before)
  {
    if ids != [] {
      SizeSumOther(ids[..|ids| - 1], before, after, k);
    }
  }

  lemma {:induction false} SizeSumGrows(ids: seq<int>, before: map<int, seq<Account>>, k: int, a: Account)
    requires Distinct(ids) && k in ids && k in before
    ensures SizeSum(ids, before[k := before[k] + [a]]) == SizeSum(ids, before) + 1
  {
    var after := before[k := before[k] + [a]];
    var init, last := ids[..|ids| - 1], ids[|ids| - 1];
    if last == k {
      SizeSumOther(init, before, after, k);
    } else {
      assert k in init;
      SizeSumGrows(init, before, k, a);
    }
  }

  lemma SizeSumNew(ids: seq<int>, before: map<int, seq<Account>>, k: int, a: Account)
    requires k !in ids
    ensures SizeSum(ids + [k], before[k := [a]]) == SizeSum(ids, before) + 1
  {
    assert (ids + [k])[..|ids|] == ids;
    SizeSumOther(ids, before, before[k := [a]], k);
  }

  lemma OccursGrows(nodes: seq<Account>, a: Account, key: AccountRow -> Option<int>, k: int)
    ensures Occurs(nodes + [a], key, k) <==> key(a.row) == Some(k) || Occurs(nodes, key, k)
  {
    var more := nodes + [a];
    assert more[|nodes|] == a;
    if Occurs(nodes, key, k) {
      var i :| 0 <= i < |nodes| && KeyIs(key, k)(nodes[i]);
      assert KeyIs(key, k)(more[i]);
    }
    if key(a.row) == Some(k) {
      assert KeyIs(key, k)(more[|nodes|]);
    }
  }

  lemma NoOccurrence(nodes: seq<Account>, key: AccountRow -> Option<int>, k: int)
    requires !Occurs(nodes, key, k)
    ensures Filter(nodes, KeyIs(key, k)) == []
  {
    forall i | 0 <= i < |nodes|
      ensures !KeyIs(key, k)(nodes[i])
    {
    }
    FilterNone(nodes, KeyIs(key, k));
  }

  lemma BucketsSkip(ids: seq<int>, buckets: map<int, seq<Account>>, nodes: seq<Account>, a: Account,
                    key: AccountRow -> Option<int>)
    requires Buckets(ids, buckets, nodes, key) && key(a.row).None?
    ensures Buckets(ids, buckets, nodes + [a], key)
  {
    forall k
      ensures Occurs(nodes + [a], key, k) <==> Occurs(nodes, key, k)
      ensures Filter(nodes + [a], KeyIs(key, k)) == Filter(nodes, KeyIs(key, k))
    {
      OccursGrows(nodes, a, key, k);
      FilterSnoc(nodes, a, KeyIs(key, k));
    }
  }

  lemma FilterPut(nodes: seq<Account>, a: Account, key: AccountRow -> Option<int>, fk: int, k: int)
    requires key(a.row) == Some(fk)
    ensures Occurs(nodes + [a], key, k) <==> k == fk || Occurs(nodes, key, k)
    ensures Filter(nodes + [a], KeyIs(key, k)) == Filter(nodes, KeyIs(key, k)) + (if k == fk then [a] else [])
  {
    OccursGrows(nodes, a, key, k);
    FilterSnoc(nodes, a, KeyIs(key, k));
  }

  lemma BucketsPutOld(ids: seq<int>, buckets: map<int, seq<Account>>, nodes: seq<Account>, a: Account,
                      key: AccountRow -> Option<int>, fk: int)
    requires Buckets(ids, buckets, nodes, key) && key(a.row) == Some(fk) && fk in buckets
    ensures Buckets(ids, buckets[fk := buckets[fk] + [a]], nodes + [a], key)
  {
    forall k
      ensures Occurs(nodes + [a], key, k) <==> k == fk || Occurs(nodes, key, k)
      ensures Filter(nodes + [a], KeyIs(key, k)) == Filter(nodes, KeyIs(key, k)) + (if k == fk then [a] else [])
    {
      FilterPut(nodes, a, key, fk, k);
    }
  }

  lemma FilterPutNew(nodes: seq<Account>, a: Account, key: AccountRow -> Option<int>, fk: int, k: int)
    requires key(a.row) == Some(fk) && !Occurs(nodes, key, fk)
    ensures Filter(nodes + [a], KeyIs(key, k)) == if k == fk then [a] else Filter(nodes, KeyIs(key, k))
  {
    FilterPut(nodes, a, key, fk, k);
    NoOccurrence(nodes, key, fk);
  }

  lemma BucketsPutNew(ids: seq<int>, buckets: map<int, seq<Account>>, nodes: seq<Account>, a: Account,
                      key: AccountRow -> Option<int>, fk: int)
    requires Buckets(ids, buckets, nodes, key) && key(a.row) == Some(fk) && fk !in buckets
    ensures Buckets(ids + [fk], buckets[fk := [a]], nodes + [a], key)
  {
    var after, more := buckets[fk := [a]], nodes + [a];
    DistinctSnoc(ids, fk);
    forall k
      ensures k in after <==> Occurs(more, key, k)
      ensures k in after ==> after[k] == Filter(more, KeyIs(key, k))
    {
      OccursGrows(nodes, a, key, k);
      FilterPutNew(nodes, a, key, fk, k);
    }
  }

  /** Nothing is lost: the buckets together hold every node that has a key. */
  method Bucket(nodes: seq<Account>, key: AccountRow -> Option<int>)
    returns (ids: seq<int>, nodeids: map<int, seq<Account>>)
    ensures Buckets(ids, nodeids, nodes, key)
    ensures SizeSum(ids, nodeids) == |Filter(nodes, HasKey(key))|
  {
    ids, nodeids := [], map[];
    ghost var done: seq<Account> := [];
    var i := 0;
    while i < |nodes|
      invariant 0 <= i <= |nodes| && done == nodes[..i]
      invariant Buckets(ids, nodeids, done, key)
      invariant SizeSum(ids, nodeids) == |Filter(done, HasKey(key))|
    {
      var a := nodes[i];
      FilterSnoc(done, a, HasKey(key));
      TakeSnoc(nodes, i);
      i := i + 1;
      if key(a.row).None? {
        BucketsSkip(ids, nodeids, done, a, key);
        done := done + [a];
        continue;
      }
      var fk := key(a.row).value;
      if fk in nodeids {
        BucketsPutOld(ids, nodeids, done, a, key, fk);
        SizeSumGrows(ids, nodeids, fk, a);
        nodeids := nodeids[fk := nodeids[fk] + [a]];
      } else {
        BucketsPutNew(ids, nodeids, done, a, key, fk);
        SizeSumNew(ids, nodeids, fk, a);
        ids, nodeids := ids + [fk], nodeids[fk := [a]];
      }
      done := done + [a];
    }
    assert done == nodes;
  }

  /** The last of xs with the key. */
  function LastWith<T>(xs: seq<T>, id: T -> int, key: Option<int>): Option<T> {
    if key.None? || |xs| == 0 then None
    else if id(xs[|xs| - 1]) == key.value then Some(xs[|xs| - 1])
    else LastWith(xs[..|xs| - 1], id, key)
  }

  lemma LastWithSnoc<T>(xs: seq<T>, x: T, id: T -> int, key: Option<int>)
    ensures LastWith(xs + [x], id, key) == if key == Some(id(x)) then Some(x) else LastWith(xs, id, key)
  {
    assert (xs + [x])[..|xs|] == xs;
  }

  function TargetID(): Target -> int {
    (t: Target) => t.row.id
  }

  function AccountID(): Account -> int {
    (a: Account) => a.row.id
  }

  function ProxyAfter(neighbors: seq<Target>, key: Option<int>, before: Target?): Target? {
    match LastWith(neighbors, TargetID(), key)
    case None => before
    case Some(t) => t
  }

  function ParentAfter(neighbors: seq<Account>, key: Option<int>, before: Account?): Account? {
    match LastWith(neighbors, AccountID(), key)
    case None => before
    case Some(t) => t
  }

  lemma InBucket(nodes: seq<Account>, a: Account, key: AccountRow -> Option<int>, id: int)
    requires a in nodes
    ensures a in Filter(nodes, KeyIs(key, id)) <==> key(a.row) == Some(id)
  {
    if key(a.row) == Some(id) {
      FilterKeeps(nodes, KeyIs(key, id), a);
    }
  }

  method GiveProxy(bucket: seq<Account>, n: Target)
    modifies bucket`proxy
    ensures forall a :: a in bucket ==> a.proxy == n
  {
    var i := 0;
    while i < |bucket|
      invariant 0 <= i <= |bucket|
      invariant forall j :: 0 <= j < i ==> bucket[j].proxy == n
    {
      bucket[i].proxy := n;
      i := i + 1;
    }
  }

  /** Every node whose proxy was returned holds it; every other node is as before. */
  method AssignProxies(nodes: seq<Account>, ids: seq<int>, nodeids: map<int, seq<Account>>, neighbors: seq<Target>)
    returns (err: bool, ghost seen: seq<Target>)
    requires Buckets(ids, nodeids, nodes, ProxyKey())
    modifies nodes`proxy
    ensures seen <= neighbors && (err <==> seen != neighbors)
    ensures forall t :: t in seen ==> t.row.id in nodeids
    ensures err ==> neighbors[|seen|].row.id !in nodeids
    ensures err <==> exists t :: t in neighbors && t.row.id !in nodeids
    ensures forall a :: a in nodes ==> a.proxy == ProxyAfter(seen, a.row.proxyID, old(a.proxy))
  {
    seen := [];
    var k := 0;
    while k < |neighbors|
      invariant 0 <= k <= |neighbors| && seen == neighbors[..k]
      invariant forall t :: t in seen ==> t.row.id in nodeids
      invariant forall a :: a in nodes ==> a.proxy == ProxyAfter(seen, a.row.proxyID, old(a.proxy))
    {
      var n := neighbors[k];
      if n.row.id !in nodeids {
        return true, seen;
      }
      forall a | a in nodes
        ensures a in nodeids[n.row.id] <==> a.row.proxyID == Some(n.row.id)
        ensures ProxyAfter(seen + [n], a.row.proxyID, old(a.proxy))
                == if a.row.proxyID == Some(n.row.id) then n else ProxyAfter(seen, a.row.proxyID, old(a.proxy))
      {
        InBucket(nodes, a, ProxyKey(), n.row.id);
        LastWithSnoc(seen, n, TargetID(), a.row.proxyID);
      }
      FilterFrom(nodes, KeyIs(ProxyKey(), n.row.id));
      GiveProxy(nodeids[n.row.id], n);
      TakeSnoc(neighbors, k);
      seen := seen + [n];
      k := k + 1;
    }
    return false, seen;
  }

  method GiveParent(bucket: seq<Account>, n: Account)
    modifies bucket`parent
    ensures forall a :: a in bucket ==> a.parent == n
  {
    var i := 0;
    while i < |bucket|
      invariant 0 <= i <= |bucket|
      invariant forall j :: 0 <= j < i ==> bucket[j].parent == n
    {
      bucket[i].parent := n;
      i := i + 1;
    }
  }

  /** The same for the parent edge. */
  method AssignParents(nodes: seq<Account>, ids: seq<int>, nodeids: map<int, seq<Account>>, neighbors: seq<Account>)
    returns (err: bool, ghost seen: seq<Account>)
    requires Buckets(ids, nodeids, nodes, ParentKey())
    modifies nodes`parent
    ensures seen <= neighbors && (err <==> seen != neighbors)
    ensures forall t :: t in seen ==> t.row.id in nodeids
    ensures err ==> neighbors[|seen|].row.id !in nodeids
    ensures err <==> exists t :: t in neighbors && t.row.id !in nodeids
    ensures forall a :: a in nodes ==> a.parent == ParentAfter(seen, a.row.parentID, old(a.parent))
  {
    seen := [];
    var k := 0;
    while k < |neighbors|
      invariant 0 <= k <= |neighbors| && seen == neighbors[..k]
      invariant forall t :: t in seen ==> t.row.id in nodeids
      invariant forall a :: a in nodes ==> a.parent == ParentAfter(seen, a.row.parentID, old(a.parent))
    {
      var n := neighbors[k];
      if n.row.id !in nodeids {
        return true, seen;
      }
      forall a | a in nodes
        ensures a in nodeids[n.row.id] <==> a.row.parentID == Some(n.row.id)
        ensures ParentAfter(seen + [n], a.row.parentID, old(a.parent))
                == if a.row.parentID == Some(n.row.id) then n else ParentAfter(seen, a.row.parentID, old(a.parent))
      {
        InBucket(nodes, a, ParentKey(), n.row.id);
        LastWithSnoc(seen, n, AccountID(), a.row.parentID);
      }
      FilterFrom(nodes, KeyIs(ParentKey(), n.row.id));
      GiveParent(nodeids[n.row.id], n);
      TakeSnoc(neighbors, k);
      seen := seen + [n];
      k := k + 1;
    }
    return false, seen;
  }

  // ---------------------------------------------------------------- one to many: children by parent

  function IsChildOf(id: int): Account -> bool {
    (a: Account) => a.row.parentID == Some(id)
  }

  function IsOwnedBy(id: int): Owned -> bool {
    (o: Owned) => o.row.accountID == id
  }

  lemma MapsLastKeys(byID: map<int, Account>, nodes: seq<Account>, id: int)
    requires MapsLast(byID, nodes)
    ensures id in byID <==> IsNodeID(nodes, id)
  {
  }

  /** The children that node i holds: those with its id as parent, if it is the node that stands for the id. */
  ghost function ChildrenShare(nodes: seq<Account>, i: nat, neighbors: seq<Account>): seq<Account>
    requires i < |nodes|
  {
    if IsLast(nodes, i) then Filter(neighbors, IsChildOf(nodes[i].row.id)) else []
  }

  ghost function OwnedShare(nodes: seq<Account>, i: nat, neighbors: seq<Owned>): seq<Owned>
    requires i < |nodes|
  {
    if IsLast(nodes, i) then Filter(neighbors, IsOwnedBy(nodes[i].row.id)) else []
  }

  ghost predicate ChildrenShared(nodes: seq<Account>, seen: seq<Account>)
    reads nodes
  {
    forall i :: 0 <= i < |nodes| ==> nodes[i].children == ChildrenShare(nodes, i, seen)
  }

  lemma ChildrenShareSnoc(nodes: seq<Account>, i: nat, seen: seq<Account>, n: Account, nodeids: map<int, Account>)
    requires MapsLast(nodeids, nodes) && DistinctNodes(nodes) && i < |nodes|
    requires n.row.parentID.Some? && n.row.parentID.value in nodeids
    ensures ChildrenShare(nodes, i, seen + [n])
            == ChildrenShare(nodes, i, seen) + (if nodes[i] == nodeids[n.row.parentID.value] then [n] else [])
  {
    FilterSnoc(seen, n, IsChildOf(nodes[i].row.id));
    ReachedIsLast(nodeids, nodes, n.row.parentID.value, i);
  }

  method IndexChildren(nodes: seq<Account>) returns (nodeids: map<int, Account>)
    modifies nodes`children
    ensures MapsLast(nodeids, nodes) && ChildrenShared(nodes, [])
  {
    nodeids := map[];
    ghost var done: seq<Account> := [];
    var i := 0;
    while i < |nodes|
      invariant 0 <= i <= |nodes| && done == nodes[..i]
      invariant MapsLast(nodeids, done)
      invariant forall k :: 0 <= k < i ==> nodes[k].children == []
    {
      MapsLastGrows(nodeids, done, nodes[i]);
      nodeids := nodeids[nodes[i].row.id := nodes[i]];
      nodes[i].children := [];
      TakeSnoc(nodes, i);
      done := done + [nodes[i]];
      i := i + 1;
    }
    assert done == nodes;
  }

  method GiveChild(nodes: seq<Account>, nodeids: map<int, Account>, n: Account, fk: int, ghost seen: seq<Account>)
    requires MapsLast(nodeids, nodes) && DistinctNodes(nodes) && ChildrenShared(nodes, seen)
    requires n.row.parentID == Some(fk) && fk in nodeids
    modifies nodes`children
    ensures ChildrenShared(nodes, seen + [n])
  {
    var node := nodeids[fk];
    MappedNode(nodeids, nodes, fk);
    forall i | 0 <= i < |nodes|
      ensures ChildrenShare(nodes, i, seen + [n])
              == ChildrenShare(nodes, i, seen) + (if nodes[i] == node then [n] else [])
    {
      ChildrenShareSnoc(nodes, i, seen, n, nodeids);
    }
    node.children := node.children + [n];
  }

  ghost predicate GoodChild(nodes: seq<Account>, n: Account) {
    n.row.parentID.Some? && IsNodeID(nodes, n.row.parentID.value)
  }

  /** Each child goes to the node whose id is its parent key, in the order returned. The load fails exactly at
      the first row whose key is null or not among the nodes. */
  method LoadChildren(nodes: seq<Account>, neighbors: seq<Account>) returns (err: bool, ghost seen: seq<Account>)
    requires DistinctNodes(nodes)
    modifies nodes`children
    ensures seen <= neighbors && (err <==> seen != neighbors)
    ensures forall n :: n in seen ==> GoodChild(nodes, n)
    ensures err ==> !GoodChild(nodes, neighbors[|seen|])
    ensures err <==> exists n :: n in neighbors && !GoodChild(nodes, n)
    ensures ChildrenShared(nodes, seen)
  {
    var nodeids := IndexChildren(nodes);
    seen := [];
    var k := 0;
    while k < |neighbors|
      invariant 0 <= k <= |neighbors| && seen == neighbors[..k]
      invariant forall n :: n in seen ==> GoodChild(nodes, n)
      invariant ChildrenShared(nodes, seen)
    {
      var n := neighbors[k];
      var fk := n.row.parentID;
      if fk.None? {
        return true, seen;
      }
      MapsLastKeys(nodeids, nodes, fk.value);
      if fk.value !in nodeids {
        return true, seen;
      }
      GiveChild(nodes, nodeids, n, fk.value, seen);
      TakeSnoc(neighbors, k);
      seen := seen + [n];
      k := k + 1;
    }
    return false, seen;
  }

  // ---------------------------------------------------------------- one to many: usage logs and group links

  lemma OwnedShareSnoc(nodes: seq<Account>, i: nat, seen: seq<Owned>, n: Owned, nodeids: map<int, Account>)
    requires MapsLast(nodeids, nodes) && DistinctNodes(nodes) && i < |nodes| && n.row.accountID in nodeids
    ensures OwnedShare(nodes, i, seen + [n])
            == OwnedShare(nodes, i, seen) + (if nodes[i] == nodeids[n.row.accountID] then [n] else [])
  {
    FilterSnoc(seen, n, IsOwnedBy(nodes[i].row.id));
    ReachedIsLast(nodeids, nodes, n.row.accountID, i);
  }

  ghost predicate LogsShared(nodes: seq<Account>, seen: seq<Owned>)
    reads nodes
  {
    forall i :: 0 <= i < |nodes| ==> nodes[i].usageLogs == OwnedShare(nodes, i, seen)
  }

  method IndexLogs(nodes: seq<Account>) returns (nodeids: map<int, Account>)
    modifies nodes`usageLogs
    ensures MapsLast(nodeids, nodes) && LogsShared(nodes, [])
  {
    nodeids := map[];
    ghost var done: seq<Account> := [];
    var i := 0;
    while i < |nodes|
      invariant 0 <= i <= |nodes| && done == nodes[..i]
      invariant MapsLast(nodeids, done)
      invariant forall k :: 0 <= k < i ==> nodes[k].usageLogs == []
    {
      MapsLastGrows(nodeids, done, nodes[i]);
      nodeids := nodeids[nodes[i].row.id := nodes[i]];
      nodes[i].usageLogs := [];
      TakeSnoc(nodes, i);
      done := done + [nodes[i]];
      i := i + 1;
    }
    assert done == nodes;
  }

  method GiveLog(nodes: seq<Account>, nodeids: map<int, Account>, n: Owned, ghost seen: seq<Owned>)
    requires MapsLast(nodeids, nodes) && DistinctNodes(nodes) && LogsShared(nodes, seen)
    requires n.row.accountID in nodeids
    modifies nodes`usageLogs
    ensures LogsShared(nodes, seen + [n])
  {
    var node := nodeids[n.row.accountID];
    MappedNode(nodeids, nodes, n.row.accountID);
    forall i | 0 <= i < |nodes|
      ensures OwnedShare(nodes, i, seen + [n]) == OwnedShare(nodes, i, seen) + (if nodes[i] == node then [n] else [])
    {
      OwnedShareSnoc(nodes, i, seen, n, nodeids);
    }
    node.usageLogs := node.usageLogs + [n];
  }

  /** Like the children, except that the key is never null. */
  method LoadUsageLogs(nodes: seq<Account>, neighbors: seq<Owned>) returns (err: bool, ghost seen: seq<Owned>)
    requires DistinctNodes(nodes)
    modifies nodes`usageLogs
    ensures seen <= neighbors && (err <==> seen != neighbors)
    ensures forall n :: n in seen ==> IsNodeID(nodes, n.row.accountID)
    ensures err ==> !IsNodeID(nodes, neighbors[|seen|].row.accountID)
    ensures err <==> exists n :: n in neighbors && !IsNodeID(nodes, n.row.accountID)
    ensures LogsShared(nodes, seen)
  {
    var nodeids := IndexLogs(nodes);
    seen := [];
    var k := 0;
    while k < |neighbors|
      invariant 0 <= k <= |neighbors| && seen == neighbors[..k]
      invariant forall n :: n in seen ==> IsNodeID(nodes, n.row.accountID)
      invariant LogsShared(nodes, seen)
    {
      var n := neighbors[k];
      MapsLastKeys(nodeids, nodes, n.row.accountID);
      if n.row.accountID !in nodeids {
        return true, seen;
      }
      GiveLog(nodes, nodeids, n, seen);
      TakeSnoc(neighbors, k);
      seen := seen + [n];
      k := k + 1;
    }
    return false, seen;
  }

  ghost predicate LinksShared(nodes: seq<Account>, seen: seq<Owned>)
    reads nodes
  {
    forall i :: 0 <= i < |nodes| ==> nodes[i].accountGroups == OwnedShare(nodes, i, seen)
  }

  method IndexLinks(nodes: seq<Account>) returns (nodeids: map<int, Account>)
    modifies nodes`accountGroups
    ensures MapsLast(nodeids, nodes) && LinksShared(nodes, [])
  {
    nodeids := map[];
    ghost var done: seq<Account> := [];
    var i := 0;
    while i < |nodes|
      invariant 0 <= i <= |nodes| && done == nodes[..i]
      invariant MapsLast(nodeids, done)
      invariant forall k :: 0 <= k < i ==> nodes[k].accountGroups == []
    {
      MapsLastGrows(nodeids, done, nodes[i]);
      nodeids := nodeids[nodes[i].row.id := nodes[i]];
      nodes[i].accountGroups := [];
      TakeSnoc(nodes, i);
      done := done + [nodes[i]];
      i := i + 1;
    }
    assert done == nodes;
  }

  method GiveLink(nodes: seq<Account>, nodeids: map<int, Account>, n: Owned, ghost seen: seq<Owned>)
    requires MapsLast(nodeids, nodes) && DistinctNodes(nodes) && LinksShared(nodes, seen)
    requires n.row.accountID in nodeids
    modifies nodes`accountGroups
    ensures LinksShared(nodes, seen + [n])
  {
    var node := nodeids[n.row.accountID];
    MappedNode(nodeids, nodes, n.row.accountID);
    forall i | 0 <= i < |nodes|
      ensures OwnedShare(nodes, i, seen + [n]) == OwnedShare(nodes, i, seen) + (if nodes[i] == node then [n] else [])
    {
      OwnedShareSnoc(nodes, i, seen, n, nodeids);
    }
    node.accountGroups := node.accountGroups + [n];
  }

  /** Like the usage logs. */
  method LoadAccountGroups(nodes: seq<Account>, neighbors: seq<Owned>) returns (err: bool, ghost seen: seq<Owned>)
    requires DistinctNodes(nodes)
    modifies nodes`accountGroups
    ensures seen <= neighbors && (err <==> seen != neighbors)
    ensures forall n :: n in seen ==> IsNodeID(nodes, n.row.accountID)
    ensures err ==> !IsNodeID(nodes, neighbors[|seen|].row.accountID)
    ensures err <==> exists n :: n in neighbors && !IsNodeID(nodes, n.row.accountID)
    ensures LinksShared(nodes, seen)
  {
    var nodeids := IndexLinks(nodes);
    seen := [];
    var k := 0;
    while k < |neighbors|
      invariant 0 <= k <= |neighbors| && seen == neighbors[..k]
      invariant forall n :: n in seen ==> IsNodeID(nodes, n.row.accountID)
      invariant LinksShared(nodes, seen)
    {
      var n := neighbors[k];
      MapsLastKeys(nodeids, nodes, n.row.accountID);
      if n.row.accountID !in nodeids {
        return true, seen;
      }
      GiveLink(nodes, nodeids, n, seen);
      TakeSnoc(neighbors, k);
      seen := seen + [n];
      k := k + 1;
    }
    return false, seen;
  }

  // ---------------------------------------------------------------- the shares partition the rows

  ghost function ShareSize(nodes: seq<Account>, neighbors: seq<Account>): nat -> nat {
    (i: nat) => if i < |nodes| then |ChildrenShare(nodes, i, neighbors)| else 0
  }

  ghost predicate Holds(nodes: seq<Account>, i: nat, c: Account)
    requires i < |nodes|
  {
    IsLast(nodes, i) && c.row.parentID == Some(nodes[i].row.id)
  }

  lemma ShareSnoc(nodes: seq<Account>, i: nat, neighbors: seq<Account>, c: Account, holder: nat)
    requires i < |nodes| && holder < |nodes| && Holds(nodes, holder, c)
    ensures |ChildrenShare(nodes, i, neighbors + [c])|
            == |ChildrenShare(nodes, i, neighbors)| + if i == holder then 1 else 0
  {
    FilterSnoc(neighbors, c, IsChildOf(nodes[i].row.id));
    OneHolder(nodes, i, holder, c);
  }

  lemma OneHolder(nodes: seq<Account>, i: nat, j: nat, c: Account)
    requires i < |nodes| && j < |nodes| && Holds(nodes, j, c)
    ensures Holds(nodes, i, c) <==> i == j
  {
  }

  lemma OneMoreShared(nodes: seq<Account>, neighbors: seq<Account>, c: Account)
    requires GoodChild(nodes, c)
    ensures SumTo(|nodes|, ShareSize(nodes, neighbors + [c])) == SumTo(|nodes|, ShareSize(nodes, neighbors)) + 1
  {
    var i :| 0 <= i < |nodes| && nodes[i].row.id == c.row.parentID.value;
    var holder := LastOf(nodes, i);
    forall i: nat | i < |nodes|
      ensures ShareSize(nodes, neighbors + [c])(i) == ShareSize(nodes, neighbors)(i) + if i == holder then 1 else 0
    {
      ShareSnoc(nodes, i, neighbors, c, holder);
    }
    SumToBump(|nodes|, ShareSize(nodes, neighbors), ShareSize(nodes, neighbors + [c]), holder);
  }

  /** When no row is rejected every row lies in exactly one share. */
  lemma {:induction false} ChildrenArePartitioned(nodes: seq<Account>, neighbors: seq<Account>)
    requires forall n :: n in neighbors ==> GoodChild(nodes, n)
    ensures SumTo(|nodes|, ShareSize(nodes, neighbors)) == |neighbors|
    ensures forall i, j, c :: 0 <= i < j < |nodes| && c in ChildrenShare(nodes, i, neighbors) ==>
      c !in ChildrenShare(nodes, j, neighbors)
    decreases |neighbors|
  {
    if neighbors == [] {
      SumToZero(|nodes|, ShareSize(nodes, neighbors));
    } else {
      var init, c := neighbors[..|neighbors| - 1], neighbors[|neighbors| - 1];
      assert neighbors == init + [c];
      ChildrenArePartitioned(nodes, init);
      OneMoreShared(nodes, init, c);
    }
    SharesDisjoint(nodes, neighbors);
  }

  lemma SharesDisjoint(nodes: seq<Account>, neighbors: seq<Account>)
    ensures forall i, j, c :: 0 <= i < j < |nodes| && c in ChildrenShare(nodes, i, neighbors) ==>
      c !in ChildrenShare(nodes, j, neighbors)
  {
    forall i, c | 0 <= i < |nodes| && c in ChildrenShare(nodes, i, neighbors)
      ensures Holds(nodes, i, c)
    {
      assert IsChildOf(nodes[i].row.id)(c);
    }
    forall i, j, c | 0 <= i < j < |nodes| && c in ChildrenShare(nodes, i, neighbors)
      ensures c !in ChildrenShare(nodes, j, neighbors)
    {
      OneHolder(nodes, j, i, c);
    }
  }
}
