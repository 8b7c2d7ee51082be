/** Where batching is not transparent: a limit on an edge query counts the rows of all nodes together
    (backend/ent/account_query.go). */
module EagerLimits {
  import opened Common
  import opened EagerSpec
  import opened EagerRefines

  // ---------------------------------------------------------------- a limit counts all nodes together

  ghost function OwnedByKey<T, K>(owner: T -> K, k: K): T -> bool {
    (x: T) => owner(x) == k
  }

  ghost predicate OneOwner<T, K>(rows: seq<T>, owner: T -> K) {
    forall i, j :: 0 <= i < |rows| && 0 <= j < |rows| ==> owner(rows[i]) == owner(rows[j])
  }

  /** A limit over all rows gives every owner what a limit of its own would. */
  ghost predicate SharesLimit<T, K(!new)>(rows: seq<T>, owner: T -> K, n: nat) {
    forall k: K :: Filter(Take(rows, Some(n)), OwnedByKey(owner, k))
        == Take(Filter(rows, OwnedByKey(owner, k)), Some(n))
  }

  /** The same for the numbers of rows only. */
  ghost predicate SharesSizes<T, K(!new)>(rows: seq<T>, owner: T -> K, n: nat) {
    forall k: K :: |Filter(Take(rows, Some(n)), OwnedByKey(owner, k))|
        == |Take(Filter(rows, OwnedByKey(owner, k)), Some(n))|
  }

  lemma OneOwnerShares<T, K(!new)>(rows: seq<T>, owner: T -> K, n: nat, k: K)
    requires OneOwner(rows, owner)
    ensures Filter(Take(rows, Some(n)), OwnedByKey(owner, k)) == Take(Filter(rows, OwnedByKey(owner, k)), Some(n))
  {
    var p, taken := OwnedByKey(owner, k), Take(rows, Some(n));
    if rows != [] && owner(rows[0]) == k {
      forall x | x in rows
        ensures p(x)
      {
        var i :| 0 <= i < |rows| && rows[i] == x;
      }
      FilterAll(rows, p);
      FilterAll(taken, p);
    } else {
      forall x | x in rows
        ensures !p(x)
      {
        var i :| 0 <= i < |rows| && rows[i] == x;
      }
      FilterNone(rows, p);
      FilterNone(taken, p);
    }
  }

  lemma ShortShares<T, K(!new)>(rows: seq<T>, owner: T -> K, n: nat, k: K)
    requires n == 0 || |rows| <= n
    ensures Filter(Take(rows, Some(n)), OwnedByKey(owner, k)) == Take(Filter(rows, OwnedByKey(owner, k)), Some(n))
  {
    if n == 0 {
      assert Take(rows, Some(n)) == [];
      assert Take(Filter(rows, OwnedByKey(owner, k)), Some(n)) == [];
    }
  }

  lemma ShortIsAll<T>(s: seq<T>, p: T -> bool)
    requires |Filter(s, p)| >= |s|
    ensures forall i :: 0 <= i < |s| ==> p(s[i])
    decreases |s|
  {
    if s != [] {
      assert p(s[0]);
      ShortIsAll(s[1..], p);
      assert forall i :: 1 <= i < |s| ==> s[i] == s[1..][i - 1];
    }
  }

  /** If the rows cut off include one of owner k, then k had all the rows that were kept. */
  lemma CutOwnerHadAll<T, K(!new)>(rows: seq<T>, owner: T -> K, n: nat, j: nat)
    requires n <= j < |rows| && SharesSizes(rows, owner, n)
    ensures forall i :: 0 <= i < n ==> owner(rows[i]) == owner(rows[j])
  {
    var p := OwnedByKey(owner, owner(rows[j]));
    var kept, cut := rows[..n], rows[n..];
    assert Take(rows, Some(n)) == kept && rows == kept + cut;
    FilterAppend(kept, cut, p);
    assert cut[j - n] == rows[j];
    FilterKeeps(cut, p, rows[j]);
    assert |Filter(cut, p)| > 0;
    assert |Filter(kept, p)| == |Take(Filter(rows, p), Some(n))|;
    ShortIsAll(kept, p);
    assert forall i :: 0 <= i < n ==> kept[i] == rows[i];
  }

  lemma CutMeansOneOwner<T, K(!new)>(rows: seq<T>, owner: T -> K, n: nat)
    requires 0 < n < |rows| && SharesSizes(rows, owner, n)
    ensures OneOwner(rows, owner)
  {
    forall i | 0 <= i < |rows|
      ensures owner(rows[i]) == owner(rows[0])
    {
      CutOwnerHadAll(rows, owner, n, n);
      if i >= n {
        CutOwnerHadAll(rows, owner, n, i);
      }
    }
  }

  /** The limit cuts nothing off, or keeps nothing, or only one node has rows at all. */
  ghost predicate Harmless<T, K>(rows: seq<T>, owner: T -> K, n: nat) {
    n == 0 || |rows| <= n || OneOwner(rows, owner)
  }

  /** One limit over all nodes equals a limit per node exactly when it is harmless. */
  lemma LimitExact<T, K(!new)>(rows: seq<T>, owner: T -> K, n: nat)
    ensures SharesLimit(rows, owner, n) <==> Harmless(rows, owner, n)
    ensures SharesSizes(rows, owner, n) <==> Harmless(rows, owner, n)
  {
    if SharesSizes(rows, owner, n) && 0 < n < |rows| {
      CutMeansOneOwner(rows, owner, n);
    }
    if Harmless(rows, owner, n) {
      forall k: K
        ensures Filter(Take(rows, Some(n)), OwnedByKey(owner, k)) == Take(Filter(rows, OwnedByKey(owner, k)), Some(n))
      {
        if OneOwner(rows, owner) {
          OneOwnerShares(rows, owner, n, k);
        } else {
          ShortShares(rows, owner, n, k);
        }
      }
    }
    if SharesLimit(rows, owner, n) {
      forall k: K
        ensures |Filter(Take(rows, Some(n)), OwnedByKey(owner, k))|
                == |Take(Filter(rows, OwnedByKey(owner, k)), Some(n))|
      {
      }
    }
  }

  /** Sizes need checking only for owners that can have rows. */
  lemma SizesOfOwners<T, K(!new)>(rows: seq<T>, owner: T -> K, n: nat, ks: set<K>)
    requires forall i :: 0 <= i < |rows| ==> owner(rows[i]) in ks
    requires forall k :: k in ks ==>
      |Filter(Take(rows, Some(n)), OwnedByKey(owner, k))| == |Take(Filter(rows, OwnedByKey(owner, k)), Some(n))|
    ensures SharesSizes(rows, owner, n)
  {
    forall k: K
      ensures |Filter(Take(rows, Some(n)), OwnedByKey(owner, k))| == |Take(Filter(rows, OwnedByKey(owner, k)), Some(n))|
    {
      if k !in ks {
        forall i | 0 <= i < |rows|
          ensures !OwnedByKey(owner, k)(rows[i])
        {
        }
        FilterNone(rows, OwnedByKey(owner, k));
        FilterNone(Take(rows, Some(n)), OwnedByKey(owner, k));
      }
    }
  }

  // ---------------------------------------------------------------- usage logs and group links

  function Owner(): OwnedRow -> int {
    (r: OwnedRow) => r.accountID
  }

  /** Every node holds what a query of its own, with the same limit, would return. */
  ghost predicate OwnedLimitedPerNode(table: seq<OwnedRow>, q: OwnedQuery, keyed: bool, ids: set<int>) {
    forall id :: id in ids ==> Filter(OwnedRows(table, q, keyed, ids), OwnedBy(id)) == OwnedRows(table, q, keyed, {id})
  }

  lemma OwnedOfOne(table: seq<OwnedRow>, q: OwnedQuery, keyed: bool, ids: set<int>, id: int)
    requires id in ids && q.limit.Some?
    ensures var rows, n := Filter(table, OwnedIn(q, ids)), q.limit.value;
      && Filter(OwnedRows(table, q, keyed, ids), OwnedBy(id))
         == Map(Filter(Take(rows, Some(n)), OwnedByKey(Owner(), id)), DecodeOwned(q, keyed))
      && OwnedRows(table, q, keyed, {id})
         == Map(Take(Filter(rows, OwnedByKey(Owner(), id)), Some(n)), DecodeOwned(q, keyed))
  {
    var rows := Filter(table, OwnedIn(q, ids));
    forall r
      ensures OwnedBy(id)(DecodeOwned(q, keyed)(r)) == OwnedByKey(Owner(), id)(r)
    {
      DecodeOwnedKeepsOwner(q, keyed, r);
    }
    FilterOfMap(Take(rows, q.limit), DecodeOwned(q, keyed), OwnedBy(id), OwnedByKey(Owner(), id));
    FilterTwice(table, OwnedIn(q, ids), OwnedByKey(Owner(), id), OwnedIn(q, {id}));
  }

  lemma OwnersAsked(table: seq<OwnedRow>, q: OwnedQuery, ids: set<int>)
    ensures var rows := Filter(table, OwnedIn(q, ids)); forall i :: 0 <= i < |rows| ==> Owner()(rows[i]) in ids
  {
    var rows := Filter(table, OwnedIn(q, ids));
    assert forall i :: 0 <= i < |rows| ==> OwnedIn(q, ids)(rows[i]);
  }

  lemma OwnedEqualSizes(table: seq<OwnedRow>, q: OwnedQuery, keyed: bool, ids: set<int>, id: int)
    requires id in ids && q.limit.Some?
    requires Filter(OwnedRows(table, q, keyed, ids), OwnedBy(id)) == OwnedRows(table, q, keyed, {id})
    ensures var rows, n := Filter(table, OwnedIn(q, ids)), q.limit.value;
      |Filter(Take(rows, Some(n)), OwnedByKey(Owner(), id))| == |Take(Filter(rows, OwnedByKey(Owner(), id)), Some(n))|
  {
    OwnedOfOne(table, q, keyed, ids, id);
  }

  lemma OwnedShared(table: seq<OwnedRow>, q: OwnedQuery, keyed: bool, ids: set<int>, id: int)
    requires id in ids && q.limit.Some?
    requires SharesLimit(Filter(table, OwnedIn(q, ids)), Owner(), q.limit.value)
    ensures Filter(OwnedRows(table, q, keyed, ids), OwnedBy(id)) == OwnedRows(table, q, keyed, {id})
  {
    OwnedOfOne(table, q, keyed, ids, id);
  }

  /** A limited edge query over usage logs or links agrees with limited queries per node exactly when harmless. */
  lemma OwnedLimitExact(table: seq<OwnedRow>, q: OwnedQuery, keyed: bool, ids: set<int>)
    requires q.limit.Some?
    ensures OwnedLimitedPerNode(table, q, keyed, ids) <==>
      Harmless(Filter(table, OwnedIn(q, ids)), Owner(), q.limit.value)
  {
    var rows, n := Filter(table, OwnedIn(q, ids)), q.limit.value;
    LimitExact(rows, Owner(), n);
    if SharesLimit(rows, Owner(), n) {
      forall id | id in ids
        ensures Filter(OwnedRows(table, q, keyed, ids), OwnedBy(id)) == OwnedRows(table, q, keyed, {id})
      {
        OwnedShared(table, q, keyed, ids, id);
      }
    }
    if OwnedLimitedPerNode(table, q, keyed, ids) {
      OwnersAsked(table, q, ids);
      forall id | id in ids
        ensures |Filter(Take(rows, Some(n)), OwnedByKey(Owner(), id))|
                == |Take(Filter(rows, OwnedByKey(Owner(), id)), Some(n))|
      {
        OwnedEqualSizes(table, q, keyed, ids, id);
      }
      SizesOfOwners(rows, Owner(), n, ids);
    }
  }

  /** One row of any kind. */
  function OneRow(): OwnedQuery {
    OwnedQuery((r: OwnedRow) => true, Some(1), [])
  }

  /** Two accounts with a row each and a limit of one: the second account is left without. */
  lemma SharedLimitLoses()
    ensures !OwnedLimitedPerNode([OwnedRow(1, 10, map[]), OwnedRow(2, 20, map[])], OneRow(), true, {10, 20})
  {
    var table, q := [OwnedRow(1, 10, map[]), OwnedRow(2, 20, map[])], OneRow();
    FilterAll(table, OwnedIn(q, {10, 20}));
    assert Owner()(table[0]) != Owner()(table[1]);
    OwnedLimitExact(table, q, true, {10, 20});
  }

  // ---------------------------------------------------------------- proxies

  lemma TakeAll<T>(s: seq<T>, n: nat)
    requires |s| <= n
    ensures Take(s, Some(n)) == s
  {
  }

  lemma TakeNone<T>(s: seq<T>)
    ensures Take(s, Some(0)) == []
  {
  }

  lemma OwnTargets(rows: seq<TargetRow>, k: int)
    ensures Filter(Filter(rows, IsTarget(k)), IsTarget(k)) == Filter(rows, IsTarget(k))
  {
    FilterTwice(rows, IsTarget(k), IsTarget(k), IsTarget(k));
  }

  lemma SameTargets(rows: seq<TargetRow>, k: int)
    requires forall i :: 0 <= i < |rows| ==> rows[i].id == k
    ensures DistinctTargets(rows) ==> |rows| <= 1
  {
    if |rows| > 1 {
      assert rows[0].id == rows[1].id;
    }
  }

  lemma OneTarget(rows: seq<TargetRow>, k: int)
    requires DistinctTargets(rows)
    ensures |Filter(rows, IsTarget(k))| <= 1
  {
    var own := Filter(rows, IsTarget(k));
    DistinctTargetRows(rows, IsTarget(k));
    assert forall i :: 0 <= i < |own| ==> IsTarget(k)(own[i]);
    SameTargets(own, k);
  }

  /** What a proxy query of its own, with the limit n, finds for the key. */
  lemma OwnProxy(store: Store, q: TargetQuery, ids: set<int>, k: int, rows: seq<TargetRow>, n: nat)
    requires ValidStore(store) && q.limit == Some(n) && k in ids && n > 0
    requires rows == Filter(store.proxies, WithID(q, ids))
    ensures TargetFor(ProxyRows(store, q, {k}), Some(k))
            == match FirstOf(Filter(rows, IsTarget(k))) case None => None case Some(r) => Some(DecodeTarget(q)(r))
  {
    ProxiesOfOne(store, q, ids, k);
    var own := Filter(rows, IsTarget(k));
    DistinctTargetRows(store.proxies, WithID(q, ids));
    DistinctTargetRows(rows, IsTarget(k));
    OneTarget(rows, k);
    TakeAll(own, n);
    TargetForUnique(own, DecodeTarget(q), k);
    OwnTargets(rows, k);
  }

  /** What the proxy query for all, limited to n rows, finds for the key. */
  lemma SharedProxy(store: Store, q: TargetQuery, ids: set<int>, k: int, rows: seq<TargetRow>, n: nat)
    requires ValidStore(store) && q.limit == Some(n) && k in ids
    requires rows == Filter(store.proxies, WithID(q, ids))
    ensures TargetFor(ProxyRows(store, q, ids), Some(k))
            == match FirstOf(Filter(Take(rows, Some(n)), IsTarget(k)))
               case None => None
               case Some(r) => Some(DecodeTarget(q)(r))
  {
    DistinctTargetRows(store.proxies, WithID(q, ids));
    assert DistinctTargets(Take(rows, Some(n)));
    TargetForUnique(Take(rows, Some(n)), DecodeTarget(q), k);
  }

  ghost predicate ProxyLimitedPerNode(store: Store, q: TargetQuery, ids: set<int>) {
    forall k :: k in ids ==>
      TargetFor(ProxyRows(store, q, ids), Some(k)) == TargetFor(ProxyRows(store, q, {k}), Some(k))
  }

  lemma CutTarget(rows: seq<TargetRow>, n: nat)
    requires DistinctTargets(rows) && n < |rows|
    ensures Filter(Take(rows, Some(n)), IsTarget(rows[n].id)) == []
    ensures Filter(rows, IsTarget(rows[n].id)) != []
  {
    var kept := Take(rows, Some(n));
    forall r | r in kept
      ensures !IsTarget(rows[n].id)(r)
    {
      var i :| 0 <= i < |kept| && kept[i] == r;
      assert rows[i] == r;
    }
    FilterNone(kept, IsTarget(rows[n].id));
    FilterKeeps(rows, IsTarget(rows[n].id), rows[n]);
  }

  /** A limited proxy query finds for every node what one of its own would, exactly when it cuts nothing off or
      keeps nothing. */
  lemma ProxyLimitExact(store: Store, q: TargetQuery, ids: set<int>)
    requires ValidStore(store) && q.limit.Some?
    ensures ProxyLimitedPerNode(store, q, ids) <==>
      q.limit.value == 0 || |Filter(store.proxies, WithID(q, ids))| <= q.limit.value
  {
    var rows, n := Filter(store.proxies, WithID(q, ids)), q.limit.value;
    if n == 0 {
      forall k | k in ids
        ensures TargetFor(ProxyRows(store, q, ids), Some(k)) == TargetFor(ProxyRows(store, q, {k}), Some(k))
      {
        TakeNone(rows);
        TakeNone(Filter(store.proxies, WithID(q, {k})));
      }
    } else if |rows| <= n {
      forall k | k in ids
        ensures TargetFor(ProxyRows(store, q, ids), Some(k)) == TargetFor(ProxyRows(store, q, {k}), Some(k))
      {
        OwnProxy(store, q, ids, k, rows, n);
        SharedProxy(store, q, ids, k, rows, n);
        TakeAll(rows, n);
      }
    } else {
      var k := rows[n].id;
      assert WithID(q, ids)(rows[n]);
      DistinctTargetRows(store.proxies, WithID(q, ids));
      CutTarget(rows, n);
      OwnProxy(store, q, ids, k, rows, n);
      SharedProxy(store, q, ids, k, rows, n);
    }
  }
}
