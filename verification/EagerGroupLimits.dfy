/** A limit on an edge query for groups counts the join rows of all nodes together (loadGroups of
    backend/ent/account_query.go): when every account still gets the list of groups a limit of its own would leave. */
module EagerGroupLimits {
  import opened Common
  import opened EagerSpec
  import opened EagerRefines
  import opened EagerLimits

  function GroupOf(): JoinRow -> TargetRow {
    (r: JoinRow) => r.1
  }

  // ---------------------------------------------------------------- rows of a join

  /** Rows come group by group, a group with one account at most once. */
  ghost predicate Orderly(rows: seq<JoinRow>) {
    && (forall i, j :: 0 <= i < j < |rows| && rows[i].1.id == rows[j].1.id ==>
          rows[i].0 != rows[j].0 && rows[i].1 == rows[j].1)
    && (forall i, j, k :: 0 <= i < j < k < |rows| && rows[i].1.id == rows[k].1.id ==> rows[j].1.id == rows[k].1.id)
  }

  lemma OrderlyPrefix(rows: seq<JoinRow>, n: nat)
    requires Orderly(rows) && n <= |rows|
    ensures Orderly(rows[..n])
  {
  }

  ghost predicate Apart(a: seq<JoinRow>, b: seq<JoinRow>) {
    forall i, j :: 0 <= i < |a| && 0 <= j < |b| ==> a[i].1.id != b[j].1.id
  }

  lemma OrderlyConcat(a: seq<JoinRow>, b: seq<JoinRow>)
    requires Orderly(a) && Orderly(b) && Apart(a, b)
    ensures Orderly(a + b)
  {
    var rows := a + b;
    forall i, j | 0 <= i < |a| <= j < |rows|
      ensures rows[i].1.id != rows[j].1.id
    {
      assert rows[i] == a[i] && rows[j] == b[j - |a|];
    }
  }

  lemma {:induction false} DistinctLinkRows(links: seq<OwnedRow>, p: OwnedRow -> bool)
    requires DistinctLinks(links)
    ensures DistinctLinks(Filter(links, p))
  {
    if links != [] {
      var rest := Filter(links[1..], p);
      DistinctLinkRows(links[1..], p);
      FilterFrom(links[1..], p);
      forall i | 0 <= i < |rest|
        ensures links[0].id != rest[i].id || links[0].accountID != rest[i].accountID
      {
        assert rest[i] in links[1..];
      }
    }
  }

  lemma BlockIsOrderly(g: TargetRow, links: seq<OwnedRow>, ids: set<int>)
    requires DistinctLinks(links)
    ensures Orderly(Block(g, links, ids)) && AllOf(Block(g, links, ids), g)
  {
    var kept := Filter(links, LinkOf(g.id, ids));
    DistinctLinkRows(links, LinkOf(g.id, ids));
    assert forall i :: 0 <= i < |kept| ==> LinkOf(g.id, ids)(kept[i]);
  }

  lemma {:induction false} JoinedGroupsFrom(gs: seq<TargetRow>, links: seq<OwnedRow>, ids: set<int>)
    ensures forall i :: 0 <= i < |Join(gs, links, ids)| ==> Join(gs, links, ids)[i].1 in gs
  {
    if gs != [] {
      JoinedGroupsFrom(gs[1..], links, ids);
    }
  }

  lemma {:induction false} JoinIsOrderly(gs: seq<TargetRow>, links: seq<OwnedRow>, ids: set<int>)
    requires DistinctTargets(gs) && DistinctLinks(links)
    ensures Orderly(Join(gs, links, ids))
  {
    if gs != [] {
      var a, b := Block(gs[0], links, ids), Join(gs[1..], links, ids);
      JoinIsOrderly(gs[1..], links, ids);
      BlockIsOrderly(gs[0], links, ids);
      JoinedGroupsFrom(gs[1..], links, ids);
      forall i, j | 0 <= i < |a| && 0 <= j < |b|
        ensures a[i].1.id != b[j].1.id
      {
        assert b[j].1 in gs[1..];
      }
      OrderlyConcat(a, b);
    }
  }

  // ---------------------------------------------------------------- the groups of one account

  ghost predicate Mentions(rows: seq<JoinRow>, g: TargetRow) {
    exists k :: 0 <= k < |rows| && rows[k].1 == g
  }

  /** The groups that the rows mention, each once, that of the last row last. */
  ghost predicate FirstsOf(rows: seq<JoinRow>, firsts: seq<TargetRow>) {
    && DistinctTargets(firsts)
    && (forall i :: 0 <= i < |rows| ==> rows[i].1.id in TargetIDs(firsts))
    && (forall i :: 0 <= i < |firsts| ==> Mentions(rows, firsts[i]))
    && (rows != [] ==> firsts != [] && firsts[|firsts| - 1] == rows[|rows| - 1].1)
  }

  lemma MentionsMore(init: seq<JoinRow>, r: JoinRow, g: TargetRow)
    ensures Mentions(init + [r], g) <==> Mentions(init, g) || g == r.1
  {
    var rows := init + [r];
    assert rows[|init|] == r;
    if Mentions(init, g) {
      var k :| 0 <= k < |init| && init[k].1 == g;
      assert rows[k].1 == g;
    }
  }

  /** A group seen before is that of the row before. */
  lemma SameAsBefore(init: seq<JoinRow>, r: JoinRow, g: TargetRow)
    requires Orderly(init + [r]) && Mentions(init, g) && g.id == r.1.id
    ensures init != [] && init[|init| - 1].1 == r.1
  {
    var rows, n := init + [r], |init|;
    var k :| 0 <= k < n && init[k].1 == g;
    assert rows[k].1 == g && rows[n] == r && rows[n - 1] == init[n - 1];
    assert rows[n - 1].1.id == rows[n].1.id;
  }

  lemma FirstsStay(init: seq<JoinRow>, firsts: seq<TargetRow>, r: JoinRow)
    requires Orderly(init + [r]) && FirstsOf(init, firsts) && r.1.id in TargetIDs(firsts)
    ensures FirstsOf(init + [r], firsts) && firsts != [] && firsts[|firsts| - 1] == r.1
  {
    hide Orderly;
    var i :| 0 <= i < |firsts| && firsts[i].id == r.1.id;
    SameAsBefore(init, r, firsts[i]);
    forall i | 0 <= i < |firsts|
      ensures Mentions(init + [r], firsts[i])
    {
      MentionsMore(init, r, firsts[i]);
    }
  }

  lemma FirstsAdded(init: seq<JoinRow>, firsts: seq<TargetRow>, r: JoinRow)
    requires FirstsOf(init, firsts) && r.1.id !in TargetIDs(firsts)
    ensures FirstsOf(init + [r], firsts + [r.1])
  {
    var more := firsts + [r.1];
    TargetIDsSnoc(firsts, r.1);
    forall i | 0 <= i < |more|
      ensures Mentions(init + [r], more[i])
    {
      MentionsMore(init, r, more[i]);
    }
    forall i | 0 <= i < |firsts|
      ensures firsts[i].id != r.1.id
    {
      assert firsts[i].id in TargetIDs(firsts);
    }
  }

  function NextFirsts(firsts: seq<TargetRow>, g: TargetRow): seq<TargetRow> {
    if g.id in TargetIDs(firsts) then firsts else firsts + [g]
  }

  lemma FirstsSnoc(init: seq<JoinRow>, r: JoinRow)
    ensures FirstTargets(init + [r]) == NextFirsts(FirstTargets(init), r.1)
  {
    assert (init + [r])[..|init|] == init;
  }

  lemma {:induction false} FirstsAre(rows: seq<JoinRow>)
    requires Orderly(rows)
    ensures FirstsOf(rows, FirstTargets(rows))
    decreases |rows|
  {
    hide Orderly, TargetIDs;
    if rows != [] {
      var init, r := rows[..|rows| - 1], rows[|rows| - 1];
      assert rows == init + [r];
      OrderlyPrefix(rows, |init|);
      FirstsAre(init);
      FirstsSnoc(init, r);
      if r.1.id in TargetIDs(FirstTargets(init)) {
        FirstsStay(init, FirstTargets(init), r);
      } else {
        FirstsAdded(init, FirstTargets(init), r);
      }
    }
  }

  lemma LinkAdded(init: seq<JoinRow>, r: JoinRow, account: int, g: TargetRow)
    ensures LinkedTo(init + [r], account)(g) <==> LinkedTo(init, account)(g) || (account == r.0 && g.id == r.1.id)
  {
    LinksAppend(init, [r]);
    assert Links([r]) == {(r.0, r.1.id)} by {
      assert [r][0] == r;
    }
  }

  lemma OthersKeepLinks(gs: seq<TargetRow>, init: seq<JoinRow>, r: JoinRow, account: int)
    requires forall i :: 0 <= i < |gs| ==> gs[i].id != r.1.id
    ensures Filter(gs, LinkedTo(init + [r], account)) == Filter(gs, LinkedTo(init, account))
  {
    forall g | g in gs
      ensures LinkedTo(init + [r], account)(g) == LinkedTo(init, account)(g)
    {
      LinkAdded(init, r, account, g);
    }
    FilterSame(gs, LinkedTo(init + [r], account), LinkedTo(init, account));
  }

  function Gained(r: JoinRow, account: int): seq<TargetRow> {
    if account == r.0 then [r.1] else []
  }

  /** The row's group is new, or the last one and not linked to the row's account so far. */
  lemma {:induction false} LastGroupGets(pre: seq<TargetRow>, init: seq<JoinRow>, r: JoinRow, account: int)
    requires forall i :: 0 <= i < |pre| ==> pre[i].id != r.1.id
    requires account == r.0 ==> !LinkedTo(init, account)(r.1)
    ensures Filter(pre + [r.1], LinkedTo(init + [r], account))
            == Filter(pre + [r.1], LinkedTo(init, account)) + Gained(r, account)
  {
    OthersKeepLinks(pre, init, r, account);
    FilterSnoc(pre, r.1, LinkedTo(init + [r], account));
    FilterSnoc(pre, r.1, LinkedTo(init, account));
    LinkAdded(init, r, account, r.1);
  }

  lemma NotLinkedYet(init: seq<JoinRow>, r: JoinRow)
    requires Orderly(init + [r])
    ensures !LinkedTo(init, r.0)(r.1)
  {
    var rows := init + [r];
    forall i | 0 <= i < |init|
      ensures init[i].0 != r.0 || init[i].1.id != r.1.id
    {
      assert rows[i] == init[i] && rows[|init|] == r;
    }
  }

  lemma NewGroupUnlinked(init: seq<JoinRow>, firsts: seq<TargetRow>, g: TargetRow, account: int)
    requires FirstsOf(init, firsts) && g.id !in TargetIDs(firsts)
    ensures !LinkedTo(init, account)(g)
  {
    hide TargetIDs;
    forall i | 0 <= i < |init|
      ensures init[i].1.id != g.id
    {
      assert init[i].1.id in TargetIDs(firsts);
    }
  }

  lemma GroupSeenBefore(init: seq<JoinRow>, firsts: seq<TargetRow>, r: JoinRow, account: int)
    requires Orderly(init + [r]) && FirstsOf(init, firsts) && r.1.id in TargetIDs(firsts)
    ensures Filter(firsts, LinkedTo(init + [r], account))
            == Filter(firsts, LinkedTo(init, account)) + Gained(r, account)
  {
    hide Orderly, LinkedTo, TargetIDs;
    FirstsStay(init, firsts, r);
    NotLinkedYet(init, r);
    var pre := firsts[..|firsts| - 1];
    assert firsts == pre + [r.1];
    assert forall i :: 0 <= i < |pre| ==> firsts[i].id != firsts[|firsts| - 1].id;
    LastGroupGets(pre, init, r, account);
  }

  lemma GroupSeenFirst(init: seq<JoinRow>, firsts: seq<TargetRow>, r: JoinRow, account: int)
    requires Orderly(init + [r]) && FirstsOf(init, firsts) && r.1.id !in TargetIDs(firsts)
    ensures Filter(firsts + [r.1], LinkedTo(init + [r], account))
            == Filter(firsts, LinkedTo(init, account)) + Gained(r, account)
  {
    hide Orderly, LinkedTo;
    NotLinkedYet(init, r);
    NewGroupUnlinked(init, firsts, r.1, account);
    forall i | 0 <= i < |firsts|
      ensures firsts[i].id != r.1.id
    {
      assert firsts[i].id in TargetIDs(firsts);
    }
    LastGroupGets(firsts, init, r, account);
    FilterSnoc(firsts, r.1, LinkedTo(init, account));
  }

  lemma OneMoreGroup(init: seq<JoinRow>, r: JoinRow, account: int)
    requires Orderly(init + [r])
    ensures GroupsFor(init + [r], account) == GroupsFor(init, account) + Gained(r, account)
  {
    hide Orderly, LinkedTo, TargetIDs, FirstsOf, FirstTargets, Gained;
    var rows, firsts := init + [r], FirstTargets(init);
    assert rows[..|init|] == init;
    OrderlyPrefix(rows, |init|);
    FirstsAre(init);
    FirstsSnoc(init, r);
    if r.1.id in TargetIDs(firsts) {
      GroupSeenBefore(init, firsts, r, account);
    } else {
      GroupSeenFirst(init, firsts, r, account);
    }
  }

  ghost function OwnGroups(rows: seq<JoinRow>, account: int): seq<TargetRow> {
    Map(Filter(rows, OwnedByKey(JoinOwner(), account)), GroupOf())
  }

  lemma OwnGroupsSnoc(init: seq<JoinRow>, r: JoinRow, account: int)
    ensures OwnGroups(init + [r], account) == OwnGroups(init, account) + Gained(r, account)
  {
    FilterSnoc(init, r, OwnedByKey(JoinOwner(), account));
    MapAppend(Filter(init, OwnedByKey(JoinOwner(), account)), if account == r.0 then [r] else [], GroupOf());
  }

  /** An account's groups are those of its own rows, in row order. */
  lemma {:induction false} GroupsAreOwnRows(rows: seq<JoinRow>, account: int)
    requires Orderly(rows)
    ensures GroupsFor(rows, account) == OwnGroups(rows, account)
    decreases |rows|
  {
    if rows != [] {
      hide *;
      var init, r := rows[..|rows| - 1], rows[|rows| - 1];
      OrderlyPrefix(rows, |init|);
      GroupsAreOwnRows(init, account);
      assert rows == init + [r];
      OneMoreGroup(init, r, account);
      OwnGroupsSnoc(init, r, account);
    }
  }

  // ---------------------------------------------------------------- the rows of one account

  function JoinOwner(): JoinRow -> int {
    (r: JoinRow) => r.0
  }

  function LinksOwner(account: int): OwnedRow -> bool {
    (l: OwnedRow) => l.accountID == account
  }

  lemma BlockOfOne(g: TargetRow, links: seq<OwnedRow>, ids: set<int>, account: int)
    requires account in ids
    ensures Filter(Block(g, links, ids), OwnedByKey(JoinOwner(), account)) == Block(g, links, {account})
  {
    FilterOfMap(Filter(links, LinkOf(g.id, ids)), Joined(g), OwnedByKey(JoinOwner(), account), LinksOwner(account));
    FilterTwice(links, LinkOf(g.id, ids), LinksOwner(account), LinkOf(g.id, {account}));
  }

  lemma {:induction false} JoinOfOne(gs: seq<TargetRow>, links: seq<OwnedRow>, ids: set<int>, account: int)
    requires account in ids
    ensures Filter(Join(gs, links, ids), OwnedByKey(JoinOwner(), account)) == Join(gs, links, {account})
  {
    if gs != [] {
      BlockOfOne(gs[0], links, ids, account);
      JoinOfOne(gs[1..], links, ids, account);
      FilterAppend(Block(gs[0], links, ids), Join(gs[1..], links, ids), OwnedByKey(JoinOwner(), account));
    }
  }

  // ---------------------------------------------------------------- the limit

  /** Every account gets the groups, in the order, that a limited query of its own would leave it with. */
  ghost predicate GroupListsLimitedPerNode(store: Store, q: TargetQuery, ids: set<int>) {
    forall id :: id in ids ==> GroupsFor(GroupRows(store, q, ids), id) == GroupsFor(GroupRows(store, q, {id}), id)
  }

  function KeptGroups(store: Store, q: TargetQuery): seq<TargetRow> {
    Map(Filter(store.groups, q.keep), DecodeTarget(q))
  }

  lemma LimitedJoinIsOrderly(store: Store, q: TargetQuery, ids: set<int>)
    requires ValidStore(store)
    ensures Orderly(GroupRows(store, q, ids))
  {
    var rows := Join(KeptGroups(store, q), store.accountGroups, ids);
    DistinctTargetRows(store.groups, q.keep);
    JoinIsOrderly(KeptGroups(store, q), store.accountGroups, ids);
    OrderlyPrefix(rows, if q.limit.Some? && q.limit.value < |rows| then q.limit.value else |rows|);
  }

  /** The two lists of an account, from the rows of all accounts. */
  lemma ListsFromRows(store: Store, q: TargetQuery, ids: set<int>, id: int, n: nat)
    requires ValidStore(store) && q.limit == Some(n) && q.joins == [] && id in ids
    ensures var rows := Join(KeptGroups(store, q), store.accountGroups, ids);
      && GroupsFor(GroupRows(store, q, ids), id)
         == Map(Filter(Take(rows, Some(n)), OwnedByKey(JoinOwner(), id)), GroupOf())
      && GroupsFor(GroupRows(store, q, {id}), id)
         == Map(Take(Filter(rows, OwnedByKey(JoinOwner(), id)), Some(n)), GroupOf())
  {
    var gs := KeptGroups(store, q);
    LimitedJoinIsOrderly(store, q, ids);
    LimitedJoinIsOrderly(store, q, {id});
    GroupsAreOwnRows(GroupRows(store, q, ids), id);
    GroupsAreOwnRows(GroupRows(store, q, {id}), id);
    JoinOfOne(gs, store.accountGroups, ids, id);
    JoinedAccounts(gs, store.accountGroups, {id});
    var own := GroupRows(store, q, {id});
    forall r | r in own
      ensures OwnedByKey(JoinOwner(), id)(r)
    {
      var i :| 0 <= i < |own| && own[i] == r;
      assert own[i] == Join(gs, store.accountGroups, {id})[i];
    }
    FilterAll(own, OwnedByKey(JoinOwner(), id));
  }

  /** A limited groups query leaves every account the list of groups that a limited query of its own would, exactly when
      the limit is harmless; it counts the join rows of all accounts together. */
  lemma GroupLimitExact(store: Store, q: TargetQuery, ids: set<int>)
    requires ValidStore(store) && q.limit.Some? && q.joins == []
    ensures GroupListsLimitedPerNode(store, q, ids) <==>
      Harmless(Join(KeptGroups(store, q), store.accountGroups, ids), JoinOwner(), q.limit.value)
  {
    hide Join, KeptGroups, GroupRows, GroupsFor;
    var rows, n := Join(KeptGroups(store, q), store.accountGroups, ids), q.limit.value;
    LimitExact(rows, JoinOwner(), n);
    forall id | id in ids
      ensures GroupsFor(GroupRows(store, q, ids), id)
              == Map(Filter(Take(rows, Some(n)), OwnedByKey(JoinOwner(), id)), GroupOf())
      ensures GroupsFor(GroupRows(store, q, {id}), id)
              == Map(Take(Filter(rows, OwnedByKey(JoinOwner(), id)), Some(n)), GroupOf())
    {
      ListsFromRows(store, q, ids, id, n);
    }
    if GroupListsLimitedPerNode(store, q, ids) {
      JoinedAccounts(KeptGroups(store, q), store.accountGroups, ids);
      forall id | id in ids
        ensures |Filter(Take(rows, Some(n)), OwnedByKey(JoinOwner(), id))|
                == |Take(Filter(rows, OwnedByKey(JoinOwner(), id)), Some(n))|
      {
        assert GroupsFor(GroupRows(store, q, ids), id) == GroupsFor(GroupRows(store, q, {id}), id);
      }
      SizesOfOwners(rows, JoinOwner(), n, ids);
    }
  }
}
