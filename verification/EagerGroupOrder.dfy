/** The order of join rows: SQL promises none for them, and what an account is given depends on it only in its order
    (loadGroups of backend/ent/account_query.go). */
module EagerGroupOrder {
  import opened Common
  import opened EagerSpec
  import opened EagerRefines

  /** Rows of one group carry the same group. */
  ghost predicate Consistent(rows: seq<JoinRow>) {
    forall i, j :: 0 <= i < |rows| && 0 <= j < |rows| && rows[i].1.id == rows[j].1.id ==> rows[i].1 == rows[j].1
  }

  // ---------------------------------------------------------------- the groups the rows mention

  lemma FirstTargetsLast(rows: seq<JoinRow>)
    requires rows != []
    ensures var firsts, g := FirstTargets(rows[..|rows| - 1]), rows[|rows| - 1].1;
      FirstTargets(rows) == if g.id in TargetIDs(firsts) then firsts else firsts + [g]
  {
  }

  /** Each group mentioned is there, and only once. */
  lemma {:induction false} FirstsExact(rows: seq<JoinRow>)
    ensures DistinctTargets(FirstTargets(rows))
    ensures forall i :: 0 <= i < |rows| ==> rows[i].1.id in TargetIDs(FirstTargets(rows))
    ensures forall g :: g in FirstTargets(rows) ==> exists i :: 0 <= i < |rows| && rows[i].1 == g
    decreases |rows|
  {
    if rows != [] {
      var init, r := rows[..|rows| - 1], rows[|rows| - 1];
      var firsts := FirstTargets(init);
      FirstsExact(init);
      FirstTargetsLast(rows);
      TargetIDsSnoc(firsts, r.1);
      forall g | g in FirstTargets(rows)
        ensures exists i :: 0 <= i < |rows| && rows[i].1 == g
      {
        if g in firsts {
          var i :| 0 <= i < |init| && init[i].1 == g;
          assert rows[i].1 == g;
        } else {
          assert rows[|init|].1 == g;
        }
      }
      forall i | 0 <= i < |rows|
        ensures rows[i].1.id in TargetIDs(FirstTargets(rows))
      {
        assert i < |init| ==> rows[i] == init[i];
      }
      if r.1.id !in TargetIDs(firsts) {
        forall i | 0 <= i < |firsts|
          ensures firsts[i].id != r.1.id
        {
          assert firsts[i].id in TargetIDs(firsts);
        }
      }
    }
  }

  lemma MentionedIsFirst(rows: seq<JoinRow>, i: nat)
    requires Consistent(rows) && i < |rows|
    ensures rows[i].1 in FirstTargets(rows)
  {
    FirstsExact(rows);
    var firsts := FirstTargets(rows);
    var k :| 0 <= k < |firsts| && firsts[k].id == rows[i].1.id;
    assert firsts[k] in firsts;
    var j :| 0 <= j < |rows| && rows[j].1 == firsts[k];
  }

  /** An account is given exactly the groups it has a row with. */
  lemma GivenExactly(rows: seq<JoinRow>, account: int, g: TargetRow)
    requires Consistent(rows)
    ensures g in GroupsFor(rows, account) <==> (account, g) in rows
  {
    if (account, g) in rows {
      var i :| 0 <= i < |rows| && rows[i] == (account, g);
      MentionedIsFirst(rows, i);
      FilterKeeps(FirstTargets(rows), LinkedTo(rows, account), g);
    }
    if g in GroupsFor(rows, account) {
      FilterHolds(FirstTargets(rows), LinkedTo(rows, account), g);
      FirstsExact(rows);
      var i :| 0 <= i < |rows| && (rows[i].0, rows[i].1.id) == (account, g.id);
      var j :| 0 <= j < |rows| && rows[j].1 == g;
      assert rows[i] == (account, g);
    }
  }

  lemma GivenOnce(rows: seq<JoinRow>, account: int)
    ensures Distinct(GroupsFor(rows, account))
  {
    FirstsExact(rows);
    FilterDistinct(FirstTargets(rows), LinkedTo(rows, account));
  }

  // ---------------------------------------------------------------- any order

  lemma {:induction false} DistinctCounts<T>(s: seq<T>, x: T)
    requires Distinct(s)
    ensures multiset(s)[x] == if x in s then 1 else 0
  {
    if s != [] {
      assert s == [s[0]] + s[1..];
      DistinctCounts(s[1..], x);
    }
  }

  lemma SameDistinct<T(!new)>(s: seq<T>, t: seq<T>)
    requires Distinct(s) && Distinct(t) && forall x :: x in s <==> x in t
    ensures multiset(s) == multiset(t)
  {
    forall x
      ensures multiset(s)[x] == multiset(t)[x]
    {
      DistinctCounts(s, x);
      DistinctCounts(t, x);
    }
  }

  lemma {:induction false} JoinMentions(gs: seq<TargetRow>, links: seq<OwnedRow>, ids: set<int>)
    ensures forall r :: r in Join(gs, links, ids) ==> r.1 in gs
  {
    if gs != [] {
      JoinMentions(gs[1..], links, ids);
    }
  }

  lemma JoinIsConsistent(gs: seq<TargetRow>, links: seq<OwnedRow>, ids: set<int>)
    requires DistinctTargets(gs)
    ensures Consistent(Join(gs, links, ids))
  {
    var rows := Join(gs, links, ids);
    JoinMentions(gs, links, ids);
    forall i, j | 0 <= i < |rows| && 0 <= j < |rows| && rows[i].1.id == rows[j].1.id
      ensures rows[i].1 == rows[j].1
    {
      assert rows[i] in rows && rows[j] in rows;
      var m :| 0 <= m < |gs| && gs[m] == rows[i].1;
      var n :| 0 <= n < |gs| && gs[n] == rows[j].1;
    }
  }

  lemma Permuted(rows: seq<JoinRow>, others: seq<JoinRow>)
    requires multiset(rows) == multiset(others)
    ensures forall r :: r in rows <==> r in others
    ensures Consistent(rows) ==> Consistent(others)
  {
    forall r
      ensures r in rows <==> r in others
    {
      assert r in rows <==> r in multiset(rows);
      assert r in others <==> r in multiset(others);
    }
    if Consistent(rows) {
      forall i, j | 0 <= i < |others| && 0 <= j < |others| && others[i].1.id == others[j].1.id
        ensures others[i].1 == others[j].1
      {
        assert others[i] in rows && others[j] in rows;
      }
    }
  }

  /** In whatever order the database returns the join rows, every account is given the same groups, each once. */
  lemma SameGroupsInAnyOrder(rows: seq<JoinRow>, others: seq<JoinRow>, account: int)
    requires multiset(rows) == multiset(others) && Consistent(rows)
    ensures multiset(GroupsFor(others, account)) == multiset(GroupsFor(rows, account))
  {
    Permuted(rows, others);
    GivenOnce(rows, account);
    GivenOnce(others, account);
    forall g
      ensures g in GroupsFor(others, account) <==> g in GroupsFor(rows, account)
    {
      GivenExactly(rows, account, g);
      GivenExactly(others, account, g);
    }
    SameDistinct(GroupsFor(others, account), GroupsFor(rows, account));
  }

  /** So the batched load gives every account the groups that a query of its own would, whatever the order. */
  lemma GroupsAgreeInAnyOrder(store: Store, q: TargetQuery, ids: set<int>, account: int, rows: seq<JoinRow>)
    requires ValidStore(store) && q.limit.None? && q.joins == [] && account in ids
    requires multiset(rows) == multiset(GroupRows(store, q, ids))
    ensures multiset(GroupsFor(rows, account)) == multiset(NestedGroups(store, q, account))
  {
    DistinctTargetRows(store.groups, q.keep);
    JoinIsConsistent(Map(Filter(store.groups, q.keep), DecodeTarget(q)), store.accountGroups, ids);
    SameGroupsInAnyOrder(GroupRows(store, q, ids), rows, account);
    GroupsAgree(store, q, ids, account);
  }
}
