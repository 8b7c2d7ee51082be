/** Query builders as objects (AccountQuery of backend/ent/account_query.go): the builders of the parent and children
    edges are objects of their own, which a run of the builder changes. */
module EagerObjects {
  import opened Common
  import opened AccountSchema
  import opened EagerSpec

  /** The builders in reach of an edge. */
  ghost function Reach(b: AccountQueryBuilder?): set<AccountQueryBuilder>
    reads (if b == null then {} else {b})`Repr
  {
    if b == null then {} else b.Repr
  }

  /** The builder of an edge, if there is one, builds the query e. */
  ghost predicate Builds(b: AccountQueryBuilder?, e: Option<AccountQuery>)
    reads b, Reach(b)
  {
    if b == null then e.None? else b.Valid() && e == Some(b.Query())
  }

  class AccountQueryBuilder {
    /** Filters, limit and fields, and the queries of the edges that lead to no accounts; the others are objects. */
    var own: AccountQuery
    var parent: AccountQueryBuilder?
    var children: AccountQueryBuilder?
    ghost var Repr: set<AccountQueryBuilder>

    ghost predicate Valid()
      reads this`parent, this`children, this`Repr, Repr`parent, Repr`children, Repr`Repr
      decreases Repr
    {
      && this in Repr
      && (parent != null ==> parent in Repr && parent.Repr <= Repr && this !in parent.Repr && parent.Valid())
      && (children != null ==>
          children in Repr && children.Repr <= Repr && this !in children.Repr && children.Valid())
      && (parent != null && children != null ==> parent.Repr !! children.Repr)
    }

    /** The query built so far. */
    function Query(): AccountQuery
      requires Valid()
      reads this, Repr
      decreases Repr
    {
      own.(withParent := if parent == null then None else Some(parent.Query()),
           withChildren := if children == null then None else Some(children.Query()))
    }

    constructor ()
      ensures Valid() && fresh(Repr)
      ensures Query() == AccountQuery([], None, [], None, None, None, None, None, None)
    {
      own := AccountQuery([], None, [], None, None, None, None, None, None);
      parent, children := null, null;
      Repr := {this};
    }

    method Where(p: Predicate)
      requires Valid()
      modifies this`own
      ensures Valid() && Query() == EagerSpec.Where(old(Query()), p)
    {
      own := EagerSpec.Where(own, p);
    }

    method AppendFieldOnce(c: Column)
      requires Valid()
      modifies this`own
      ensures Valid() && Query() == EagerSpec.AppendFieldOnce(old(Query()), c)
    {
      hide AppendOnce;
      own := EagerSpec.AppendFieldOnce(own, c);
    }

    method Limit(n: nat)
      requires Valid()
      modifies this`own
      ensures Valid() && Query() == old(Query()).(limit := Some(n))
    {
      own := own.(limit := Some(n));
    }

    method Select(columns: seq<Column>)
      requires Valid()
      modifies this`own
      ensures Valid() && Query() == old(Query()).(fields := old(Query()).fields + columns)
    {
      own := own.(fields := own.fields + columns);
    }

    method WithGroups(q: TargetQuery)
      requires Valid()
      modifies this`own
      ensures Valid() && Query() == old(Query()).(withGroups := Some(q))
    {
      own := own.(withGroups := Some(q));
    }

    method WithProxy(q: TargetQuery)
      requires Valid()
      modifies this`own
      ensures Valid() && Query() == old(Query()).(withProxy := Some(q))
    {
      own := own.(withProxy := Some(q));
    }

    method WithUsageLogs(q: OwnedQuery)
      requires Valid()
      modifies this`own
      ensures Valid() && Query() == old(Query()).(withUsageLogs := Some(q))
    {
      own := own.(withUsageLogs := Some(q));
    }

    method WithAccountGroups(q: OwnedQuery)
      requires Valid()
      modifies this`own
      ensures Valid() && Query() == old(Query()).(withAccountGroups := Some(q))
    {
      own := own.(withAccountGroups := Some(q));
    }

    /** The builder of an edge belongs to this one from then on. */
    method WithParent(b: AccountQueryBuilder)
      requires Valid() && b.Valid() && b.Repr !! Repr
      modifies this`parent, this`Repr
      ensures Valid() && Query() == old(Query()).(withParent := Some(old(b.Query())))
      ensures Repr == old(Repr) + b.Repr
    {
      parent := b;
      Repr := Repr + b.Repr;
    }

    method WithChildren(b: AccountQueryBuilder)
      requires Valid() && b.Valid() && b.Repr !! Repr
      modifies this`children, this`Repr
      ensures Valid() && Query() == old(Query()).(withChildren := Some(old(b.Query())))
      ensures Repr == old(Repr) + b.Repr
    {
      children := b;
      Repr := Repr + b.Repr;
    }
  }
}
