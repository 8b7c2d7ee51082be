/** A pending change to an account: the fields set, increased and cleared, and the edges added, removed and cleared
    (backend/ent/mutation.go). */
module AccountMutations {
  import opened Common
  import opened AccountSchema
  import opened RowCodec

  datatype ManyEdge = GroupsEdge | ChildrenEdge | UsageLogsEdge

  datatype OneEdge = ProxyEdge | ParentEdge

  datatype ManyChange = ManyChange(added: set<int>, removed: set<int>, cleared: bool)

  datatype OneChange = OneChange(id: Option<int>, cleared: bool)

  datatype ManyEdges = ManyEdges(groups: ManyChange, children: ManyChange, usageLogs: ManyChange) {
    function Of(e: ManyEdge): ManyChange {
      match e
      case GroupsEdge => groups
      case ChildrenEdge => children
      case UsageLogsEdge => usageLogs
    }

    function With(e: ManyEdge, c: ManyChange): ManyEdges {
      match e
      case GroupsEdge => this.(groups := c)
      case ChildrenEdge => this.(children := c)
      case UsageLogsEdge => this.(usageLogs := c)
    }
  }

  datatype OneEdges = OneEdges(proxy: OneChange, parent: OneChange) {
    function Of(e: OneEdge): OneChange {
      match e
      case ProxyEdge => proxy
      case ParentEdge => parent
    }

    function With(e: OneEdge, c: OneChange): OneEdges {
      match e
      case ProxyEdge => this.(proxy := c)
      case ParentEdge => this.(parent := c)
    }
  }

  /** A predicate, as far as it selects accounts by id. */
  type RowFilter = int -> bool

  function KeyColumn(e: OneEdge): Column {
    match e
    case ProxyEdge => ProxyID
    case ParentEdge => ParentAccountID
  }

  class AccountMutation {
    /** The id points into an entity, or is the mutation's own. */
    var idOf: Entity?
    var ownID: Option<int>
    var done: bool
    var values: map<Column, Value>
    var increments: map<Column, Value>
    var clearedFields: set<Column>
    var many: ManyEdges
    var one: OneEdges
    var predicates: seq<RowFilter>

    constructor (id: Option<int>)
      ensures idOf == null && ownID == id && !done
      ensures values == map[] && increments == map[] && clearedFields == {} && predicates == []
      ensures forall e: ManyEdge :: many.Of(e) == ManyChange({}, {}, false)
      ensures forall e: OneEdge :: one.Of(e) == OneChange(None, false)
    {
      var none, nil := ManyChange({}, {}, false), OneChange(None, false);
      idOf, ownID, done := null, id, false;
      values, increments, clearedFields, predicates := map[], map[], {}, [];
      many, one := ManyEdges(none, none, none), OneEdges(nil, nil);
    }

    /** The id, wherever it is. */
    function ID(): Option<int>
      reads this, idOf
    {
      if idOf == null then ownID
      else if AccountSchema.ID in idOf.fields && idOf.fields[AccountSchema.ID].Is?
          && idOf.fields[AccountSchema.ID].v.IntVal?
      then Some(idOf.fields[AccountSchema.ID].v.i)
      else None
    }

    /** Cleared through the edge or through its key field. */
    predicate OneCleared(e: OneEdge)
      reads this
    {
      KeyColumn(e) in clearedFields || one.Of(e).cleared
    }

    method SetField(c: Column, v: Value)
      modifies this`values, this`increments
      ensures values == old(values)[c := v] && increments == old(increments) - {c}
    {
      values, increments := values[c := v], increments - {c};
    }

    method ClearField(c: Column)
      modifies this`values, this`increments, this`clearedFields
      ensures values == old(values) - {c} && increments == old(increments) - {c}
      ensures clearedFields == old(clearedFields) + {c}
    {
      values, increments := values - {c}, increments - {c};
      clearedFields := clearedFields + {c};
    }

    /** ResetNotes and its like. The numeric setters of an update builder reset the field first. */
    method ResetField(c: Column)
      modifies this`values, this`increments, this`clearedFields
      ensures values == old(values) - {c} && increments == old(increments) - {c}
      ensures clearedFields == old(clearedFields) - {c}
    {
      values, increments, clearedFields := values - {c}, increments - {c}, clearedFields - {c};
    }

    /** AddGroupIDs and its like: what was removed or cleared before stays so. */
    method AddIDs(e: ManyEdge, ids: seq<int>)
      modifies this`many
      ensures many == old(many).With(e, AfterAdd(old(many).Of(e), SetOf(ids)))
    {
      var i := 0;
      while i < |ids|
        invariant 0 <= i <= |ids|
        invariant many == old(many).With(e, AfterAdd(old(many).Of(e), SetOf(ids[..i])))
      {
        SetOfSnoc(ids, i);
        many := many.With(e, many.Of(e).(added := many.Of(e).added + {ids[i]}));
        i := i + 1;
      }
      assert ids[..i] == ids;
    }

    /** RemoveGroupIDs and its like: pending additions of the ids are dropped. */
    method RemoveIDs(e: ManyEdge, ids: seq<int>)
      modifies this`many
      ensures many == old(many).With(e, AfterRemove(old(many).Of(e), SetOf(ids)))
    {
      var i := 0;
      while i < |ids|
        invariant 0 <= i <= |ids|
        invariant many == old(many).With(e, AfterRemove(old(many).Of(e), SetOf(ids[..i])))
      {
        SetOfSnoc(ids, i);
        var c := many.Of(e);
        many := many.With(e, c.(added := c.added - {ids[i]}, removed := c.removed + {ids[i]}));
        i := i + 1;
      }
      assert ids[..i] == ids;
    }

    /** ClearGroups and its like: a flag only; pending additions stay. */
    method ClearEdge(e: ManyEdge)
      modifies this`many
      ensures many == old(many).With(e, AfterClear(old(many).Of(e)))
    {
      many := many.With(e, many.Of(e).(cleared := true));
    }

    /** ResetGroups and its like. */
    method ResetLinks(e: ManyEdge)
      modifies this`many
      ensures many == old(many).With(e, ManyChange({}, {}, false))
    {
      many := many.With(e, ManyChange({}, {}, false));
    }

    method SetOne(e: OneEdge, id: int)
      modifies this`one
      ensures one == old(one).With(e, old(one).Of(e).(id := Some(id)))
    {
      one := one.With(e, one.Of(e).(id := Some(id)));
    }

    /** ClearProxy and ClearParent: two flags only; a pending key stays. */
    method ClearOne(e: OneEdge)
      modifies this`one, this`clearedFields
      ensures one == old(one).With(e, old(one).Of(e).(cleared := true))
      ensures clearedFields == old(clearedFields) + {KeyColumn(e)}
    {
      one := one.With(e, one.Of(e).(cleared := true));
      clearedFields := clearedFields + {KeyColumn(e)};
    }

    /** ResetProxy and ResetParent: the key field stays cleared. */
    method ResetOne(e: OneEdge)
      modifies this`one
      ensures one == old(one).With(e, OneChange(None, false))
    {
      one := one.With(e, OneChange(None, false));
    }

    /** ResetProxyID and ResetParentAccountID: the edge stays cleared. */
    method ResetKey(e: OneEdge)
      modifies this`one, this`clearedFields
      ensures one == old(one).With(e, old(one).Of(e).(id := None))
      ensures clearedFields == old(clearedFields) - {KeyColumn(e)}
    {
      one := one.With(e, one.Of(e).(id := None));
      clearedFields := clearedFields - {KeyColumn(e)};
    }

    /** ClearProxyID and ClearParentAccountID: a pending key is dropped. */
    method DropKey(e: OneEdge)
      modifies this`one, this`clearedFields
      ensures one == old(one).With(e, old(one).Of(e).(id := None))
      ensures clearedFields == old(clearedFields) + {KeyColumn(e)}
    {
      one := one.With(e, one.Of(e).(id := None));
      clearedFields := clearedFields + {KeyColumn(e)};
    }
  }

  /** The id is the entity's once the mutation points at one, and until then its own. */
  lemma IDIs(m: AccountMutation)
    ensures m.idOf == null ==> m.ID() == m.ownID
    ensures m.idOf != null && AccountSchema.ID in m.idOf.fields ==>
      match m.idOf.fields[AccountSchema.ID] case Is(IntVal(i)) => m.ID() == Some(i) case _ => m.ID() == None
  {
  }

  function AfterAdd(c: ManyChange, ids: set<int>): ManyChange {
    c.(added := c.added + ids)
  }

  function AfterRemove(c: ManyChange, ids: set<int>): ManyChange {
    c.(added := c.added - ids, removed := c.removed + ids)
  }

  function AfterClear(c: ManyChange): ManyChange {
    c.(cleared := true)
  }

  lemma EmptyByMembers(s: set<int>)
    ensures (forall x :: x !in s) ==> s == {}
  {
    if forall x :: x !in s {
      assert s == {};
    }
  }

  /** The elements of a set, in whatever order a map iteration yields them. */
  method Elements(s: set<int>) returns (ids: seq<int>)
    ensures SetOf(ids) == s && Distinct(ids) && |ids| == |s|
  {
    ids := [];
    var rest := s;
    while rest != {}
      invariant rest <= s && SetOf(ids) == s - rest && Distinct(ids) && |ids| + |rest| == |s|
      decreases |rest|
    {
      EmptyByMembers(rest);
      var id :| id in rest;
      assert id !in SetOf(ids);
      DistinctSnoc(ids, id);
      assert SetOf(ids + [id]) == SetOf(ids) + {id};
      ids, rest := ids + [id], rest - {id};
    }
  }
}
