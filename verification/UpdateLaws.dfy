/** How the single-row update relates to the many-row one, and both to creation (backend/ent/account_update.go). */
module UpdateLaws {
  import opened Common
  import opened AccountSchema
  import opened RowCodec
  import opened AccountMutations
  import opened CreateSpecs
  import opened UpdateSpecs
  import opened SingleUpdates

  // ---------------------------------------------------------------- one row and many rows

  /** The update changes the account with the id. */
  ghost predicate Touches(spec: UpdateSpec, id: int)
    reads spec
  {
    (spec.nodeID.Some? ==> spec.nodeID.value == id) && forall p :: p in spec.predicates ==> p(id)
  }

  /** Both change the same fields to the same values, and edges in the same way. */
  ghost predicate SameEdits(a: UpdateSpec, b: UpdateSpec)
    reads a, b
  {
    && a.sets == b.sets && a.increases == b.increases && a.nulls == b.nulls
    && (forall e, links ::
          LinksAfter(links, a.clearEdges, a.addEdges, e) == LinksAfter(links, b.clearEdges, b.addEdges, e))
    && (forall e, key :: KeyAfter(key, a.clearEdges, a.addEdges, e) == KeyAfter(key, b.clearEdges, b.addEdges, e))
  }

  lemma EditsAgree(a: UpdateSpec, b: UpdateSpec, m: AccountMutation)
    requires Edits(a, m) && Edits(b, m)
    ensures SameEdits(a, b)
  {
    forall e: ManyEdge, links: set<int>
      ensures LinksAfter(links, a.clearEdges, a.addEdges, e) == LinksAfter(links, b.clearEdges, b.addEdges, e)
    {
      UpdateMeans(a.clearEdges, a.addEdges, m.many, m.one, m.clearedFields, e, links, ProxyEdge, None);
      UpdateMeans(b.clearEdges, b.addEdges, m.many, m.one, m.clearedFields, e, links, ProxyEdge, None);
    }
    forall e: OneEdge, key: Option<int>
      ensures KeyAfter(key, a.clearEdges, a.addEdges, e) == KeyAfter(key, b.clearEdges, b.addEdges, e)
    {
      UpdateMeans(a.clearEdges, a.addEdges, m.many, m.one, m.clearedFields, GroupsEdge, {}, e, key);
      UpdateMeans(b.clearEdges, b.addEdges, m.many, m.one, m.clearedFields, GroupsEdge, {}, e, key);
    }
  }

  /** Builds both specifications of a mutation: the single-row one exists when the many-row one does, an id is known
      and the selected fields are columns; it makes the same edits, to the row with the id if the other touches it. */
  method OneRefinesMany(m: AccountMutation, fields: seq<Column>, valid: Validator)
    returns (many: Result<UpdateSpec, UpdateError>, one: Result<UpdateSpec, UpdateError>)
    ensures one.Ok? <==> many.Ok? && m.ID().Some? && forall c :: c in fields ==> !c.Other?
    ensures one.Ok? ==> SameEdits(one.value, many.value)
    ensures one.Ok? ==> forall id :: Touches(one.value, id) <==> Some(id) == m.ID() && Touches(many.value, id)
  {
    many := UpdateManySpec(m, valid);
    one := UpdateOneSpec(m, fields, valid);
    if one.Ok? {
      EditsAgree(one.value, many.value, m);
    }
  }

  lemma SelectsNothing()
    ensures forall columns :: Selects(columns, []) <==> columns == []
  {
  }

  /** Select decides which columns come back, and nothing else. */
  method SelectIsCosmetic(m: AccountMutation, fields: seq<Column>, valid: Validator)
    returns (all: Result<UpdateSpec, UpdateError>, some: Result<UpdateSpec, UpdateError>)
    ensures some.Ok? <==> all.Ok? && forall c :: c in fields ==> !c.Other?
    ensures some.Ok? ==> SameEdits(some.value, all.value)
    ensures some.Ok? ==> forall id :: Touches(some.value, id) <==> Touches(all.value, id)
    ensures some.Ok? ==> all.value.columns == [] && Selects(some.value.columns, fields)
  {
    hide Selects;
    SelectsNothing();
    all := UpdateOneSpec(m, [], valid);
    some := UpdateOneSpec(m, fields, valid);
    if some.Ok? {
      EditsAgree(some.value, all.value, m);
    }
  }

  // ---------------------------------------------------------------- updates, creation and rows

  lemma NullableArePointers(i: nat)
    requires i < |NULLABLE|
    ensures SlotOf(NULLABLE[i]).Pointer?
  {
  }

  lemma PointersAreNullable(c: Column)
    requires IsScalar(c) && SlotOf(c).Pointer?
    ensures c in NULLABLE
  {
  }

  /** An update can set to null exactly the scalar fields that decode a null to nil. */
  lemma NullableDecodesToNil(c: Column)
    requires IsScalar(c)
    ensures c in NULLABLE <==> SlotOf(c).Pointer?
  {
    hide SlotOf;
    if SlotOf(c).Pointer? {
      PointersAreNullable(c);
    }
    if i :| 0 <= i < |NULLABLE| && NULLABLE[i] == c {
      NullableArePointers(i);
    }
  }

  /** Updating validates the fields that creating validates. */
  lemma SameValidators(c: Column)
    ensures c in VALIDATED <==> Validated(c) in CONDITIONS
  {
    assert CONDITIONS[3] == Validated(Name) && CONDITIONS[5] == Validated(Platform) && CONDITIONS[7] == Validated(Type);
    assert CONDITIONS[14] == Validated(Status) && CONDITIONS[17] == Validated(SessionWindowStatus);
    assert CONDITIONS[19] == Validated(QuotaDimension);
  }

  /** So the fields of an account that creation accepts pass the check of an update. */
  lemma AcceptedAlike(values: map<Column, Value>, valid: Validator)
    requires Acceptable(values, valid)
    ensures forall c :: c in VALIDATED && c in values ==> valid(c, values[c])
  {
    forall c | c in VALIDATED && c in values
      ensures valid(c, values[c])
    {
      SameValidators(c);
      assert Meets(values, Validated(c), valid);
    }
  }

  /** An update can change every scalar field except the time of creation. */
  lemma AllButCreation(c: Column)
    requires IsScalar(c)
    ensures c in UPDATED <==> c != CreatedAt
  {
  }
}
