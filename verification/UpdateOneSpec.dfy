/** Updating one account: the specification that sqlSave of AccountUpdateOne builds from statements of its own
    (backend/ent/account_update.go). */
module SingleUpdates {
  import opened Common
  import opened AccountSchema
  import opened RowCodec
  import opened AccountMutations
  import opened CreateSpecs
  import opened UpdateSpecs

  // ---------------------------------------------------------------- fields

  /** The statements about one field: all fields can be set, some also increased, set to null, or both. */
  datatype FieldEdit = SetOnly(c: Column) | Numeric(c: Column) | Nullable(c: Column) | NumericNullable(c: Column)

  const SINGLE_FIELDS: seq<FieldEdit> := [
    SetOnly(UpdatedAt), Nullable(DeletedAt), SetOnly(Name), Nullable(Notes), SetOnly(Platform), SetOnly(Type),
    SetOnly(Credentials), SetOnly(Extra), NumericNullable(ProxyFallbackOriginID), Numeric(Concurrency),
    NumericNullable(LoadFactor), Numeric(Priority), Numeric(RateMultiplier), SetOnly(Status), Nullable(ErrorMessage),
    Nullable(LastUsedAt), Nullable(ExpiresAt), SetOnly(AutoPauseOnExpired), SetOnly(Schedulable),
    Nullable(RateLimitedAt), Nullable(RateLimitResetAt), Nullable(OverloadUntil), Nullable(TempUnschedulableUntil),
    Nullable(TempUnschedulableReason), Nullable(SessionWindowStart), Nullable(SessionWindowEnd),
    Nullable(SessionWindowStatus), SetOnly(QuotaDimension)]

  predicate CanIncrease(f: FieldEdit) {
    f.Numeric? || f.NumericNullable?
  }

  predicate CanBeNull(f: FieldEdit) {
    f.Nullable? || f.NumericNullable?
  }

  function SetsOf(values: map<Column, Value>, fields: seq<FieldEdit>): seq<(Column, Value)> {
    if fields == [] then []
    else SetsOf(values, fields[..|fields| - 1])
         + var f := fields[|fields| - 1]; if f.c in values then [(f.c, values[f.c])] else []
  }

  function IncreasesOf(increments: map<Column, Value>, fields: seq<FieldEdit>): seq<(Column, Value)> {
    if fields == [] then []
    else IncreasesOf(increments, fields[..|fields| - 1])
         + var f := fields[|fields| - 1]; if CanIncrease(f) && f.c in increments then [(f.c, increments[f.c])] else []
  }

  function NullsOf(cleared: set<Column>, fields: seq<FieldEdit>): seq<Column> {
    if fields == [] then []
    else NullsOf(cleared, fields[..|fields| - 1])
         + var f := fields[|fields| - 1]; if CanBeNull(f) && f.c in cleared then [f.c] else []
  }

  /** The statements for the fields, one field after the other. */
  method EditSingleFields(m: AccountMutation, spec: UpdateSpec)
    requires spec.sets == [] && spec.increases == [] && spec.nulls == []
    modifies spec`sets, spec`increases, spec`nulls
    ensures spec.sets == SetsOf(m.values, SINGLE_FIELDS)
    ensures spec.increases == IncreasesOf(m.increments, SINGLE_FIELDS)
    ensures spec.nulls == NullsOf(m.clearedFields, SINGLE_FIELDS)
  {
    ghost var done: seq<FieldEdit> := [];
    var i := 0;
    while i < |SINGLE_FIELDS|
      invariant 0 <= i <= |SINGLE_FIELDS| && done == SINGLE_FIELDS[..i]
      invariant spec.sets == SetsOf(m.values, done)
      invariant spec.increases == IncreasesOf(m.increments, done)
      invariant spec.nulls == NullsOf(m.clearedFields, done)
    {
      var f := SINGLE_FIELDS[i];
      TakeSnoc(SINGLE_FIELDS, i);
      assert (done + [f])[..|done|] == done;
      if f.c in m.values {
        spec.sets := spec.sets + [(f.c, m.values[f.c])];
      }
      if CanIncrease(f) && f.c in m.increments {
        spec.increases := spec.increases + [(f.c, m.increments[f.c])];
      }
      if CanBeNull(f) && f.c in m.clearedFields {
        spec.nulls := spec.nulls + [f.c];
      }
      done := done + [f];
      i := i + 1;
    }
    assert done == SINGLE_FIELDS;
  }

  /** The statements about field f are those that the other builder has for column c. */
  predicate SameStatements(f: FieldEdit, c: Column) {
    f.c == c && (CanIncrease(f) <==> c in NUMERIC) && (CanBeNull(f) <==> c in NULLABLE)
  }

  lemma SameFirstColumns(i: nat)
    requires i < 14
    ensures |UPDATED| > i && |SINGLE_FIELDS| > i && SINGLE_FIELDS[i].c == UPDATED[i]
  {
  }

  lemma SameLastColumns(i: nat)
    requires 14 <= i < |SINGLE_FIELDS|
    ensures |UPDATED| > i && SINGLE_FIELDS[i].c == UPDATED[i]
  {
  }

  lemma SameColumns(i: nat)
    requires i < |SINGLE_FIELDS|
    ensures |SINGLE_FIELDS| == |UPDATED| && SINGLE_FIELDS[i].c == UPDATED[i]
  {
    if i < 14 {
      SameFirstColumns(i);
    } else {
      SameLastColumns(i);
    }
  }

  lemma SameNumeric(i: nat)
    requires i < |SINGLE_FIELDS|
    ensures CanIncrease(SINGLE_FIELDS[i]) <==> SINGLE_FIELDS[i].c in NUMERIC
  {
  }

  lemma SameNullable(i: nat)
    requires i < |SINGLE_FIELDS|
    ensures CanBeNull(SINGLE_FIELDS[i]) <==> SINGLE_FIELDS[i].c in NULLABLE
  {
  }

  /** Both builders have the same statements for the same fields in the same order. */
  lemma SameFieldTables(i: nat)
    requires i < |SINGLE_FIELDS|
    ensures |SINGLE_FIELDS| == |UPDATED| && SameStatements(SINGLE_FIELDS[i], UPDATED[i])
  {
    SameColumns(i);
    SameNumeric(i);
    SameNullable(i);
  }

  lemma {:induction false} SameLists(m: AccountMutation, fields: seq<FieldEdit>, columns: seq<Column>)
    requires |fields| == |columns| && forall i :: 0 <= i < |fields| ==> SameStatements(fields[i], columns[i])
    ensures SetsOf(m.values, fields) == SpecFields(m.values, columns)
    ensures IncreasesOf(m.increments, fields) == Increases(m.increments, columns)
    ensures NullsOf(m.clearedFields, fields) == Nulls(m.clearedFields, columns)
    decreases |fields|
  {
    if fields != [] {
      assert SameStatements(fields[|fields| - 1], columns[|fields| - 1]);
      SameLists(m, fields[..|fields| - 1], columns[..|fields| - 1]);
    }
  }

  /** So both make the same lists of field edits. */
  lemma SameFieldEdits(m: AccountMutation)
    ensures SetsOf(m.values, SINGLE_FIELDS) == SpecFields(m.values, UPDATED)
    ensures IncreasesOf(m.increments, SINGLE_FIELDS) == Increases(m.increments, UPDATED)
    ensures NullsOf(m.clearedFields, SINGLE_FIELDS) == Nulls(m.clearedFields, UPDATED)
  {
    SameFieldTables(0);
    forall i | 0 <= i < |SINGLE_FIELDS|
      ensures SameStatements(SINGLE_FIELDS[i], UPDATED[i])
    {
      SameFieldTables(i);
    }
    SameLists(m, SINGLE_FIELDS, UPDATED);
  }

  // ---------------------------------------------------------------- edges

  /** One statement each, for an edge that is cleared, that loses nodes, and that gains nodes. */
  method ClearLinks(m: AccountMutation, spec: UpdateSpec, e: ManyEdge)
    modifies spec`clearEdges
    ensures CutBy(spec.clearEdges, e) == if m.many.Of(e).cleared then CutAll else CutBy(old(spec.clearEdges), e)
    ensures forall x :: x != e ==> CutBy(spec.clearEdges, x) == CutBy(old(spec.clearEdges), x)
    ensures forall x :: KeyCleared(spec.clearEdges, x) == KeyCleared(old(spec.clearEdges), x)
  {
    if m.many.Of(e).cleared {
      CutsSnoc(spec.clearEdges, EdgeSpec(ManyTo(e), []));
      spec.clearEdges := spec.clearEdges + [EdgeSpec(ManyTo(e), [])];
    }
  }

  method RemoveLinks(m: AccountMutation, spec: UpdateSpec, e: ManyEdge)
    modifies spec`clearEdges
    ensures CutBy(spec.clearEdges, e)
            == if m.many.Of(e).cleared then CutBy(old(spec.clearEdges), e)
               else More(CutBy(old(spec.clearEdges), e), m.many.Of(e).removed)
    ensures forall x :: x != e ==> CutBy(spec.clearEdges, x) == CutBy(old(spec.clearEdges), x)
    ensures forall x :: KeyCleared(spec.clearEdges, x) == KeyCleared(old(spec.clearEdges), x)
  {
    MoreNothing(CutBy(spec.clearEdges, e));
    var nodes := Elements(m.many.Of(e).removed);
    assert nodes == [] ==> m.many.Of(e).removed == {};
    if |nodes| > 0 && !m.many.Of(e).cleared {
      CutsSnoc(spec.clearEdges, EdgeSpec(ManyTo(e), nodes));
      spec.clearEdges := spec.clearEdges + [EdgeSpec(ManyTo(e), nodes)];
    }
  }

  method AddLinks(m: AccountMutation, spec: UpdateSpec, e: ManyEdge)
    modifies spec`addEdges
    ensures AddedBy(spec.addEdges, e) == AddedBy(old(spec.addEdges), e) + m.many.Of(e).added
    ensures forall x :: x != e ==> AddedBy(spec.addEdges, x) == AddedBy(old(spec.addEdges), x)
    ensures forall x :: KeyBy(spec.addEdges, x) == KeyBy(old(spec.addEdges), x)
  {
    var nodes := Elements(m.many.Of(e).added);
    assert nodes == [] ==> m.many.Of(e).added == {};
    if |nodes| > 0 {
      EdgesSnoc(spec.addEdges, EdgeSpec(ManyTo(e), nodes));
      spec.addEdges := spec.addEdges + [EdgeSpec(ManyTo(e), nodes)];
    }
  }

  method EditLinks(m: AccountMutation, spec: UpdateSpec, e: ManyEdge)
    modifies spec`clearEdges, spec`addEdges
    ensures CutBy(spec.clearEdges, e) == CutFor(CutBy(old(spec.clearEdges), e), m.many.Of(e))
    ensures forall x :: x != e ==> CutBy(spec.clearEdges, x) == CutBy(old(spec.clearEdges), x)
    ensures forall x :: KeyCleared(spec.clearEdges, x) == KeyCleared(old(spec.clearEdges), x)
    ensures AddedBy(spec.addEdges, e) == AddedBy(old(spec.addEdges), e) + m.many.Of(e).added
    ensures forall x :: x != e ==> AddedBy(spec.addEdges, x) == AddedBy(old(spec.addEdges), x)
    ensures forall x :: KeyBy(spec.addEdges, x) == KeyBy(old(spec.addEdges), x)
  {
    ClearLinks(m, spec, e);
    RemoveLinks(m, spec, e);
    AddLinks(m, spec, e);
  }

  method EditKey(m: AccountMutation, spec: UpdateSpec, e: OneEdge)
    modifies spec`clearEdges, spec`addEdges
    ensures forall x :: CutBy(spec.clearEdges, x) == CutBy(old(spec.clearEdges), x)
    ensures forall x ::
      KeyCleared(spec.clearEdges, x) <==> KeyCleared(old(spec.clearEdges), x) || (x == e && m.OneCleared(e))
    ensures forall x :: AddedBy(spec.addEdges, x) == AddedBy(old(spec.addEdges), x)
    ensures forall x ::
      KeyBy(spec.addEdges, x) == if x == e && m.one.Of(e).id.Some? then m.one.Of(e).id else KeyBy(old(spec.addEdges), x)
  {
    if m.OneCleared(e) {
      CutsSnoc(spec.clearEdges, EdgeSpec(OneTo(e), []));
      spec.clearEdges := spec.clearEdges + [EdgeSpec(OneTo(e), [])];
    }
    var id := m.one.Of(e).id;
    if id.Some? {
      EdgesSnoc(spec.addEdges, EdgeSpec(OneTo(e), [id.value]));
      spec.addEdges := spec.addEdges + [EdgeSpec(OneTo(e), [id.value])];
    }
  }

  method EditSingleEdges(m: AccountMutation, spec: UpdateSpec)
    requires spec.clearEdges == [] && spec.addEdges == []
    modifies spec`clearEdges, spec`addEdges
    ensures EdgesMean(spec.clearEdges, spec.addEdges, m.many, m.one, m.clearedFields)
  {
    EditLinks(m, spec, GroupsEdge);
    EditKey(m, spec, ProxyEdge);
    EditKey(m, spec, ParentEdge);
    EditLinks(m, spec, ChildrenEdge);
    EditLinks(m, spec, UsageLogsEdge);
  }

  // ---------------------------------------------------------------- the builder

  predicate Rejected(m: AccountMutation, c: Column, valid: Validator)
    reads m
  {
    c in m.values && !valid(c, m.values[c])
  }

  /** The check of this builder, field by field. */
  method CheckSingle(m: AccountMutation, valid: Validator) returns (err: Option<Column>)
    ensures err.None? <==> forall c :: c in VALIDATED && c in m.values ==> valid(c, m.values[c])
    ensures err.Some? ==> err.value in VALIDATED && Rejected(m, err.value, valid)
  {
    if Rejected(m, Name, valid) {
      return Some(Name);
    }
    if Rejected(m, Platform, valid) {
      return Some(Platform);
    }
    if Rejected(m, Type, valid) {
      return Some(Type);
    }
    if Rejected(m, Status, valid) {
      return Some(Status);
    }
    if Rejected(m, SessionWindowStatus, valid) {
      return Some(SessionWindowStatus);
    }
    if Rejected(m, QuotaDimension, valid) {
      return Some(QuotaDimension);
    }
    return None;
  }

  function ReturnedColumns(fields: seq<Column>): seq<Column> {
    if fields == [] then [] else [ID] + WithoutID(fields)
  }

  function WithoutID(fields: seq<Column>): seq<Column> {
    if fields == [] then []
    else WithoutID(fields[..|fields| - 1]) + if fields[|fields| - 1] == ID then [] else [fields[|fields| - 1]]
  }

  function NotTheID(): Column -> bool {
    (c: Column) => c != ID
  }

  /** The id once, first, and then the other fields that were selected, in their order; nothing if none were. */
  ghost predicate Selects(columns: seq<Column>, fields: seq<Column>) {
    if fields == [] then columns == []
    else
      && columns != [] && columns[0] == ID && ID !in columns[1..] && columns[1..] == Filter(fields, NotTheID())
      && forall c :: c in columns <==> c == ID || c in fields
  }

  lemma {:induction false} OthersInOrder(fields: seq<Column>)
    ensures WithoutID(fields) == Filter(fields, NotTheID())
  {
    if fields != [] {
      var init, last := fields[..|fields| - 1], fields[|fields| - 1];
      assert fields == init + [last];
      OthersInOrder(init);
      FilterSnoc(init, last, NotTheID());
    }
  }

  lemma ReturnedAreSelected(fields: seq<Column>)
    ensures Selects(ReturnedColumns(fields), fields)
  {
    if fields != [] {
      var others := Filter(fields, NotTheID());
      OthersInOrder(fields);
      assert ReturnedColumns(fields) == [ID] + others;
      forall c
        ensures c in others <==> c in fields && c != ID
      {
        FilterMember(fields, NotTheID(), c);
      }
    }
  }

  method SelectColumns(fields: seq<Column>) returns (res: Result<seq<Column>, UpdateError>)
    ensures res.Ok? <==> forall c :: c in fields ==> !c.Other?
    ensures res.Ok? ==> Selects(res.value, fields)
    ensures res.Err? ==> res.error.BadColumn? && res.error.c in fields && res.error.c.Other?
  {
    hide Selects, Filter;
    ReturnedAreSelected(fields);
    if fields == [] {
      return Ok([]);
    }
    var columns := [ID];
    ghost var done: seq<Column> := [];
    var i := 0;
    while i < |fields|
      invariant 0 <= i <= |fields| && done == fields[..i]
      invariant columns == [ID] + WithoutID(done)
      invariant forall c :: c in done ==> !c.Other?
    {
      var f := fields[i];
      if f.Other? {
        return Err(BadColumn(f));
      }
      TakeSnoc(fields, i);
      assert (done + [f])[..|done|] == done;
      if f != ID {
        columns := columns + [f];
      }
      done := done + [f];
      i := i + 1;
    }
    assert done == fields;
    return Ok(columns);
  }

  /** The edits of this builder are those that the mutation asks for. */
  method EditSingle(m: AccountMutation, spec: UpdateSpec)
    requires spec.sets == [] && spec.increases == [] && spec.nulls == [] && spec.clearEdges == [] && spec.addEdges == []
    modifies spec
    ensures Edits(spec, m) && spec.nodeID == old(spec.nodeID) && spec.columns == old(spec.columns)
  {
    spec.predicates := m.predicates;
    EditSingleFields(m, spec);
    EditSingleEdges(m, spec);
    SameFieldEdits(m);
  }

  /** The specification that AccountUpdateOne builds: the mutation's id, the columns selected, and the edits. */
  method UpdateOneSpec(m: AccountMutation, fields: seq<Column>, valid: Validator)
    returns (res: Result<UpdateSpec, UpdateError>)
    ensures res.Ok? <==>
      && (forall c :: c in VALIDATED && c in m.values ==> valid(c, m.values[c]))
      && m.ID().Some? && (forall c :: c in fields ==> !c.Other?)
    ensures res.Ok? ==> fresh(res.value) && Edits(res.value, m)
    ensures res.Ok? ==> res.value.nodeID == m.ID() && Selects(res.value.columns, fields)
  {
    var err := CheckSingle(m, valid);
    if err.Some? {
      return Err(InvalidField(err.value));
    }
    var spec := new UpdateSpec();
    if m.ID().None? {
      return Err(NoID);
    }
    spec.nodeID := m.ID();
    var columns := SelectColumns(fields);
    if columns.Err? {
      return Err(columns.error);
    }
    spec.columns := columns.value;
    EditSingle(m, spec);
    return Ok(spec);
  }
}
