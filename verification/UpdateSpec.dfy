/** Updating many accounts: the specification that sqlSave of AccountUpdate builds, and what its edge lists mean
    (backend/ent/account_update.go). */
module UpdateSpecs {
  import opened Common
  import opened AccountSchema
  import opened RowCodec
  import opened AccountMutations
  import opened CreateSpecs

  // ---------------------------------------------------------------- the specification

  class UpdateSpec {
    var nodeID: Option<int>
    /** The columns returned; none means all. */
    var columns: seq<Column>
    var predicates: seq<RowFilter>
    var sets: seq<(Column, Value)>
    var increases: seq<(Column, Value)>
    var nulls: seq<Column>
    var clearEdges: seq<EdgeSpec>
    var addEdges: seq<EdgeSpec>

    constructor ()
      ensures nodeID == None && columns == [] && predicates == [] && sets == [] && increases == [] && nulls == []
      ensures clearEdges == [] && addEdges == []
    {
      nodeID, columns, predicates, sets, increases, nulls := None, [], [], [], [], [];
      clearEdges, addEdges := [], [];
    }
  }

  /** The fields that an update may change, in the order of sqlSave. */
  const UPDATED: seq<Column> := [
    UpdatedAt, DeletedAt, Name, Notes, Platform, Type, Credentials, Extra, ProxyFallbackOriginID, Concurrency,
    LoadFactor, Priority, RateMultiplier, Status, ErrorMessage, LastUsedAt, ExpiresAt, AutoPauseOnExpired,
    Schedulable, RateLimitedAt, RateLimitResetAt, OverloadUntil, TempUnschedulableUntil, TempUnschedulableReason,
    SessionWindowStart, SessionWindowEnd, SessionWindowStatus, QuotaDimension]

  const NUMERIC: seq<Column> := [ProxyFallbackOriginID, Concurrency, LoadFactor, Priority, RateMultiplier]

  const NULLABLE: seq<Column> := [
    DeletedAt, Notes, ProxyFallbackOriginID, LoadFactor, ErrorMessage, LastUsedAt, ExpiresAt, RateLimitedAt,
    RateLimitResetAt, OverloadUntil, TempUnschedulableUntil, TempUnschedulableReason, SessionWindowStart,
    SessionWindowEnd, SessionWindowStatus]

  /** The fields to increase, and the fields to set to null, among columns. */
  function Increases(increments: map<Column, Value>, columns: seq<Column>): seq<(Column, Value)> {
    if columns == [] then []
    else Increases(increments, columns[..|columns| - 1])
         + var c := columns[|columns| - 1]; if c in NUMERIC && c in increments then [(c, increments[c])] else []
  }

  function Nulls(cleared: set<Column>, columns: seq<Column>): seq<Column> {
    if columns == [] then []
    else Nulls(cleared, columns[..|columns| - 1])
         + var c := columns[|columns| - 1]; if c in NULLABLE && c in cleared then [c] else []
  }

  method EditFields(m: AccountMutation, spec: UpdateSpec)
    requires spec.sets == [] && spec.increases == [] && spec.nulls == []
    modifies spec`sets, spec`increases, spec`nulls
    ensures spec.sets == SpecFields(m.values, UPDATED)
    ensures spec.increases == Increases(m.increments, UPDATED)
    ensures spec.nulls == Nulls(m.clearedFields, UPDATED)
  {
    ghost var done: seq<Column> := [];
    var i := 0;
    while i < |UPDATED|
      invariant 0 <= i <= |UPDATED| && done == UPDATED[..i]
      invariant spec.sets == SpecFields(m.values, done)
      invariant spec.increases == Increases(m.increments, done)
      invariant spec.nulls == Nulls(m.clearedFields, done)
    {
      var c := UPDATED[i];
      TakeSnoc(UPDATED, i);
      assert (done + [c])[..|done|] == done;
      if c in m.values {
        spec.sets := spec.sets + [(c, m.values[c])];
      }
      if c in NUMERIC && c in m.increments {
        spec.increases := spec.increases + [(c, m.increments[c])];
      }
      if c in NULLABLE && c in m.clearedFields {
        spec.nulls := spec.nulls + [c];
      }
      done := done + [c];
      i := i + 1;
    }
    assert done == UPDATED;
  }

  // ---------------------------------------------------------------- what the edge lists mean

  /** What a list of edges to clear takes away from a to-many edge. */
  datatype Cut = CutAll | CutSome(ids: set<int>)

  function More(cut: Cut, ids: set<int>): Cut {
    match cut
    case CutAll => CutAll
    case CutSome(some) => CutSome(some + ids)
  }

  /** An edge without nodes clears all links; one with nodes clears those. */
  function CutBy(clears: seq<EdgeSpec>, e: ManyEdge): Cut {
    if clears == [] then CutSome({})
    else
      var last := clears[|clears| - 1];
      if last.target != ManyTo(e) then CutBy(clears[..|clears| - 1], e)
      else if last.nodes == [] then CutAll
      else More(CutBy(clears[..|clears| - 1], e), SetOf(last.nodes))
  }

  predicate KeyCleared(clears: seq<EdgeSpec>, e: OneEdge) {
    exists k :: 0 <= k < |clears| && clears[k].target == OneTo(e)
  }

  function Remaining(links: set<int>, cut: Cut): set<int> {
    match cut
    case CutAll => {}
    case CutSome(ids) => links - ids
  }

  /** The links after an update: first what is to be cleared is cleared, then what is to be added is added. */
  function LinksAfter(links: set<int>, clears: seq<EdgeSpec>, adds: seq<EdgeSpec>, e: ManyEdge): set<int> {
    Remaining(links, CutBy(clears, e)) + AddedBy(adds, e)
  }

  function KeyAfter(key: Option<int>, clears: seq<EdgeSpec>, adds: seq<EdgeSpec>, e: OneEdge): Option<int> {
    var added := KeyBy(adds, e);
    if added.Some? then added else if KeyCleared(clears, e) then None else key
  }

  function CutOnce(cut: Cut, x: EdgeSpec, e: ManyEdge): Cut {
    if x.target != ManyTo(e) then cut else if x.nodes == [] then CutAll else More(cut, SetOf(x.nodes))
  }

  lemma CutsSnoc(clears: seq<EdgeSpec>, x: EdgeSpec)
    ensures forall e :: CutBy(clears + [x], e) == CutOnce(CutBy(clears, e), x, e)
    ensures forall e :: KeyCleared(clears + [x], e) <==> x.target == OneTo(e) || KeyCleared(clears, e)
  {
    assert (clears + [x])[..|clears|] == clears;
    forall e
      ensures KeyCleared(clears + [x], e) <==> x.target == OneTo(e) || KeyCleared(clears, e)
    {
      assert (clears + [x])[|clears|] == x;
      if k :| 0 <= k < |clears| && clears[k].target == OneTo(e) {
        assert (clears + [x])[k] == clears[k];
      }
    }
  }

  /** The change to a to-many edge, cut from what was cut before. */
  function CutFor(before: Cut, c: ManyChange): Cut {
    if c.cleared then CutAll else More(before, c.removed)
  }

  lemma MoreNothing(cut: Cut)
    ensures More(cut, {}) == cut
  {
  }

  method ClearMany(m: AccountMutation, spec: UpdateSpec, e: ManyEdge)
    modifies spec`clearEdges
    ensures CutBy(spec.clearEdges, e) == CutFor(CutBy(old(spec.clearEdges), e), m.many.Of(e))
    ensures forall x :: x != e ==> CutBy(spec.clearEdges, x) == CutBy(old(spec.clearEdges), x)
    ensures forall x :: KeyCleared(spec.clearEdges, x) == KeyCleared(old(spec.clearEdges), x)
  {
    MoreNothing(CutBy(spec.clearEdges, e));
    var c := m.many.Of(e);
    if c.cleared {
      CutsSnoc(spec.clearEdges, EdgeSpec(ManyTo(e), []));
      spec.clearEdges := spec.clearEdges + [EdgeSpec(ManyTo(e), [])];
    }
    var removed := Elements(c.removed);
    assert removed == [] ==> c.removed == {};
    if |removed| > 0 && !c.cleared {
      CutsSnoc(spec.clearEdges, EdgeSpec(ManyTo(e), removed));
      spec.clearEdges := spec.clearEdges + [EdgeSpec(ManyTo(e), removed)];
    }
  }

  method AddMany(m: AccountMutation, spec: UpdateSpec, e: ManyEdge)
    modifies spec`addEdges
    ensures AddedBy(spec.addEdges, e) == AddedBy(old(spec.addEdges), e) + m.many.Of(e).added
    ensures forall x :: x != e ==> AddedBy(spec.addEdges, x) == AddedBy(old(spec.addEdges), x)
    ensures forall x :: KeyBy(spec.addEdges, x) == KeyBy(old(spec.addEdges), x)
  {
    var added := Elements(m.many.Of(e).added);
    assert added == [] ==> m.many.Of(e).added == {};
    if |added| > 0 {
      EdgesSnoc(spec.addEdges, EdgeSpec(ManyTo(e), added));
      spec.addEdges := spec.addEdges + [EdgeSpec(ManyTo(e), added)];
    }
  }

  /** The edge specifications of one to-many edge. */
  method EditMany(m: AccountMutation, spec: UpdateSpec, e: ManyEdge)
    modifies spec`clearEdges, spec`addEdges
    ensures CutBy(spec.clearEdges, e) == CutFor(CutBy(old(spec.clearEdges), e), m.many.Of(e))
    ensures forall x :: x != e ==> CutBy(spec.clearEdges, x) == CutBy(old(spec.clearEdges), x)
    ensures forall x :: KeyCleared(spec.clearEdges, x) == KeyCleared(old(spec.clearEdges), x)
    ensures AddedBy(spec.addEdges, e) == AddedBy(old(spec.addEdges), e) + m.many.Of(e).added
    ensures forall x :: x != e ==> AddedBy(spec.addEdges, x) == AddedBy(old(spec.addEdges), x)
    ensures forall x :: KeyBy(spec.addEdges, x) == KeyBy(old(spec.addEdges), x)
  {
    ClearMany(m, spec, e);
    AddMany(m, spec, e);
  }

  /** The edge specifications of one to-one edge. */
  method EditOne(m: AccountMutation, spec: UpdateSpec, e: OneEdge)
    modifies spec`clearEdges, spec`addEdges
    ensures forall x :: CutBy(spec.clearEdges, x) == CutBy(old(spec.clearEdges), x)
    ensures forall x ::
      KeyCleared(spec.clearEdges, x) <==> KeyCleared(old(spec.clearEdges), x) || (x == e && m.OneCleared(e))
    ensures forall x :: AddedBy(spec.addEdges, x) == AddedBy(old(spec.addEdges), x)
    ensures forall x ::
      KeyBy(spec.addEdges, x) == if x == e && m.one.Of(e).id.Some? then m.one.Of(e).id else KeyBy(old(spec.addEdges), x)
  {
    if m.OneCleared(e) {
      CutsSnoc(spec.clearEdges, EdgeSpec(OneTo(e), []));
      spec.clearEdges := spec.clearEdges + [EdgeSpec(OneTo(e), [])];
    }
    if m.one.Of(e).id.Some? {
      EdgesSnoc(spec.addEdges, EdgeSpec(OneTo(e), [m.one.Of(e).id.value]));
      spec.addEdges := spec.addEdges + [EdgeSpec(OneTo(e), [m.one.Of(e).id.value])];
    }
  }

  /** The edge lists say what the mutation says. */
  ghost predicate EdgesMean(clears: seq<EdgeSpec>, adds: seq<EdgeSpec>, many: ManyEdges, one: OneEdges,
                            cleared: set<Column>) {
    && (forall e :: CutBy(clears, e) == CutFor(CutSome({}), many.Of(e)))
    && (forall e :: AddedBy(adds, e) == many.Of(e).added)
    && (forall e :: KeyCleared(clears, e) <==> KeyColumn(e) in cleared || one.Of(e).cleared)
    && (forall e :: KeyBy(adds, e) == one.Of(e).id)
  }

  /** The edges in the order of sqlSave. */
  method EditEdges(m: AccountMutation, spec: UpdateSpec)
    requires spec.clearEdges == [] && spec.addEdges == []
    modifies spec`clearEdges, spec`addEdges
    ensures EdgesMean(spec.clearEdges, spec.addEdges, m.many, m.one, m.clearedFields)
  {
    EditMany(m, spec, GroupsEdge);
    EditOne(m, spec, ProxyEdge);
    EditOne(m, spec, ParentEdge);
    EditMany(m, spec, ChildrenEdge);
    EditMany(m, spec, UsageLogsEdge);
  }

  /** Edge updates mean what they say, however the sets added, removed and cleared overlap. */
  lemma UpdateMeans(clears: seq<EdgeSpec>, adds: seq<EdgeSpec>, many: ManyEdges, one: OneEdges, cleared: set<Column>,
                    e: ManyEdge, links: set<int>, f: OneEdge, key: Option<int>)
    requires EdgesMean(clears, adds, many, one, cleared)
    ensures LinksAfter(links, clears, adds, e) == Meaning(many.Of(e), links)
    ensures KeyAfter(key, clears, adds, f)
            == if one.Of(f).id.Some? then one.Of(f).id
               else if KeyColumn(f) in cleared || one.Of(f).cleared then None else key
  {
    assert CutBy(clears, e) == CutFor(CutSome({}), many.Of(e)) && AddedBy(adds, e) == many.Of(e).added;
    assert KeyBy(adds, f) == one.Of(f).id;
  }

  /** The links that a change leaves: none if cleared, else all but the removed; and the added ones. */
  function Meaning(c: ManyChange, links: set<int>): set<int> {
    (if c.cleared then {} else links - c.removed) + c.added
  }

  // ---------------------------------------------------------------- the builder

  /** The fields whose validators are asked, if they are set. */
  const VALIDATED: seq<Column> := [Name, Platform, Type, Status, SessionWindowStatus, QuotaDimension]

  method CheckUpdate(m: AccountMutation, valid: Validator) returns (err: Option<Column>)
    ensures err.None? <==> forall c :: c in VALIDATED && c in m.values ==> valid(c, m.values[c])
    ensures err.Some? ==> err.value in VALIDATED && err.value in m.values && !valid(err.value, m.values[err.value])
  {
    var i := 0;
    while i < |VALIDATED|
      invariant 0 <= i <= |VALIDATED|
      invariant forall j :: 0 <= j < i && VALIDATED[j] in m.values ==> valid(VALIDATED[j], m.values[VALIDATED[j]])
    {
      var c := VALIDATED[i];
      assert c in VALIDATED;
      if c in m.values && !valid(c, m.values[c]) {
        return Some(c);
      }
      i := i + 1;
    }
    return None;
  }

  /** The field edits, edge edits and filter of a mutation. */
  ghost predicate Edits(spec: UpdateSpec, m: AccountMutation)
    reads spec, m
  {
    && spec.sets == SpecFields(m.values, UPDATED)
    && spec.increases == Increases(m.increments, UPDATED)
    && spec.nulls == Nulls(m.clearedFields, UPDATED)
    && spec.predicates == m.predicates
    && EdgesMean(spec.clearEdges, spec.addEdges, m.many, m.one, m.clearedFields)
  }

  /** The edits of sqlSave, which follow the check. */
  method EditAll(m: AccountMutation, spec: UpdateSpec)
    requires spec.sets == [] && spec.increases == [] && spec.nulls == [] && spec.clearEdges == [] && spec.addEdges == []
    modifies spec
    ensures Edits(spec, m) && spec.nodeID == old(spec.nodeID) && spec.columns == old(spec.columns)
  {
    spec.predicates := m.predicates;
    EditFields(m, spec);
    EditEdges(m, spec);
  }

  datatype UpdateError = InvalidField(c: Column) | NoID | BadColumn(c: Column)

  /** The specification that AccountUpdate builds: no id, all columns. */
  method UpdateManySpec(m: AccountMutation, valid: Validator) returns (res: Result<UpdateSpec, UpdateError>)
    ensures res.Ok? <==> forall c :: c in VALIDATED && c in m.values ==> valid(c, m.values[c])
    ensures res.Err? ==> res.error.InvalidField?
    ensures res.Ok? ==> fresh(res.value) && Edits(res.value, m) && res.value.nodeID == None && res.value.columns == []
  {
    var err := CheckUpdate(m, valid);
    if err.Some? {
      return Err(InvalidField(err.value));
    }
    var spec := new UpdateSpec();
    EditAll(m, spec);
    return Ok(spec);
  }
}
