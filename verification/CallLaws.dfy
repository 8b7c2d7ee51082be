/** What the setters of a mutation come to when they are called one after the other (backend/ent/mutation.go). */
module CallLaws {
  import opened Common
  import opened AccountSchema
  import opened RowCodec
  import opened AccountMutations
  import opened CreateSpecs
  import opened UpdateSpecs

  // ---------------------------------------------------------------- to-many edges

  /** A call of an edge setter. */
  datatype Call = Add(ids: set<int>) | Remove(ids: set<int>) | Clear | ResetLinks

  function Record(c: ManyChange, call: Call): ManyChange {
    match call
    case Add(ids) => AfterAdd(c, ids)
    case Remove(ids) => AfterRemove(c, ids)
    case Clear => AfterClear(c)
    case ResetLinks => ManyChange({}, {}, false)
  }

  /** What the mutation holds after the calls. */
  function Recorded(calls: seq<Call>): ManyChange {
    if calls == [] then ManyChange({}, {}, false)
    else Record(Recorded(calls[..|calls| - 1]), calls[|calls| - 1])
  }

  /** What the calls would come to if each took effect in turn, a reset undoing all before it. */
  function InTurn(calls: seq<Call>, links: set<int>): set<int> {
    if calls == [] then links
    else
      var before := InTurn(calls[..|calls| - 1], links);
      match calls[|calls| - 1]
      case Add(ids) => before + ids
      case Remove(ids) => before - ids
      case Clear => {}
      case ResetLinks => links
  }

  /** Ids that were pending when the edge was last cleared, and were neither added nor removed since. */
  function Stale(calls: seq<Call>): set<int> {
    if calls == [] then {}
    else
      var before := Stale(calls[..|calls| - 1]);
      match calls[|calls| - 1]
      case Add(ids) => before - ids
      case Remove(ids) => before - ids
      case Clear => Recorded(calls[..|calls| - 1]).added
      case ResetLinks => {}
  }

  lemma StepMeaning(c: ManyChange, call: Call, links: set<int>)
    ensures Meaning(Record(c, call), links)
            == match call
               case Add(ids) => Meaning(c, links) + ids
               case Remove(ids) => Meaning(c, links) - ids
               case Clear => c.added
               case ResetLinks => links
  {
  }

  /** An update does what its calls say in turn, except that it adds the stale ids: clearing an edge does not take
      back what was to be added before. */
  lemma {:induction false} UpdateAddsStale(calls: seq<Call>, links: set<int>)
    ensures Meaning(Recorded(calls), links) == InTurn(calls, links) + Stale(calls)
    ensures InTurn(calls, links) !! Stale(calls)
    decreases |calls|
  {
    if calls == [] {
      assert Meaning(Recorded(calls), links) == links;
    } else {
      var init, last := calls[..|calls| - 1], calls[|calls| - 1];
      UpdateAddsStale(init, links);
      StepMeaning(Recorded(init), last, links);
    }
  }

  /** The update means the calls in turn exactly when no id is stale. */
  lemma InTurnExactly(calls: seq<Call>, links: set<int>)
    ensures Meaning(Recorded(calls), links) == InTurn(calls, links) <==> Stale(calls) == {}
  {
    UpdateAddsStale(calls, links);
    DisjointUnion(InTurn(calls, links), Stale(calls));
  }

  /** Adding a group and then clearing the groups adds it. */
  lemma ClearedIDIsAdded()
    ensures var calls := [Add({1}), Clear]; Meaning(Recorded(calls), {}) == {1} && InTurn(calls, {}) == {}
  {
    var calls := [Add({1}), Clear];
    assert calls[..1] == [Add({1})] && [Add({1})][..0] == [];
  }

  lemma DisjointUnion(a: set<int>, b: set<int>)
    requires a !! b
    ensures a + b == a <==> b == {}
  {
    if a + b == a {
      assert b <= a;
      assert b == a * b;
    }
  }

  /** Without clearing there is nothing stale. */
  lemma {:induction false} NothingStale(calls: seq<Call>)
    requires Clear !in calls
    ensures Stale(calls) == {}
    decreases |calls|
  {
    if calls != [] {
      var init := calls[..|calls| - 1];
      assert forall c :: c in init ==> c in calls;
      assert calls[|calls| - 1] in calls;
      NothingStale(init);
    }
  }

  lemma RecordedSnoc(calls: seq<Call>, call: Call)
    ensures Recorded(calls + [call]) == Record(Recorded(calls), call)
  {
    assert (calls + [call])[..|calls|] == calls;
  }

  lemma WithOne(many: ManyEdges, e: ManyEdge, c: ManyChange)
    ensures many.With(e, c).Of(e) == c
    ensures forall x :: x != e ==> many.With(e, c).Of(x) == many.Of(x)
  {
  }

  /** The setters of a mutation record the calls. */
  method CallEdge(m: AccountMutation, e: ManyEdge, call: Call, ghost calls: seq<Call>)
    requires m.many.Of(e) == Recorded(calls)
    modifies m`many
    ensures m.many.Of(e) == Recorded(calls + [call])
    ensures forall x :: x != e ==> m.many.Of(x) == old(m.many.Of(x))
  {
    hide Recorded, AfterAdd, AfterRemove, AfterClear, ManyEdges.With, ManyEdges.Of;
    RecordedSnoc(calls, call);
    ghost var change := Record(m.many.Of(e), call);
    WithOne(m.many, e, change);
    match call {
      case Add(ids) =>
        var list := Elements(ids);
        m.AddIDs(e, list);
      case Remove(ids) =>
        var list := Elements(ids);
        m.RemoveIDs(e, list);
      case Clear =>
        m.ClearEdge(e);
      case ResetLinks =>
        m.ResetLinks(e);
    }
  }

  // ---------------------------------------------------------------- marks and what undoes them

  /** Some call leaves the mark, and none after it undoes that. */
  predicate Since<C>(calls: seq<C>, marks: C -> bool, undoes: C -> bool) {
    exists i :: 0 <= i < |calls| && marks(calls[i]) && NoneAfter(calls, i, undoes)
  }

  predicate NoneAfter<C>(calls: seq<C>, i: nat, undoes: C -> bool) {
    forall j :: i < j < |calls| ==> !undoes(calls[j])
  }

  lemma SinceSnoc<C>(calls: seq<C>, marks: C -> bool, undoes: C -> bool)
    requires calls != []
    ensures var init, last := calls[..|calls| - 1], calls[|calls| - 1];
      Since(calls, marks, undoes) <==> marks(last) || (!undoes(last) && Since(init, marks, undoes))
  {
    var init, last := calls[..|calls| - 1], calls[|calls| - 1];
    if marks(last) {
      assert NoneAfter(calls, |init|, undoes);
    } else if i :| 0 <= i < |init| && marks(init[i]) && NoneAfter(init, i, undoes) {
      assert marks(calls[i]) && (!undoes(last) ==> NoneAfter(calls, i, undoes));
    }
    if i :| 0 <= i < |calls| && marks(calls[i]) && NoneAfter(calls, i, undoes) {
      assert i < |init| ==> marks(init[i]) && NoneAfter(init, i, undoes) && !undoes(calls[|init|]);
    }
  }

  // ---------------------------------------------------------------- to-one edges

  /** SetProxyID, ClearProxyID, ClearProxy, ResetProxy and ResetProxyID, or the same for the parent. */
  datatype KeyCall = SetKey(id: int) | DropKey | CutEdge | ResetEdge | ResetKey

  /** What a mutation holds about a to-one edge: the new key, and whether the edge and the key field are cleared. */
  datatype KeyChange = KeyChange(id: Option<int>, edge: bool, field: bool)

  function KeyOf(m: AccountMutation, e: OneEdge): KeyChange
    reads m
  {
    KeyChange(m.one.Of(e).id, m.one.Of(e).cleared, KeyColumn(e) in m.clearedFields)
  }

  function RecordKey(c: KeyChange, call: KeyCall): KeyChange {
    match call
    case SetKey(id) => c.(id := Some(id))
    case DropKey => c.(id := None, field := true)
    case CutEdge => c.(edge := true, field := true)
    case ResetEdge => c.(id := None, edge := false)
    case ResetKey => c.(id := None, field := false)
  }

  function RecordedKey(calls: seq<KeyCall>): KeyChange {
    if calls == [] then KeyChange(None, false, false)
    else RecordKey(RecordedKey(calls[..|calls| - 1]), calls[|calls| - 1])
  }

  /** The key that an update leaves. */
  function KeyMeaning(c: KeyChange, key: Option<int>): Option<int> {
    if c.id.Some? then c.id else if c.edge || c.field then None else key
  }

  /** The key if each call took effect in turn, a reset undoing all before it. */
  function KeyInTurn(calls: seq<KeyCall>, key: Option<int>): Option<int> {
    if calls == [] then key
    else match calls[|calls| - 1]
         case SetKey(id) => Some(id)
         case DropKey => None
         case CutEdge => None
         case ResetEdge => key
         case ResetKey => key
  }

  /** A key was set, and neither dropped nor reset since. */
  predicate KeyPending(calls: seq<KeyCall>) {
    Since(calls, (c: KeyCall) => c.SetKey?, (c: KeyCall) => c.DropKey? || c.ResetEdge? || c.ResetKey?)
  }

  /** The edge was cleared by its name, and not reset by its name since. */
  predicate EdgePending(calls: seq<KeyCall>) {
    Since(calls, (c: KeyCall) => c.CutEdge?, (c: KeyCall) => c.ResetEdge?)
  }

  /** The key field was cleared, in either way, and not reset since. */
  predicate FieldPending(calls: seq<KeyCall>) {
    Since(calls, (c: KeyCall) => c.DropKey? || c.CutEdge?, (c: KeyCall) => c.ResetKey?)
  }

  lemma PendingSnoc(calls: seq<KeyCall>)
    requires calls != []
    ensures var init, last := calls[..|calls| - 1], calls[|calls| - 1];
      && (KeyPending(calls) <==> last.SetKey? || (last.CutEdge? && KeyPending(init)))
      && (EdgePending(calls) <==> last.CutEdge? || (!last.ResetEdge? && EdgePending(init)))
      && (FieldPending(calls) <==> last.DropKey? || last.CutEdge? || (!last.ResetKey? && FieldPending(init)))
  {
    hide Since;
    SinceSnoc(calls, (c: KeyCall) => c.SetKey?, (c: KeyCall) => c.DropKey? || c.ResetEdge? || c.ResetKey?);
    SinceSnoc(calls, (c: KeyCall) => c.CutEdge?, (c: KeyCall) => c.ResetEdge?);
    SinceSnoc(calls, (c: KeyCall) => c.DropKey? || c.CutEdge?, (c: KeyCall) => c.ResetKey?);
  }

  lemma {:induction false} RecordedIsPending(calls: seq<KeyCall>)
    ensures RecordedKey(calls).id.Some? <==> KeyPending(calls)
    ensures RecordedKey(calls).edge <==> EdgePending(calls)
    ensures RecordedKey(calls).field <==> FieldPending(calls)
    decreases |calls|
  {
    if calls != [] {
      hide KeyPending, EdgePending, FieldPending;
      RecordedIsPending(calls[..|calls| - 1]);
      PendingSnoc(calls);
    }
  }

  /** The last call is one that does not take back what an earlier one has left: clearing the edge by its name leaves a
      key set before; resetting the edge leaves the key field cleared, and resetting the key leaves the edge cleared,
      which matters if there is a key. */
  predicate KeyIsStale(calls: seq<KeyCall>, key: Option<int>) {
    calls != [] &&
    var init, last := calls[..|calls| - 1], calls[|calls| - 1];
    || (last.CutEdge? && KeyPending(init))
    || (last.ResetEdge? && key.Some? && FieldPending(init))
    || (last.ResetKey? && key.Some? && EdgePending(init))
  }

  /** An update leaves the key that its calls leave in turn, exactly unless the key is stale. */
  lemma KeyInTurnExactly(calls: seq<KeyCall>, key: Option<int>)
    ensures KeyMeaning(RecordedKey(calls), key) == KeyInTurn(calls, key) <==> !KeyIsStale(calls, key)
  {
    if calls != [] {
      hide KeyPending, EdgePending, FieldPending;
      RecordedIsPending(calls[..|calls| - 1]);
    }
  }

  /** A reset by the edge's name undoes the calls before it exactly if they leave the key field alone, and a reset of
      the key field exactly if they leave the edge alone. */
  lemma ResetUndoesExactly(calls: seq<KeyCall>)
    ensures (forall key :: KeyMeaning(RecordedKey(calls + [ResetEdge]), key) == key) <==> !FieldPending(calls)
    ensures (forall key :: KeyMeaning(RecordedKey(calls + [ResetKey]), key) == key) <==> !EdgePending(calls)
  {
    hide KeyPending, EdgePending, FieldPending;
    assert (calls + [ResetEdge])[..|calls|] == calls && (calls + [ResetKey])[..|calls|] == calls;
    KeyInTurnExactly(calls + [ResetEdge], Some(0));
    KeyInTurnExactly(calls + [ResetKey], Some(0));
    forall key
      ensures !FieldPending(calls) ==> KeyMeaning(RecordedKey(calls + [ResetEdge]), key) == key
      ensures !EdgePending(calls) ==> KeyMeaning(RecordedKey(calls + [ResetKey]), key) == key
    {
      KeyInTurnExactly(calls + [ResetEdge], key);
      KeyInTurnExactly(calls + [ResetKey], key);
    }
  }

  /** SetProxyID(5) and then ClearProxy leave the key 5. */
  lemma ClearedKeyIsWritten()
    ensures var calls := [SetKey(5), CutEdge];
      KeyMeaning(RecordedKey(calls), None) == Some(5) && KeyInTurn(calls, None) == None
  {
    var calls := [SetKey(5), CutEdge];
    assert calls[..1] == [SetKey(5)] && [SetKey(5)][..0] == [];
  }

  /** ClearProxy and then ResetProxy, or ResetProxyID, still null the key. */
  lemma ResetKeepsClear()
    ensures KeyMeaning(RecordedKey([CutEdge, ResetEdge]), Some(5)) == None
    ensures KeyMeaning(RecordedKey([CutEdge, ResetKey]), Some(5)) == None
  {
    assert [CutEdge, ResetEdge][..1] == [CutEdge] && [CutEdge, ResetKey][..1] == [CutEdge] && [CutEdge][..0] == [];
  }

  /** The setters record the calls. */
  method CallKey(m: AccountMutation, e: OneEdge, call: KeyCall, ghost calls: seq<KeyCall>)
    requires KeyOf(m, e) == RecordedKey(calls)
    modifies m`one, m`clearedFields
    ensures KeyOf(m, e) == RecordedKey(calls + [call])
    ensures forall x :: x != e ==> KeyOf(m, x) == old(KeyOf(m, x))
  {
    assert (calls + [call])[..|calls|] == calls;
    match call {
      case SetKey(id) => m.SetOne(e, id);
      case DropKey => m.DropKey(e);
      case CutEdge => m.ClearOne(e);
      case ResetEdge => m.ResetOne(e);
      case ResetKey => m.ResetKey(e);
    }
  }

  /** And the edges that an update is made of write the key recorded. */
  lemma KeyIsWritten(m: AccountMutation, spec: UpdateSpec, e: OneEdge, calls: seq<KeyCall>, key: Option<int>)
    requires KeyOf(m, e) == RecordedKey(calls)
    requires EdgesMean(spec.clearEdges, spec.addEdges, m.many, m.one, m.clearedFields)
    ensures KeyAfter(key, spec.clearEdges, spec.addEdges, e) == KeyInTurn(calls, key)
            <==> !KeyIsStale(calls, key)
  {
    UpdateMeans(spec.clearEdges, spec.addEdges, m.many, m.one, m.clearedFields, GroupsEdge, {}, e, key);
    KeyInTurnExactly(calls, key);
  }

  // ---------------------------------------------------------------- fields

  /** SetNotes, ClearNotes and ResetNotes, or the same for another field that can be cleared. */
  datatype FieldCall = SetTo(v: Value) | SetNull | Reset

  datatype FieldChange = FieldChange(value: Option<Value>, cleared: bool)

  function FieldOf(m: AccountMutation, c: Column): FieldChange
    reads m
  {
    FieldChange(if c in m.values then Some(m.values[c]) else None, c in m.clearedFields)
  }

  function RecordField(f: FieldChange, call: FieldCall): FieldChange {
    match call
    case SetTo(v) => f.(value := Some(v))
    case SetNull => FieldChange(None, true)
    case Reset => FieldChange(None, false)
  }

  function RecordedField(calls: seq<FieldCall>): FieldChange {
    if calls == [] then FieldChange(None, false)
    else RecordField(RecordedField(calls[..|calls| - 1]), calls[|calls| - 1])
  }

  /** Some call sets the field to null, and none after it resets it. */
  predicate NullPending(calls: seq<FieldCall>) {
    Since(calls, (c: FieldCall) => c.SetNull?, (c: FieldCall) => c.Reset?)
  }

  lemma {:induction false} NullIsRecorded(calls: seq<FieldCall>)
    ensures RecordedField(calls).cleared <==> NullPending(calls)
    decreases |calls|
  {
    if calls != [] {
      hide Since;
      NullIsRecorded(calls[..|calls| - 1]);
      SinceSnoc(calls, (c: FieldCall) => c.SetNull?, (c: FieldCall) => c.Reset?);
    }
  }

  /** An update sets a field to the value of the last call, and to null if a call did so and none reset it since:
      it does both, and leaves the outcome to the library, exactly when a null is followed by a value. */
  lemma FieldEditsExactly(calls: seq<FieldCall>)
    ensures RecordedField(calls).value
            == if calls != [] && calls[|calls| - 1].SetTo? then Some(calls[|calls| - 1].v) else None
    ensures RecordedField(calls).value.Some? && RecordedField(calls).cleared
            <==> calls != [] && calls[|calls| - 1].SetTo? && NullPending(calls)
  {
    NullIsRecorded(calls);
  }

  /** ClearNotes and then SetNotes null the field and set it. */
  lemma ClearedFieldIsSet(v: Value)
    ensures RecordedField([SetNull, SetTo(v)]) == FieldChange(Some(v), true)
  {
    assert [SetNull, SetTo(v)][..1] == [SetNull] && [SetNull][..0] == [];
  }

  /** The setters record the calls. */
  method CallField(m: AccountMutation, c: Column, call: FieldCall, ghost calls: seq<FieldCall>)
    requires FieldOf(m, c) == RecordedField(calls)
    modifies m`values, m`increments, m`clearedFields
    ensures FieldOf(m, c) == RecordedField(calls + [call])
    ensures c !in m.increments && forall x :: x != c ==> FieldOf(m, x) == old(FieldOf(m, x))
  {
    assert (calls + [call])[..|calls|] == calls;
    match call {
      case SetTo(v) => m.SetField(c, v);
      case SetNull => m.ClearField(c);
      case Reset => m.ResetField(c);
    }
  }

  lemma {:induction false} SetsAre(values: map<Column, Value>, columns: seq<Column>, c: Column, v: Value)
    ensures (c, v) in SpecFields(values, columns) <==> c in columns && c in values && values[c] == v
    decreases |columns|
  {
    if columns != [] {
      var init, last := columns[..|columns| - 1], columns[|columns| - 1];
      assert columns == init + [last];
      SetsAre(values, init, c, v);
    }
  }

  lemma {:induction false} NullsAre(cleared: set<Column>, columns: seq<Column>, c: Column)
    ensures c in Nulls(cleared, columns) <==> c in columns && c in cleared && c in NULLABLE
    decreases |columns|
  {
    if columns != [] {
      var init, last := columns[..|columns| - 1], columns[|columns| - 1];
      assert columns == init + [last];
      NullsAre(cleared, init, c);
    }
  }

  /** And the specification of an update holds them. */
  lemma FieldIsWritten(m: AccountMutation, spec: UpdateSpec, c: Column, calls: seq<FieldCall>, v: Value)
    requires FieldOf(m, c) == RecordedField(calls) && Edits(spec, m) && c in UPDATED && c in NULLABLE
    ensures (c, v) in spec.sets <==> calls != [] && calls[|calls| - 1] == SetTo(v)
    ensures c in spec.nulls <==> NullPending(calls)
  {
    hide SpecFields, Nulls, Increases, EdgesMean, RecordedField, NullPending;
    SetsAre(m.values, UPDATED, c, v);
    NullsAre(m.clearedFields, UPDATED, c);
    NullIsRecorded(calls);
    FieldEditsExactly(calls);
  }
}
