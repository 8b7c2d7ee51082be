/** The node that creation returns is the node that reading the inserted row back gives
    (createSpec and sqlSave of backend/ent/account_create.go, with scanValues and assignValues of
    backend/ent/account.go). */
module CreateReadBack {
  import opened Common
  import opened AccountSchema
  import opened RowCodec
  import opened RowCodecLaws
  import opened AccountMutations
  import opened CreateSpecs
  import opened CreateDefaults

  // ---------------------------------------------------------------- the row that a specification describes

  type Marshaller = map<string, string> -> string

  /** Parsing undoes marshalling, and no document is empty text. */
  ghost predicate RoundTrips(marshal: Marshaller, parse: Parser) {
    forall entries :: marshal(entries) != "" && parse(marshal(entries)) == Some(Object(entries))
  }

  function CellOf(v: Value, marshal: Marshaller): Cell {
    match v
    case IntVal(i) => IntCell(i)
    case RealVal(x) => RealCell(x)
    case TextVal(s) => TextCell(s)
    case BoolVal(b) => BoolCell(b)
    case TimeVal(t) => TimeCell(t)
    case JsonVal(entries) => BytesCell(marshal(entries))
  }

  /** The value that a specification sets a field to. */
  function ValueIn(fields: seq<(Column, Value)>, c: Column): Option<Value> {
    if fields == [] then None
    else
      var last := fields[|fields| - 1];
      if last.0 == c then Some(last.1) else ValueIn(fields[..|fields| - 1], c)
  }

  function KeyCell(id: Option<int>): Cell {
    if id.Some? then IntCell(id.value) else Null
  }

  function ScalarCell(v: Option<Value>, marshal: Marshaller): Cell {
    if v.Some? then CellOf(v.value, marshal) else Null
  }

  /** The foreign keys that a specification's edges write. */
  function KeysOf(edges: seq<EdgeSpec>): OneEdges {
    OneEdges(OneChange(KeyBy(edges, ProxyEdge), false), OneChange(KeyBy(edges, ParentEdge), false))
  }

  /** A cell of the inserted row. A to-one edge writes its foreign-key column; what is not described is null. */
  function InsertedCell(fields: seq<(Column, Value)>, keys: OneEdges, id: int, marshal: Marshaller, c: Column): Cell {
    if c == ID then IntCell(id)
    else if c == ProxyID then KeyCell(keys.proxy.id)
    else if c == ParentAccountID then KeyCell(keys.parent.id)
    else ScalarCell(ValueIn(fields, c), marshal)
  }

  function InsertedRow(fields: seq<(Column, Value)>, keys: OneEdges, id: int, marshal: Marshaller): Column -> Cell {
    (c: Column) => InsertedCell(fields, keys, id, marshal, c)
  }

  // ---------------------------------------------------------------- field by field

  /** The Go type of a field's value. */
  predicate WellTyped(c: Column, v: Value) {
    match ScanKind(c)
    case IntKind => v.IntVal?
    case RealKind => v.RealVal?
    case TextKind => v.TextVal?
    case BoolKind => v.BoolVal?
    case TimeKind => v.TimeVal?
    case BytesKind => v.JsonVal?
    case UnknownKind => false
  }

  ghost predicate Typed(values: map<Column, Value>) {
    forall c :: c in values ==> WellTyped(c, values[c])
  }

  lemma {:induction false} SpecFieldsAre(values: map<Column, Value>, columns: seq<Column>, c: Column)
    ensures ValueIn(SpecFields(values, columns), c) == if c in columns && c in values then Some(values[c]) else None
    decreases |columns|
  {
    if columns != [] {
      var init, last := columns[..|columns| - 1], columns[|columns| - 1];
      assert columns == init + [last];
      SpecFieldsAre(values, init, c);
      var before := SpecFields(values, init);
      if last in values {
        assert SpecFields(values, columns) == before + [(last, values[last])];
        assert (before + [(last, values[last])])[..|before|] == before;
      } else {
        assert SpecFields(values, columns) == before;
      }
    }
  }

  lemma ScalarIn(values: map<Column, Value>, c: Column)
    requires IsScalar(c)
    ensures ValueIn(Scalars(values), c) == if c in values then Some(values[c]) else None
  {
    SpecFieldsAre(values, CREATED, c);
    ScalarsAreCreated(c);
  }

  lemma CellDecodes(c: Column, v: Value, marshal: Marshaller, parse: Parser)
    requires !c.Other? && WellTyped(c, v) && RoundTrips(marshal, parse)
    ensures Decoded(c, CellOf(v, marshal), parse) == Is(v)
  {
    SwitchesAgree(c);
    if v.JsonVal? {
      assert marshal(v.entries) != "" && parse(marshal(v.entries)) == Some(Object(v.entries));
      assert map[] + v.entries == v.entries;
    }
  }

  /** The node's fields once the row has its id. */
  function SavedField(values: map<Column, Value>, one: OneEdges, id: int, c: Column): Field {
    if c == ID then Is(IntVal(id)) else ExpectedField(values, one, c)
  }

  ghost predicate IsSaved(fields: map<Column, Field>, values: map<Column, Value>, one: OneEdges, id: int) {
    forall c: Column :: !c.Other? ==> c in fields && fields[c] == SavedField(values, one, id, c)
  }

  lemma KeyDecodes(c: Column, key: Option<int>, parse: Parser)
    requires c == ProxyID || c == ParentAccountID
    ensures Decoded(c, KeyCell(key), parse) == KeyField(key)
  {
    if key.None? {
      NullDecodes(c, parse);
    }
  }

  lemma ScalarDecodes(values: map<Column, Value>, marshal: Marshaller, parse: Parser, c: Column)
    requires IsScalar(c) && Typed(values) && RoundTrips(marshal, parse)
    ensures Decoded(c, ScalarCell(ValueIn(Scalars(values), c), marshal), parse) == NodeField(values, c)
  {
    ScalarIn(values, c);
    if c in values {
      CellDecodes(c, values[c], marshal, parse);
    } else {
      NullDecodes(c, parse);
    }
  }

  lemma InsertedScalar(fields: seq<(Column, Value)>, keys: OneEdges, id: int, marshal: Marshaller, c: Column)
    requires IsScalar(c)
    ensures InsertedCell(fields, keys, id, marshal, c) == ScalarCell(ValueIn(fields, c), marshal)
  {
  }

  lemma SavedScalar(values: map<Column, Value>, one: OneEdges, id: int, c: Column)
    requires IsScalar(c)
    ensures SavedField(values, one, id, c) == NodeField(values, c)
  {
  }

  ghost predicate ReadsBack(fields: seq<(Column, Value)>, values: map<Column, Value>, keys: OneEdges, id: int,
                            marshal: Marshaller, parse: Parser, c: Column)
    requires !c.Other?
  {
    Decoded(c, InsertedCell(fields, keys, id, marshal, c), parse) == SavedField(values, keys, id, c)
  }

  lemma ScalarReadsBack(fields: seq<(Column, Value)>, values: map<Column, Value>, keys: OneEdges, id: int,
                        marshal: Marshaller, parse: Parser, c: Column)
    requires IsScalar(c) && Typed(values) && RoundTrips(marshal, parse) && fields == Scalars(values)
    ensures ReadsBack(fields, values, keys, id, marshal, parse, c)
  {
    InsertedScalar(fields, keys, id, marshal, c);
    SavedScalar(values, keys, id, c);
    ScalarDecodes(values, marshal, parse, c);
  }

  lemma KeyReadsBack(fields: seq<(Column, Value)>, values: map<Column, Value>, keys: OneEdges, id: int,
                     marshal: Marshaller, parse: Parser, e: OneEdge)
    ensures ReadsBack(fields, values, keys, id, marshal, parse, KeyColumn(e))
  {
    KeyDecodes(KeyColumn(e), keys.Of(e).id, parse);
  }

  lemma IDDecodes(id: int, parse: Parser)
    ensures Decoded(ID, IntCell(id), parse) == Is(IntVal(id))
  {
    assert ScanKind(ID) == IntKind && Fill(IntKind, IntCell(id)) == Some(NullInt(true, id));
    assert Put(ID, Zero(ID), NullInt(true, id), parse) == Ok(Is(IntVal(id)));
  }

  lemma IDReadsBack(fields: seq<(Column, Value)>, values: map<Column, Value>, keys: OneEdges, id: int,
                    marshal: Marshaller, parse: Parser)
    ensures ReadsBack(fields, values, keys, id, marshal, parse, ID)
  {
    IDDecodes(id, parse);
  }

  /** Every column of the inserted row decodes to the field of the node returned. */
  lemma FieldReadsBack(fields: seq<(Column, Value)>, values: map<Column, Value>, keys: OneEdges, id: int,
                       marshal: Marshaller, parse: Parser, c: Column)
    requires !c.Other? && Typed(values) && RoundTrips(marshal, parse) && fields == Scalars(values)
    ensures ReadsBack(fields, values, keys, id, marshal, parse, c)
  {
    if IsScalar(c) {
      ScalarReadsBack(fields, values, keys, id, marshal, parse, c);
    } else if c == ProxyID {
      KeyReadsBack(fields, values, keys, id, marshal, parse, ProxyEdge);
    } else if c == ParentAccountID {
      KeyReadsBack(fields, values, keys, id, marshal, parse, ParentEdge);
    } else {
      IDReadsBack(fields, values, keys, id, marshal, parse);
    }
  }

  // ---------------------------------------------------------------- the whole node

  lemma ScalarParses(values: map<Column, Value>, marshal: Marshaller, parse: Parser, c: Column, h: Holder)
    requires IsScalar(c) && Typed(values) && RoundTrips(marshal, parse)
    requires Fill(ScanKind(c), ScalarCell(ValueIn(Scalars(values), c), marshal)) == Some(h)
    ensures Parses(c, h, parse)
  {
    ScalarIn(values, c);
    if c in values && values[c].JsonVal? {
      assert parse(marshal(values[c].entries)) == Some(Object(values[c].entries));
    }
  }

  lemma OthersParse(c: Column, h: Holder, parse: Parser)
    requires !IsScalar(c)
    ensures Parses(c, h, parse)
  {
  }

  lemma InsertedRowParses(fields: seq<(Column, Value)>, values: map<Column, Value>, keys: OneEdges, id: int,
                          marshal: Marshaller, parse: Parser, c: Column, h: Holder)
    requires fields == Scalars(values) && Typed(values) && RoundTrips(marshal, parse)
    requires Fill(ScanKind(c), InsertedCell(fields, keys, id, marshal, c)) == Some(h)
    ensures Parses(c, h, parse)
  {
    if IsScalar(c) {
      InsertedScalar(fields, keys, id, marshal, c);
      ScalarParses(values, marshal, parse, c, h);
    } else {
      OthersParse(c, h, parse);
    }
  }

  lemma SavedByKeys(values: map<Column, Value>, one: OneEdges, edges: seq<EdgeSpec>, id: int, c: Column)
    requires forall e :: KeyBy(edges, e) == one.Of(e).id
    ensures SavedField(values, KeysOf(edges), id, c) == SavedField(values, one, id, c)
  {
    assert KeyBy(edges, ProxyEdge) == one.Of(ProxyEdge).id && KeyBy(edges, ParentEdge) == one.Of(ParentEdge).id;
  }

  lemma AllInsertedParse(fields: seq<(Column, Value)>, values: map<Column, Value>, keys: OneEdges, id: int,
                         marshal: Marshaller, parse: Parser, columns: seq<Column>, holders: seq<Holder>)
    requires fields == Scalars(values) && Typed(values) && RoundTrips(marshal, parse)
    requires HoldsRow(columns, holders, InsertedRow(fields, keys, id, marshal))
    ensures AllParse(columns, holders, parse)
  {
    forall i | 0 <= i < |columns|
      ensures Parses(columns[i], holders[i], parse)
    {
      InsertedRowParses(fields, values, keys, id, marshal, parse, columns[i], holders[i]);
    }
  }

  /** Reading the inserted row back, through any list of columns, gives the fields of the node returned. */
  lemma CreatedReadsBack(fields: seq<(Column, Value)>, values: map<Column, Value>, one: OneEdges, edges: seq<EdgeSpec>,
                         id: int, marshal: Marshaller, parse: Parser,
                         columns: seq<Column>, holders: seq<Holder>, st: State, c: Column)
    requires fields == Scalars(values) && Typed(values) && RoundTrips(marshal, parse) && c in columns && !c.Other?
    requires forall e :: KeyBy(edges, e) == one.Of(e).id
    requires HoldsRow(columns, holders, InsertedRow(fields, KeysOf(edges), id, marshal))
    requires Complete(st.fields) && forall x: Column :: !x.Other? ==> st.fields[x] == Zero(x)
    ensures var r := Run(st, columns, holders, parse);
      r.err.None? && r.st.fields[c] == SavedField(values, one, id, c)
  {
    var keys := KeysOf(edges);
    AllInsertedParse(fields, values, keys, id, marshal, parse, columns, holders);
    RowDecodes(columns, holders, InsertedRow(fields, keys, id, marshal), st, parse, c);
    FieldReadsBack(fields, values, keys, id, marshal, parse, c);
    SavedByKeys(values, one, edges, id, c);
  }

  lemma TypedFills(c: Column, v: Value, marshal: Marshaller)
    requires WellTyped(c, v)
    ensures Fill(ScanKind(c), CellOf(v, marshal)).Some?
  {
  }

  lemma ScalarFills(values: map<Column, Value>, marshal: Marshaller, c: Column)
    requires IsScalar(c) && Typed(values)
    ensures Fill(ScanKind(c), ScalarCell(ValueIn(Scalars(values), c), marshal)).Some?
  {
    ScalarIn(values, c);
    if c in values {
      TypedFills(c, values[c], marshal);
    }
  }

  lemma IntFills(i: int)
    ensures Fill(IntKind, IntCell(i)).Some?
  {
  }

  lemma KeyFills(key: Option<int>)
    ensures Fill(IntKind, KeyCell(key)).Some?
  {
  }

  /** The driver can hold the inserted row in the holders of any columns. */
  lemma InsertedRowFills(fields: seq<(Column, Value)>, values: map<Column, Value>, keys: OneEdges, id: int,
                         marshal: Marshaller, c: Column)
    requires fields == Scalars(values) && Typed(values) && !c.Other?
    ensures Fill(ScanKind(c), InsertedCell(fields, keys, id, marshal, c)).Some?
  {
    if IsScalar(c) {
      InsertedScalar(fields, keys, id, marshal, c);
      ScalarFills(values, marshal, c);
    } else {
      IntFills(id);
      KeyFills(keys.proxy.id);
      KeyFills(keys.parent.id);
    }
  }

  // ---------------------------------------------------------------- what may stay unset

  /** The fields that check requires are exactly those that are not stored as pointers. */
  lemma RequiredIsNotNullable(c: Column)
    requires IsScalar(c)
    ensures SlotOf(c).Pointer? <==> Required(c) !in CONDITIONS
  {
    if SlotOf(c).Pointer? {
      forall i | 0 <= i < |CONDITIONS|
        ensures CONDITIONS[i] != Required(c)
      {
        RequiredSlots(i);
      }
    } else {
      RequiredIndex(c);
    }
  }

  lemma RequiredSlots(i: nat)
    requires i < |CONDITIONS|
    ensures CONDITIONS[i].Required? ==> !SlotOf(CONDITIONS[i].c).Pointer?
  {
  }

  lemma RequiredIndex(c: Column)
    requires IsScalar(c) && !SlotOf(c).Pointer?
    ensures Required(c) in CONDITIONS
  {
    if c == Name {
      assert CONDITIONS[2] == Required(c);
    } else if c == Platform {
      assert CONDITIONS[4] == Required(c);
    } else if c == Type {
      assert CONDITIONS[6] == Required(c);
    } else {
      assert c in DEFAULTED;
      DefaultedAreRequired(c);
    }
  }

  lemma RequiredAreSet(values: map<Column, Value>, valid: Validator)
    requires Acceptable(values, valid)
    ensures forall c :: Required(c) in CONDITIONS ==> c in values
  {
    forall c | Required(c) in CONDITIONS
      ensures c in values
    {
      assert Meets(values, Required(c), valid);
    }
  }

  /** Of an account that passes check, every field left unset decodes to nil; none to a zero that was never set. */
  lemma UnsetDecodesToNil(values: map<Column, Value>, valid: Validator, c: Column)
    requires Acceptable(values, valid) && IsScalar(c) && c !in values
    ensures NodeField(values, c) == Nil
  {
    RequiredIsNotNullable(c);
    RequiredAreSet(values, valid);
  }

  // ---------------------------------------------------------------- saving one account

  /** What inserting comes to is up to the database: a failure, or an id. */
  method CreateNode(spec: CreateSpec) returns (ok: bool)
    modifies spec`id
    ensures ok ==> spec.id.Some?
    ensures !ok ==> spec.id == old(spec.id)
  {
    ok := *;
    if ok {
      var id: int := *;
      spec.id := Some(id);
    }
  }

  lemma NodeIsSaved(fields: map<Column, Field>, values: map<Column, Value>, one: OneEdges, id: int)
    requires NodeHolds(fields, values, one)
    ensures IsSaved(fields[ID := Is(IntVal(id))], values, one, id)
  {
  }

  lemma UnmetIsDemanded(given: map<Column, Value>, values: map<Column, Value>, rt: Runtime, k: Condition,
                        valid: Validator)
    requires CanDefault(given, rt) && values == Defaulted(given, DEFAULTED, rt).0 && FirstUnmet(values, k, valid)
    ensures k.Required? ==> k.c in {Name, Platform, Type} && k.c !in given
  {
    hide Defaulted, CONDITIONS;
    if k.Required? {
      MissingIsDemanded(given, rt, k.c);
    }
  }

  datatype SaveError = Uninitialized(c: Column) | Invalid(k: Condition) | Rejected

  /** Save of a builder without hooks: defaults, checks, insertion. The node has the fields that reading its row
      back would give; on any error the mutation is not done. */
  method Save(m: AccountMutation, rt: Runtime, valid: Validator)
    returns (res: Result<Entity, SaveError>, ghost spec: CreateSpec?)
    modifies m
    ensures (m.values, if res.Err? && res.error.Uninitialized? then Some(res.error.c) else None)
            == Defaulted(old(m.values), DEFAULTED, rt)
    ensures res.Err? && res.error.Uninitialized? ==> !CanDefault(old(m.values), rt)
    ensures res.Err? && res.error.Invalid? ==>
      && CanDefault(old(m.values), rt) && FirstUnmet(m.values, res.error.k, valid)
      && (res.error.k.Required? ==> res.error.k.c in {Name, Platform, Type} && res.error.k.c !in old(m.values))
    ensures res.Ok? || (res.Err? && res.error.Rejected?) <==>
      Given(old(m.values), rt) && Validates(m.values, valid)
    ensures CanDefault(old(m.values), rt) ==> DefaultsSet(old(m.values), m.values, rt)
    ensures res.Err? ==> m.done == old(m.done) && m.idOf == old(m.idOf)
    ensures res.Ok? ==> m.done && m.idOf == res.value && fresh(res.value) && spec != null && spec.id.Some?
    ensures res.Ok? ==> spec.fields == Scalars(m.values) && forall e :: KeyBy(spec.edges, e) == m.one.Of(e).id
    ensures res.Ok? ==> forall e :: AddedBy(spec.edges, e) == m.many.Of(e).added
    ensures res.Ok? ==> IsSaved(res.value.fields, m.values, m.one, spec.id.value) && m.ID() == spec.id
  {
    hide Acceptable, Defaulted, HasDefault, Validates, CONDITIONS, FirstUnmet, IsSaved, CanDefault,
      DefaultsSet, Given;
    spec := null;
    DefaultsExactly(m.values, rt);
    ghost var given := m.values;
    var unset := SetDefaults(m, rt);
    GivenIsEnough(given, rt, valid);
    if unset.Some? {
      IgnoredDefaultsAreCaught(given, rt, valid);
      return Err(Uninitialized(unset.value)), spec;
    }
    var unmet := Check(m, valid);
    if unmet.Some? {
      UnmetIsDemanded(given, m.values, rt, unmet.value, valid);
      return Err(Invalid(unmet.value)), spec;
    }
    var node, described := MakeSpec(m);
    spec := described;
    var ok := CreateNode(described);
    if !ok {
      return Err(Rejected), spec;
    }
    NodeIsSaved(node.fields, m.values, m.one, described.id.value);
    node.fields := node.fields[ID := Is(IntVal(described.id.value))];
    m.idOf, m.done := node, true;
    IDIs(m);
    return Ok(node), spec;
  }
}
