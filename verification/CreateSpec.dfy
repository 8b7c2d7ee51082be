/** Creating one account: default values, checks, and the specification of the row to insert
    (defaults, check and createSpec of backend/ent/account_create.go). */
module CreateSpecs {
  import opened Common
  import opened AccountSchema
  import opened RowCodec
  import opened AccountMutations

  // ---------------------------------------------------------------- defaults

  /** The fields with a default, in the order they are looked at. */
  const DEFAULTED: seq<Column> := [
    CreatedAt, UpdatedAt, Credentials, Extra, Concurrency, Priority, RateMultiplier, Status,
    AutoPauseOnExpired, Schedulable, QuotaDimension]

  /** Defaults that are functions, set when the runtime package is imported. */
  const FROM_RUNTIME: seq<Column> := [CreatedAt, UpdatedAt, Credentials, Extra]

  /** The package-level defaults: a value for each field, and the functions that are still nil. */
  datatype Runtime = Runtime(value: Column -> Value, missing: set<Column>)

  predicate Uninitialized(rt: Runtime, c: Column) {
    c in FROM_RUNTIME && c in rt.missing
  }

  /** The mutation's fields after looking at columns, and the column at which that failed. */
  function Defaulted(values: map<Column, Value>, columns: seq<Column>, rt: Runtime)
    : (map<Column, Value>, Option<Column>)
    decreases |columns|
  {
    if columns == [] then (values, None)
    else if columns[0] in values then Defaulted(values, columns[1..], rt)
    else if Uninitialized(rt, columns[0]) then (values, Some(columns[0]))
    else Defaulted(values[columns[0] := rt.value(columns[0])], columns[1..], rt)
  }

  /** Sets the defaults of unset fields, up to the first default that is not initialized. */
  method SetDefaults(m: AccountMutation, rt: Runtime) returns (err: Option<Column>)
    modifies m`values, m`increments
    ensures (m.values, err) == Defaulted(old(m.values), DEFAULTED, rt)
  {
    var i := 0;
    while i < |DEFAULTED|
      invariant 0 <= i <= |DEFAULTED|
      invariant Defaulted(old(m.values), DEFAULTED, rt) == Defaulted(m.values, DEFAULTED[i..], rt)
    {
      var c := DEFAULTED[i];
      DropHead(DEFAULTED, i);
      if c !in m.values {
        if Uninitialized(rt, c) {
          return Some(c);
        }
        m.SetField(c, rt.value(c));
      }
      i := i + 1;
    }
    return None;
  }

  lemma DropHead<T>(s: seq<T>, i: nat)
    requires i < |s|
    ensures s[i..][0] == s[i] && s[i..][1..] == s[i + 1..] && |s[i..]| > 0
  {
  }

  /** What defaults do: only unset fields change, each to its default; a failure names an unset field whose
      default is missing, and leaves it unset. */
  lemma {:induction false} DefaultsFillIn(values: map<Column, Value>, columns: seq<Column>, rt: Runtime)
    ensures var (after, err) := Defaulted(values, columns, rt);
      && (forall c :: c in values ==> c in after && after[c] == values[c])
      && (forall c :: c in after && c !in values ==> c in columns && after[c] == rt.value(c))
      && (err.None? ==> forall c :: c in columns ==> c in after)
      && (err.Some? ==> err.value in columns && err.value !in after && Uninitialized(rt, err.value))
    decreases |columns|
  {
    if columns != [] {
      var c := columns[0];
      assert forall x :: x in columns <==> x == c || x in columns[1..];
      if c in values {
        DefaultsFillIn(values, columns[1..], rt);
      } else if !Uninitialized(rt, c) {
        DefaultsFillIn(values[c := rt.value(c)], columns[1..], rt);
      }
    }
  }

  // ---------------------------------------------------------------- checks

  /** One condition of check, in order. */
  datatype Condition = Required(c: Column) | Validated(c: Column)

  const CONDITIONS: seq<Condition> := [
    Required(CreatedAt), Required(UpdatedAt), Required(Name), Validated(Name), Required(Platform), Validated(Platform),
    Required(Type), Validated(Type), Required(Credentials), Required(Extra), Required(Concurrency), Required(Priority),
    Required(RateMultiplier), Required(Status), Validated(Status), Required(AutoPauseOnExpired), Required(Schedulable),
    Validated(SessionWindowStatus), Required(QuotaDimension), Validated(QuotaDimension)]

  type Validator = (Column, Value) -> bool

  predicate Meets(values: map<Column, Value>, k: Condition, valid: Validator) {
    match k
    case Required(c) => c in values
    case Validated(c) => c in values ==> valid(c, values[c])
  }

  predicate Acceptable(values: map<Column, Value>, valid: Validator) {
    forall k :: k in CONDITIONS ==> Meets(values, k, valid)
  }

  /** k is the first condition not met. */
  ghost predicate FirstUnmet(values: map<Column, Value>, k: Condition, valid: Validator) {
    exists i :: 0 <= i < |CONDITIONS| && CONDITIONS[i] == k && !Meets(values, k, valid) && MeetsUpTo(values, i, valid)
  }

  ghost predicate MeetsUpTo(values: map<Column, Value>, i: nat, valid: Validator)
    requires i <= |CONDITIONS|
  {
    forall j :: 0 <= j < i ==> Meets(values, CONDITIONS[j], valid)
  }

  /** Reports the first condition that is not met. */
  method Check(m: AccountMutation, valid: Validator) returns (err: Option<Condition>)
    ensures err.None? <==> Acceptable(m.values, valid)
    ensures err.Some? ==> FirstUnmet(m.values, err.value, valid)
  {
    var i := 0;
    while i < |CONDITIONS|
      invariant 0 <= i <= |CONDITIONS|
      invariant MeetsUpTo(m.values, i, valid)
    {
      if !Meets(m.values, CONDITIONS[i], valid) {
        assert CONDITIONS[i] in CONDITIONS;
        return Some(CONDITIONS[i]);
      }
      i := i + 1;
    }
    return None;
  }

  lemma DefaultedAreRequired(c: Column)
    requires c in DEFAULTED
    ensures Required(c) in CONDITIONS
  {
    assert CONDITIONS[0] == Required(CreatedAt) && CONDITIONS[1] == Required(UpdatedAt);
    assert CONDITIONS[8] == Required(Credentials) && CONDITIONS[9] == Required(Extra);
    assert CONDITIONS[10] == Required(Concurrency) && CONDITIONS[11] == Required(Priority);
    assert CONDITIONS[12] == Required(RateMultiplier) && CONDITIONS[13] == Required(Status);
    assert CONDITIONS[15] == Required(AutoPauseOnExpired) && CONDITIONS[16] == Required(Schedulable);
    assert CONDITIONS[18] == Required(QuotaDimension);
  }

  /** A default that fails leaves a field unset that check requires. So bulk creation, which ignores the error of
      the defaults and goes on to check, accepts exactly what single creation accepts. */
  lemma IgnoredDefaultsAreCaught(values: map<Column, Value>, rt: Runtime, valid: Validator)
    ensures var (after, err) := Defaulted(values, DEFAULTED, rt);
      && (err.Some? ==> !Acceptable(after, valid))
      && (err.None? && Acceptable(after, valid) <==> Acceptable(after, valid))
  {
    var (after, err) := Defaulted(values, DEFAULTED, rt);
    DefaultsFillIn(values, DEFAULTED, rt);
    if err.Some? {
      DefaultedAreRequired(err.value);
      assert !Meets(after, Required(err.value), valid);
    }
  }

  /** Running the defaults again changes nothing. */
  lemma DefaultsOnce(values: map<Column, Value>, rt: Runtime)
    ensures var (after, err) := Defaulted(values, DEFAULTED, rt);
      Defaulted(after, DEFAULTED, rt) == (after, err)
  {
    Settled(values, DEFAULTED, rt);
  }

  lemma {:induction false} Settled(values: map<Column, Value>, columns: seq<Column>, rt: Runtime)
    ensures var (after, err) := Defaulted(values, columns, rt);
      Defaulted(after, columns, rt) == (after, err)
    decreases |columns|
  {
    if columns != [] {
      var c := columns[0];
      if c in values {
        Settled(values, columns[1..], rt);
        DefaultsFillIn(values, columns[1..], rt);
      } else if !Uninitialized(rt, c) {
        Settled(values[c := rt.value(c)], columns[1..], rt);
        DefaultsFillIn(values[c := rt.value(c)], columns[1..], rt);
      }
    }
  }

  // ---------------------------------------------------------------- the row to insert

  /** The scalar fields in the order of createSpec. */
  const CREATED: seq<Column> := [
    CreatedAt, UpdatedAt, DeletedAt, Name, Notes, Platform, Type, Credentials, Extra, ProxyFallbackOriginID,
    Concurrency, LoadFactor, Priority, RateMultiplier, Status, ErrorMessage, LastUsedAt, ExpiresAt,
    AutoPauseOnExpired, Schedulable, RateLimitedAt, RateLimitResetAt, OverloadUntil, TempUnschedulableUntil,
    TempUnschedulableReason, SessionWindowStart, SessionWindowEnd, SessionWindowStatus, QuotaDimension]

  datatype Target = ManyTo(many: ManyEdge) | OneTo(one: OneEdge)

  datatype EdgeSpec = EdgeSpec(target: Target, nodes: seq<int>)

  class CreateSpec {
    var fields: seq<(Column, Value)>
    var edges: seq<EdgeSpec>
    /** Set by the insertion. */
    var id: Option<int>

    constructor ()
      ensures fields == [] && edges == [] && id == None
    {
      fields, edges, id := [], [], None;
    }
  }

  /** The ids that the edges add to a to-many edge. */
  function AddedBy(edges: seq<EdgeSpec>, e: ManyEdge): set<int> {
    if edges == [] then {}
    else AddedBy(edges[..|edges| - 1], e)
         + if edges[|edges| - 1].target == ManyTo(e) then SetOf(edges[|edges| - 1].nodes) else {}
  }

  /** The foreign key that the edges write for a to-one edge. */
  function KeyBy(edges: seq<EdgeSpec>, e: OneEdge): Option<int> {
    if edges == [] then None
    else
      var last := edges[|edges| - 1];
      if last.target == OneTo(e) && last.nodes != [] then Some(last.nodes[0]) else KeyBy(edges[..|edges| - 1], e)
  }

  lemma EdgesSnoc(edges: seq<EdgeSpec>, x: EdgeSpec)
    ensures forall e ::
      AddedBy(edges + [x], e) == AddedBy(edges, e) + if x.target == ManyTo(e) then SetOf(x.nodes) else {}
    ensures forall e ::
      KeyBy(edges + [x], e) == if x.target == OneTo(e) && x.nodes != [] then Some(x.nodes[0]) else KeyBy(edges, e)
  {
    assert (edges + [x])[..|edges|] == edges;
  }

  /** The set fields among columns, in their order. */
  function SpecFields(values: map<Column, Value>, columns: seq<Column>): seq<(Column, Value)> {
    if columns == [] then []
    else SpecFields(values, columns[..|columns| - 1])
         + var c := columns[|columns| - 1]; if c in values then [(c, values[c])] else []
  }

  /** The node's field for a scalar column. */
  function NodeField(values: map<Column, Value>, c: Column): Field {
    if c in values then Is(values[c]) else Zero(c)
  }

  function KeyField(id: Option<int>): Field {
    if id.Some? then Is(IntVal(id.value)) else Nil
  }

  predicate IsScalar(c: Column) {
    !c.Other? && c != ID && c != ProxyID && c != ParentAccountID
  }

  lemma ScalarsAreCreated(c: Column)
    requires IsScalar(c)
    ensures c in CREATED
  {
    var at := CreatedAtIndex(c);
    assert CREATED[at] == c;
  }

  /** The position of a scalar column in createSpec. */
  function CreatedAtIndex(c: Column): nat
    requires IsScalar(c)
  {
    match c
    case CreatedAt => 0 case UpdatedAt => 1 case DeletedAt => 2 case Name => 3 case Notes => 4 case Platform => 5
    case Type => 6 case Credentials => 7 case Extra => 8 case ProxyFallbackOriginID => 9 case Concurrency => 10
    case LoadFactor => 11 case Priority => 12 case RateMultiplier => 13 case Status => 14 case ErrorMessage => 15
    case LastUsedAt => 16 case ExpiresAt => 17 case AutoPauseOnExpired => 18 case Schedulable => 19
    case RateLimitedAt => 20 case RateLimitResetAt => 21 case OverloadUntil => 22 case TempUnschedulableUntil => 23
    case TempUnschedulableReason => 24 case SessionWindowStart => 25 case SessionWindowEnd => 26
    case SessionWindowStatus => 27 case QuotaDimension => 28
  }

  lemma CreatedAreScalar(i: nat)
    requires i < |CREATED|
    ensures IsScalar(CREATED[i])
  {
  }

  /** The node's field for any column: the scalars set, the keys of the to-one edges, zero otherwise. */
  function ExpectedField(values: map<Column, Value>, one: OneEdges, c: Column): Field {
    if c == ID then Zero(ID)
    else if c == ProxyID then KeyField(one.proxy.id)
    else if c == ParentAccountID then KeyField(one.parent.id)
    else NodeField(values, c)
  }

  ghost predicate NodeHolds(fields: map<Column, Field>, values: map<Column, Value>, one: OneEdges) {
    forall c: Column :: !c.Other? ==> c in fields && fields[c] == ExpectedField(values, one, c)
  }

  function Scalars(values: map<Column, Value>): seq<(Column, Value)> {
    SpecFields(values, CREATED)
  }

  method AddMany(m: AccountMutation, spec: CreateSpec, e: ManyEdge)
    modifies spec`edges
    ensures forall x ::
      AddedBy(spec.edges, x) == AddedBy(old(spec.edges), x) + if x == e then m.many.Of(e).added else {}
    ensures forall x :: KeyBy(spec.edges, x) == KeyBy(old(spec.edges), x)
  {
    var nodes := Elements(m.many.Of(e).added);
    if |nodes| > 0 {
      EdgesSnoc(spec.edges, EdgeSpec(ManyTo(e), nodes));
      spec.edges := spec.edges + [EdgeSpec(ManyTo(e), nodes)];
    } else {
      assert m.many.Of(e).added == {};
    }
  }

  function WithKey(fields: map<Column, Field>, one: OneEdges, e: OneEdge): map<Column, Field> {
    if one.Of(e).id.Some? then fields[KeyColumn(e) := KeyField(one.Of(e).id)] else fields
  }

  method AddOne(m: AccountMutation, spec: CreateSpec, node: Entity, e: OneEdge)
    requires KeyColumn(e) in node.fields
    modifies spec`edges, node`fields
    ensures forall x :: AddedBy(spec.edges, x) == AddedBy(old(spec.edges), x)
    ensures forall x ::
      KeyBy(spec.edges, x) == if x == e && m.one.Of(e).id.Some? then m.one.Of(e).id else KeyBy(old(spec.edges), x)
    ensures node.fields == WithKey(old(node.fields), m.one, e)
  {
    if m.one.Of(e).id.Some? {
      var id := m.one.Of(e).id.value;
      EdgesSnoc(spec.edges, EdgeSpec(OneTo(e), [id]));
      node.fields := node.fields[KeyColumn(e) := Is(IntVal(id))];
      spec.edges := spec.edges + [EdgeSpec(OneTo(e), [id])];
    }
  }

  method SetScalars(m: AccountMutation, spec: CreateSpec, node: Entity)
    requires Complete(node.fields) && spec.fields == []
    requires forall c: Column :: !c.Other? ==> node.fields[c] == Zero(c)
    modifies spec`fields, node`fields
    ensures spec.fields == Scalars(m.values) && Complete(node.fields)
    ensures forall c: Column :: !c.Other? ==> node.fields[c] == if IsScalar(c) then NodeField(m.values, c) else Zero(c)
  {
    ghost var done: seq<Column> := [];
    var i := 0;
    while i < |CREATED|
      invariant 0 <= i <= |CREATED| && done == CREATED[..i]
      invariant spec.fields == SpecFields(m.values, done) && Complete(node.fields)
      invariant forall c: Column :: c in done ==> IsScalar(c)
      invariant forall c: Column :: !c.Other? ==>
        node.fields[c] == if c in done then NodeField(m.values, c) else Zero(c)
    {
      var c := CREATED[i];
      CreatedAreScalar(i);
      TakeSnoc(CREATED, i);
      assert (done + [c])[..|done|] == done;
      if c in m.values {
        spec.fields := spec.fields + [(c, m.values[c])];
        node.fields := node.fields[c := Is(m.values[c])];
      }
      done := done + [c];
      i := i + 1;
    }
    assert done == CREATED;
    forall c: Column | IsScalar(c)
      ensures c in done
    {
      ScalarsAreCreated(c);
    }
  }

  method AddEdges(m: AccountMutation, spec: CreateSpec, node: Entity)
    requires Complete(node.fields) && spec.edges == []
    modifies spec`edges, node`fields
    ensures forall e :: AddedBy(spec.edges, e) == m.many.Of(e).added
    ensures forall e :: KeyBy(spec.edges, e) == m.one.Of(e).id
    ensures node.fields == WithKey(WithKey(old(node.fields), m.one, ProxyEdge), m.one, ParentEdge)
  {
    AddMany(m, spec, GroupsEdge);
    AddOne(m, spec, node, ProxyEdge);
    AddOne(m, spec, node, ParentEdge);
    AddMany(m, spec, ChildrenEdge);
    AddMany(m, spec, UsageLogsEdge);
  }

  lemma KeysComplete(fields: map<Column, Field>, values: map<Column, Value>, one: OneEdges)
    requires Complete(fields)
    requires forall c: Column :: !c.Other? ==> fields[c] == if IsScalar(c) then NodeField(values, c) else Zero(c)
    ensures NodeHolds(WithKey(WithKey(fields, one, ProxyEdge), one, ParentEdge), values, one)
  {
  }

  /** The node and the specification of its row. */
  method MakeSpec(m: AccountMutation) returns (node: Entity, spec: CreateSpec)
    ensures fresh(node) && fresh(spec) && spec.id == None
    ensures spec.fields == Scalars(m.values)
    ensures forall e :: AddedBy(spec.edges, e) == m.many.Of(e).added
    ensures forall e :: KeyBy(spec.edges, e) == m.one.Of(e).id
    ensures NodeHolds(node.fields, m.values, m.one)
  {
    node := new Entity();
    spec := new CreateSpec();
    SetScalars(m, spec, node);
    KeysComplete(node.fields, m.values, m.one);
    AddEdges(m, spec, node);
  }
}
