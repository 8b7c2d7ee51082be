/** Bulk creation on the heap: the closures of AccountCreateBulk.Save, which fill nodes and specs on the way down,
    insert once at the bottom, and finish the mutations on the way up (backend/ent/account_create.go). */
module BulkCreate {
  import opened Common
  import opened AccountSchema
  import opened RowCodec
  import opened AccountMutations
  import opened CreateSpecs
  import opened CreateDefaults
  import opened BulkPlans

  class AccountCreate {
    const mutation: AccountMutation
    const hooks: seq<Hook>

    constructor (mutation: AccountMutation, hooks: seq<Hook>)
      ensures this.mutation == mutation && this.hooks == hooks
    {
      this.mutation, this.hooks := mutation, hooks;
    }
  }

  /** What an insertion writes: the fields, the foreign keys of the to-one edges, and the links of the to-many edges. */
  datatype Row = Row(
    fields: seq<(Column, Value)>, proxy: Option<int>, parent: Option<int>,
    groups: set<int>, children: set<int>, usageLogs: set<int>)

  /** The row that fields and edges describe. */
  function Described(fields: seq<(Column, Value)>, edges: seq<EdgeSpec>): Row {
    Row(fields, KeyBy(edges, ProxyEdge), KeyBy(edges, ParentEdge), AddedBy(edges, GroupsEdge),
        AddedBy(edges, ChildrenEdge), AddedBy(edges, UsageLogsEdge))
  }

  /** The row that a mutation asks for. */
  function RowOf(values: map<Column, Value>, one: OneEdges, many: ManyEdges): Row {
    Row(Scalars(values), one.proxy.id, one.parent.id, many.groups.added, many.children.added, many.usageLogs.added)
  }

  /** What the database was asked: the number of batch statements, and the rows they inserted. */
  datatype Ledger = Ledger(batches: nat, inserted: seq<Row>)

  function AfterBatch(l: Ledger, reached: bool, inserts: bool, rows: seq<Row>): Ledger {
    if reached then Ledger(l.batches + 1, if inserts then l.inserted + rows else l.inserted) else l
  }

  /** The contents of a specification; the insertion sets the id. */
  datatype RowSpec = RowSpec(fields: seq<(Column, Value)>, edges: seq<EdgeSpec>, id: Option<int>)

  /** The specification has a mutation's fields and edges. */
  ghost predicate SpecHolds(spec: RowSpec, values: map<Column, Value>, one: OneEdges, many: ManyEdges) {
    && spec.fields == Scalars(values)
    && (forall e :: KeyBy(spec.edges, e) == one.Of(e).id)
    && (forall e :: AddedBy(spec.edges, e) == many.Of(e).added)
  }

  lemma HeldIsDescribed(spec: RowSpec, values: map<Column, Value>, one: OneEdges, many: ManyEdges)
    requires SpecHolds(spec, values, one, many)
    ensures Described(spec.fields, spec.edges) == RowOf(values, one, many)
    ensures forall id :: SpecHolds(spec.(id := id), values, one, many)
  {
    hide KeyBy, AddedBy, Scalars;
    assert KeyBy(spec.edges, ProxyEdge) == one.Of(ProxyEdge).id;
    assert KeyBy(spec.edges, ParentEdge) == one.Of(ParentEdge).id;
    assert AddedBy(spec.edges, GroupsEdge) == many.Of(GroupsEdge).added;
    assert AddedBy(spec.edges, ChildrenEdge) == many.Of(ChildrenEdge).added;
    assert AddedBy(spec.edges, UsageLogsEdge) == many.Of(UsageLogsEdge).added;
  }

  function FieldAfter(values: map<Column, Value>, one: OneEdges, id: Option<int>, c: Column): Field {
    if c == ID && id.Some? then Is(IntVal(id.value)) else ExpectedField(values, one, c)
  }

  /** A node as saved: the fields set, and the id where the database gave one. */
  ghost predicate NodeSaved(fields: map<Column, Field>, values: map<Column, Value>, one: OneEdges, id: Option<int>) {
    forall c: Column :: !c.Other? ==> c in fields && fields[c] == FieldAfter(values, one, id, c)
  }

  lemma NodeGetsID(fields: map<Column, Field>, values: map<Column, Value>, one: OneEdges, id: Option<int>)
    requires NodeHolds(fields, values, one)
    ensures NodeSaved(if id.Some? then fields[ID := Is(IntVal(id.value))] else fields, values, one, id)
  {
  }

  /** What one call of Save works on. The answer is the database's to the batch: none if it fails, else the ids. */
  class BulkSave {
    const builders: seq<AccountCreate>
    const valid: Validator
    const answer: Option<seq<Option<int>>>
    const nodes: array<Entity?>
    const specs: array<Option<RowSpec>>
    ghost const mutations: set<AccountMutation>
    var ledger: Ledger
    ghost var events: seq<Event>

    constructor (builders: seq<AccountCreate>, valid: Validator, answer: Option<seq<Option<int>>>)
      requires answer.Some? ==> |answer.value| == |builders|
      ensures Ready() && this.builders == builders && this.valid == valid && this.answer == answer
      ensures ledger == Ledger(0, []) && events == []
      ensures fresh(nodes) && fresh(specs)
    {
      this.builders, this.valid, this.answer := builders, valid, answer;
      mutations := set k | 0 <= k < |builders| :: builders[k].mutation;
      nodes := new Entity?[|builders|](_ => null);
      specs := new Option<RowSpec>[|builders|](_ => None);
      ledger, events := Ledger(0, []), [];
    }

    ghost predicate Ready() {
      && nodes.Length == |builders| && specs.Length == |builders|
      && (answer.Some? ==> |answer.value| == |builders|)
      && (forall k :: 0 <= k < |builders| ==> builders[k].mutation in mutations)
    }

    /** p is the plan of these builders. */
    ghost predicate Follows(p: Plan)
      requires Ready()
      reads mutations`values
    {
      && Valid(p) && |p.hooks| == |builders| && p.inserts == answer.Some?
      && forall k :: 0 <= k < |builders| ==>
           p.hooks[k] == builders[k].hooks && p.accepts[k] == Acceptable(builders[k].mutation.values, valid)
    }

    /** The specifications of the first n builders are in their places. */
    ghost predicate FilledTo(n: nat)
      requires Ready() && n <= |builders|
      reads specs, mutations`values, mutations`one, mutations`many
    {
      forall k :: 0 <= k < n ==>
        && specs[k].Some?
        && SpecHolds(specs[k].value, builders[k].mutation.values, builders[k].mutation.one, builders[k].mutation.many)
    }

    /** The rows of the first n builders, in their order. */
    ghost function Rows(n: nat): (rows: seq<Row>)
      requires Ready() && n <= |builders|
      reads mutations`values, mutations`one, mutations`many
      ensures |rows| == n
    {
      if n == 0 then []
      else
        var m := builders[n - 1].mutation;
        Rows(n - 1) + [RowOf(m.values, m.one, m.many)]
    }

    /** One row per builder, with the builder's fields, keys and links. */
    lemma {:induction false} RowsAre(n: nat, k: nat)
      requires Ready() && k < n <= |builders|
      ensures var m := builders[k].mutation;
        Rows(n)[k] == Row(Scalars(m.values), m.one.proxy.id, m.one.parent.id,
                          m.many.groups.added, m.many.children.added, m.many.usageLogs.added)
    {
      if k < n - 1 {
        RowsAre(n - 1, k);
      } else if k > 0 {
        RowsAre(n - 1, k - 1);
      }
    }

    lemma NoRows()
      requires Ready()
      ensures Rows(0) == []
    {
    }

    lemma NextRow(k: nat)
      requires Ready() && k < |builders|
      ensures var m := builders[k].mutation; Rows(k + 1) == Rows(k) + [RowOf(m.values, m.one, m.many)]
    {
    }

    method InsertRows(ghost all: seq<Row>) returns (rows: seq<Row>)
      requires Ready() && FilledTo(|builders|) && answer.Some? && all == Rows(|builders|)
      modifies specs
      ensures rows == all && FilledTo(|builders|) && HoldsIDs()
    {
      hide SpecHolds, Described, RowOf, Rows;
      NoRows();
      rows := [];
      var k := 0;
      while k < |builders|
        invariant 0 <= k <= |builders| && rows == Rows(k) && all == Rows(|builders|) && FilledTo(|builders|)
        invariant forall j :: 0 <= j < k ==> specs[j].value.id == answer.value[j]
      {
        var m := builders[k].mutation;
        HeldIsDescribed(specs[k].value, m.values, m.one, m.many);
        NextRow(k);
        rows := rows + [Described(specs[k].value.fields, specs[k].value.edges)];
        specs[k] := Some(specs[k].value.(id := answer.value[k]));
        k := k + 1;
      }
    }

    /** Inserting all specifications in one statement: all of them, or none. */
    method BatchCreate(ghost rows: seq<Row>) returns (ok: bool)
      requires Ready() && FilledTo(|builders|) && rows == Rows(|builders|)
      modifies this`ledger, this`events, specs
      ensures ok == answer.Some? && events == old(events) + [Batch]
      ensures ledger == AfterBatch(old(ledger), true, ok, rows)
      ensures FilledTo(|builders|) && (ok ==> HoldsIDs())
    {
      ok := answer.Some?;
      events := events + [Batch];
      ledger := ledger.(batches := ledger.batches + 1);
      if ok {
        var filled := InsertRows(rows);
        ledger := ledger.(inserted := ledger.inserted + filled);
      }
    }

    /** Among builders from i on, builder j's mutation gets done, if the batch is reached. */
    ghost predicate DoneIn(p: Plan, reached: bool, i: nat, j: nat)
      requires Valid(p)
    {
      i <= j < |builders| && reached && p.inserts && Returns(p, j + 1)
    }

    ghost predicate DoneBy(p: Plan, reached: bool, i: nat, m: AccountMutation)
      requires Valid(p)
    {
      exists j: nat :: DoneIn(p, reached, i, j) && builders[j].mutation == m
    }

    /** No other builder has builder j's mutation. */
    ghost predicate Unshared(j: nat)
      requires j < |builders|
    {
      forall k :: 0 <= k < |builders| && k != j ==> builders[k].mutation != builders[j].mutation
    }

    /** Node j is the saved node of builder j, and the one its mutation's id points into, if that is unshared. */
    ghost predicate HoldsNode(j: nat)
      requires Ready() && j < |builders|
      reads nodes, nodes[j], builders[j].mutation`values, builders[j].mutation`one, builders[j].mutation`idOf
    {
      && answer.Some? && nodes[j] != null
      && NodeSaved(nodes[j].fields, builders[j].mutation.values, builders[j].mutation.one, answer.value[j])
      && (Unshared(j) ==> builders[j].mutation.idOf == nodes[j])
    }

    /** The nodes of all builders that get done from builder i on are saved nodes. */
    ghost predicate HoldsNodes(p: Plan, reached: bool, i: nat)
      requires Ready() && Valid(p)
      reads nodes, nodes[..], mutations`values, mutations`one, mutations`idOf
    {
      forall j :: 0 <= j < |builders| && DoneIn(p, reached, i, j) ==> HoldsNode(j)
    }

    /** Every place from i on holds what it held, or something new. */
    twostate predicate Renewed(i: nat)
      reads nodes
    {
      && (forall j :: 0 <= j < i && j < nodes.Length ==> nodes[j] == old(nodes[j]))
      && (forall j :: i <= j < nodes.Length ==> nodes[j] == old(nodes[j]) || (nodes[j] != null && fresh(nodes[j])))
    }

    /** The database's ids are in the specifications. */
    ghost predicate HoldsIDs()
      requires Ready() && answer.Some?
      reads specs
    {
      forall k :: 0 <= k < |builders| ==> specs[k].Some? && specs[k].value.id == answer.value[k]
    }

    lemma DoneSplit(p: Plan, i: nat)
      requires Valid(p) && |p.hooks| == |builders| && i < |builders| && p.accepts[i]
      ensures Reaches(p, i, |p.hooks[i]|) <==> Below(p, i)
      ensures Inner(p, i).1 <==> DoneIn(p, Below(p, i), i, i)
      ensures forall m :: DoneBy(p, Below(p, i), i, m) <==>
        DoneBy(p, Below(p, i), i + 1, m) || (Inner(p, i).1 && builders[i].mutation == m)
    {
      if i + 1 < |builders| {
        SucceedsExactly(p, i + 1, 0);
        assert Returns(p, i + 1) <==> Returns(p, i + 2) && HooksReturn(p, i + 1, 0);
      }
      forall m
        ensures DoneBy(p, Below(p, i), i, m) <==>
          DoneBy(p, Below(p, i), i + 1, m) || (Inner(p, i).1 && builders[i].mutation == m)
      {
        forall j: nat
          ensures DoneIn(p, Below(p, i), i, j) <==> DoneIn(p, Below(p, i), i + 1, j) || (j == i && Inner(p, i).1)
        {
        }
      }
    }

    /** What a hook adds to the rest of the chain. */
    lemma HookAround(p: Plan, i: nat, h: nat, before: seq<Event>)
      requires Valid(p) && i < |p.hooks| && h < |p.hooks[i]|
      ensures p.hooks[i][h] == RejectBefore ==>
        before + Chain(p, i, h).0 == before + [Enter(i, h)] && !Chain(p, i, h).1
      ensures p.hooks[i][h] != RejectBefore ==>
        && before + Chain(p, i, h).0 == before + [Enter(i, h)] + Chain(p, i, h + 1).0 + [Leave(i, h)]
        && Chain(p, i, h).1 == (Chain(p, i, h + 1).1 && p.hooks[i][h] == Pass)
    {
      if p.hooks[i][h] != RejectBefore {
        AppendAssociates(before, [Enter(i, h)], Chain(p, i, h + 1).0);
        AppendAssociates(before, [Enter(i, h)] + Chain(p, i, h + 1).0, [Leave(i, h)]);
      }
    }

    /** The hook passes the mutation on, and the batch is reached. */
    ghost predicate Past(p: Plan, i: nat, h: nat)
      requires Valid(p) && i < |p.hooks| && h < |p.hooks[i]|
    {
      p.hooks[i][h] != RejectBefore && Reaches(p, i, h + 1)
    }

    lemma ReachesAtEnd(p: Plan, i: nat)
      requires Valid(p) && i < |p.hooks|
      ensures Reaches(p, i, |p.hooks[i]|) <==> p.accepts[i] && Below(p, i)
    {
    }

    lemma ThroughHook(p: Plan, i: nat, h: nat)
      requires Valid(p) && |p.hooks| == |builders| && i < |builders| && h < |p.hooks[i]|
      ensures Reaches(p, i, h) <==> Past(p, i, h)
    {
    }

    /** The mutator of builder i, entered at its hook h. */
    method Mutate(i: nat, h: nat, ghost p: Plan, ghost rows: seq<Row>) returns (ok: bool)
      requires Ready() && i < |builders| && Follows(p) && rows == Rows(|builders|)
      requires h <= |builders[i].hooks| && FilledTo(i)
      modifies this`ledger, this`events, nodes, specs, mutations`done, mutations`idOf
      ensures ok == Chain(p, i, h).1 && events == old(events) + Chain(p, i, h).0
      ensures ledger == AfterBatch(old(ledger), Reaches(p, i, h), p.inserts, rows)
      ensures FilledTo(i) && (Reaches(p, i, h) ==> FilledTo(|builders|))
      ensures Reaches(p, i, h) && p.inserts ==> HoldsIDs()
      ensures Renewed(i) && HoldsNodes(p, Reaches(p, i, h), i)
      ensures forall m :: m in mutations ==> (m.done <==> old(m.done) || DoneBy(p, Reaches(p, i, h), i, m))
      decreases |builders| - i, |builders[i].hooks| - h, 4
    {
      if h == |builders[i].hooks| {
        ReachesAtEnd(p, i);
        ok := Create(i, p, rows);
      } else {
        ThroughHook(p, i, h);
        ok := Hooked(i, h, p, rows);
      }
    }

    /** If the batch is not reached, nothing is done. */
    lemma NothingBelow(p: Plan, i: nat, l: Ledger, rows: seq<Row>)
      requires Ready() && Valid(p)
      ensures HoldsNodes(p, false, i) && AfterBatch(l, false, p.inserts, rows) == l
      ensures forall m :: !DoneBy(p, false, i, m)
    {
    }

    /** A hook of builder i around the rest of its mutator. */
    method Hooked(i: nat, h: nat, ghost p: Plan, ghost rows: seq<Row>) returns (ok: bool)
      requires Ready() && i < |builders| && Follows(p) && rows == Rows(|builders|) && FilledTo(i)
      requires h < |builders[i].hooks|
      modifies this`ledger, this`events, nodes, specs, mutations`done, mutations`idOf
      ensures ok == Chain(p, i, h).1 && events == old(events) + Chain(p, i, h).0
      ensures ledger == AfterBatch(old(ledger), Past(p, i, h), p.inserts, rows)
      ensures FilledTo(i) && (Past(p, i, h) ==> FilledTo(|builders|))
      ensures Past(p, i, h) && p.inserts ==> HoldsIDs()
      ensures Renewed(i) && HoldsNodes(p, Past(p, i, h), i)
      ensures forall m :: m in mutations ==> (m.done <==> old(m.done) || DoneBy(p, Past(p, i, h), i, m))
      decreases |builders| - i, |builders[i].hooks| - h, 3
    {
      hide HoldsNodes, HoldsNode, HoldsIDs, FilledTo, Rows, DoneBy, AfterBatch, Reaches, Chain;
      HookAround(p, i, h, events);
      NothingBelow(p, i, ledger, rows);
      events := events + [Enter(i, h)];
      ok := builders[i].hooks[h] != RejectBefore;
      if ok {
        ok := Mutate(i, h + 1, p, rows);
        events := events + [Leave(i, h)];
        ok := ok && builders[i].hooks[h] == Pass;
      }
    }

    /** Calls the next builder's mutator, or inserts. */
    method Descend(i: nat, ghost p: Plan, ghost rows: seq<Row>) returns (ok: bool)
      requires Ready() && i < |builders| && Follows(p) && rows == Rows(|builders|) && FilledTo(i + 1)
      modifies this`ledger, this`events, nodes, specs, mutations`done, mutations`idOf
      ensures ok == Inner(p, i).1 && events == old(events) + Inner(p, i).0
      ensures ledger == AfterBatch(old(ledger), Below(p, i), p.inserts, rows)
      ensures FilledTo(i + 1) && (Below(p, i) ==> FilledTo(|builders|))
      ensures Below(p, i) && p.inserts ==> HoldsIDs()
      ensures Renewed(i + 1) && HoldsNodes(p, Below(p, i), i + 1)
      ensures forall m :: m in mutations ==> (m.done <==> old(m.done) || DoneBy(p, Below(p, i), i + 1, m))
      decreases |builders| - i, 0, 0
    {
      if i + 1 < |builders| {
        ok := Mutate(i + 1, 0, p, rows);
      } else {
        ok := BatchCreate(rows);
      }
    }

    /** Fills the places of builder i. */
    method Fill(i: nat) returns (node: Entity)
      requires Ready() && i < |builders| && FilledTo(i)
      modifies this`events, nodes, specs
      ensures fresh(node) && nodes[i] == node && FilledTo(i + 1) && events == old(events) + [Filled(i)]
      ensures NodeHolds(node.fields, builders[i].mutation.values, builders[i].mutation.one)
      ensures forall j :: 0 <= j < |builders| && j != i ==> nodes[j] == old(nodes[j])
    {
      var spec;
      node, spec := MakeSpec(builders[i].mutation);
      nodes[i], specs[i] := node, Some(RowSpec(spec.fields, spec.edges, spec.id));
      events := events + [Filled(i)];
    }

    lemma NodesFrom(p: Plan, reached: bool, i: nat)
      requires Ready() && Valid(p) && i < |builders| && HoldsNodes(p, reached, i + 1)
      requires DoneIn(p, reached, i, i) ==> HoldsNode(i)
      ensures HoldsNodes(p, reached, i)
    {
      forall j | 0 <= j < |builders| && DoneIn(p, reached, i, j)
        ensures HoldsNode(j)
      {
        assert j == i || DoneIn(p, reached, i + 1, j);
      }
    }

    /** Marks builder i's mutation as done, with its node. */
    method Finish(i: nat, node: Entity, ghost p: Plan, ghost reached: bool)
      requires Ready() && Valid(p) && i < |builders| && answer.Some? && HoldsIDs() && nodes[i] == node
      requires HoldsNodes(p, reached, i + 1) && forall j :: i < j < |builders| ==> nodes[j] != node
      requires NodeHolds(node.fields, builders[i].mutation.values, builders[i].mutation.one)
      modifies this`events, node`fields, builders[i].mutation`done, builders[i].mutation`idOf
      ensures HoldsNode(i) && HoldsNodes(p, reached, i + 1)
      ensures builders[i].mutation.done && builders[i].mutation.idOf == node
      ensures events == old(events) + [Done(i)]
    {
      var mutation := builders[i].mutation;
      mutation.idOf := node;
      var id := specs[i].value.id;
      NodeGetsID(node.fields, mutation.values, mutation.one, id);
      if id.Some? {
        node.fields := node.fields[ID := Is(IntVal(id.value))];
      }
      mutation.done := true;
      events := events + [Done(i)];
    }

    /** Fills builder i's places and goes on below. */
    method FillAndDescend(i: nat, ghost p: Plan, ghost rows: seq<Row>) returns (ok: bool, node: Entity)
      requires Ready() && i < |builders| && Follows(p) && rows == Rows(|builders|) && FilledTo(i)
      modifies this`ledger, this`events, nodes, specs, mutations`done, mutations`idOf
      ensures ok == Inner(p, i).1 && events == old(events) + ([Filled(i)] + Inner(p, i).0)
      ensures ledger == AfterBatch(old(ledger), Below(p, i), p.inserts, rows)
      ensures FilledTo(i) && (Below(p, i) ==> FilledTo(|builders|))
      ensures Below(p, i) && p.inserts ==> HoldsIDs()
      ensures Renewed(i) && HoldsNodes(p, Below(p, i), i + 1)
      ensures fresh(node) && nodes[i] == node && forall j :: i < j < |builders| ==> nodes[j] != node
      ensures NodeHolds(node.fields, builders[i].mutation.values, builders[i].mutation.one)
      ensures forall m :: m in mutations ==> (m.done <==> old(m.done) || DoneBy(p, Below(p, i), i + 1, m))
      decreases |builders| - i, 0, 1
    {
      hide HoldsNodes, HoldsNode, Rows, DoneBy, AfterBatch, Inner, Below, NodeHolds;
      ghost var before := events;
      node := Fill(i);
      ok := Descend(i, p, rows);
      AppendAssociates(before, [Filled(i)], Inner(p, i).0);
    }

    /** Builder i after its check. */
    method CreateChecked(i: nat, ghost p: Plan, ghost rows: seq<Row>) returns (ok: bool)
      requires Ready() && i < |builders| && Follows(p) && rows == Rows(|builders|) && FilledTo(i) && p.accepts[i]
      modifies this`ledger, this`events, nodes, specs, mutations`done, mutations`idOf
      ensures ok == Inner(p, i).1
      ensures events == old(events) + ([Filled(i)] + Inner(p, i).0 + if ok then [Done(i)] else [])
      ensures ledger == AfterBatch(old(ledger), Below(p, i), p.inserts, rows)
      ensures FilledTo(i) && (Below(p, i) ==> FilledTo(|builders|))
      ensures Below(p, i) && p.inserts ==> HoldsIDs()
      ensures Renewed(i) && HoldsNodes(p, Below(p, i), i)
      ensures forall m :: m in mutations ==> (m.done <==> old(m.done) || DoneBy(p, Below(p, i), i, m))
      decreases |builders| - i, 0, 2
    {
      hide HoldsNode, Rows, DoneBy, AfterBatch, Inner, Below, Returns;
      DoneSplit(p, i);
      ghost var before := events;
      var node;
      ok, node := FillAndDescend(i, p, rows);
      AppendAssociates(before, [Filled(i)] + Inner(p, i).0, if ok then [Done(i)] else []);
      if ok {
        Finish(i, node, p, Below(p, i));
      }
      NodesFrom(p, Below(p, i), i);
    }

    /** The innermost mutator of builder i. */
    method Create(i: nat, ghost p: Plan, ghost rows: seq<Row>) returns (ok: bool)
      requires Ready() && i < |builders| && Follows(p) && rows == Rows(|builders|) && FilledTo(i)
      modifies this`ledger, this`events, nodes, specs, mutations`done, mutations`idOf
      ensures ok == (p.accepts[i] && Inner(p, i).1)
      ensures events == old(events) + Chain(p, i, |builders[i].hooks|).0
      ensures ledger == AfterBatch(old(ledger), p.accepts[i] && Below(p, i), p.inserts, rows)
      ensures FilledTo(i) && (p.accepts[i] && Below(p, i) ==> FilledTo(|builders|))
      ensures p.accepts[i] && Below(p, i) && p.inserts ==> HoldsIDs()
      ensures Renewed(i) && HoldsNodes(p, p.accepts[i] && Below(p, i), i)
      ensures forall m :: m in mutations ==>
        (m.done <==> old(m.done) || DoneBy(p, p.accepts[i] && Below(p, i), i, m))
      decreases |builders| - i, 0, 3
    {
      var err := Check(builders[i].mutation, valid);
      ok := err.None?;
      if ok {
        ok := CreateChecked(i, p, rows);
      }
    }

    /** One of the first i builders has the mutation. */
    ghost predicate Seen(m: AccountMutation, i: nat)
      requires i <= |builders|
    {
      exists k :: 0 <= k < i && builders[k].mutation == m
    }

    lemma SeenNext(i: nat)
      requires i < |builders|
      ensures forall m :: Seen(m, i + 1) <==> Seen(m, i) || m == builders[i].mutation
    {
      forall m
        ensures Seen(m, i + 1) <==> Seen(m, i) || m == builders[i].mutation
      {
        if Seen(m, i) {
          var k :| 0 <= k < i && builders[k].mutation == m;
        }
      }
    }

    /** The defaults of every builder, whatever comes of them. */
    method SetAllDefaults(rt: Runtime)
      requires Ready()
      modifies mutations`values, mutations`increments
      ensures forall k :: 0 <= k < |builders| ==>
        builders[k].mutation.values == AfterDefaults(old(builders[k].mutation.values), rt)
    {
      var i := 0;
      while i < |builders|
        invariant 0 <= i <= |builders|
        invariant forall m :: m in mutations ==>
          m.values == if Seen(m, i) then AfterDefaults(old(m.values), rt) else old(m.values)
      {
        var m := builders[i].mutation;
        DefaultsTwice(old(m.values), rt);
        var err := SetDefaults(m, rt);
        SeenNext(i);
        i := i + 1;
      }
    }

    /** Every mutation is done, with its node. */
    ghost predicate AllSaved()
      requires Ready()
      reads nodes, nodes[..], mutations
    {
      forall k :: 0 <= k < |builders| ==> builders[k].mutation.done && HoldsNode(k)
    }

    lemma SavedWhenDone(p: Plan)
      requires Ready() && Valid(p) && HoldsNodes(p, true, 0) && p.inserts && Returns(p, 0)
      requires forall m :: m in mutations && DoneBy(p, true, 0, m) ==> m.done
      ensures AllSaved()
    {
      forall k | 0 <= k < |builders|
        ensures builders[k].mutation.done && HoldsNode(k)
      {
        assert DoneIn(p, true, 0, k);
      }
    }

    lemma AllReturn(p: Plan)
      requires Valid(p) && |p.hooks| > 0
      ensures Chain(p, 0, 0).1 <==> Reaches(p, 0, 0) && p.inserts && Returns(p, 0)
    {
      SucceedsExactly(p, 0, 0);
      assert Returns(p, 0) <==> Returns(p, 1) && HooksReturn(p, 0, 0);
    }

    method Start(ghost p: Plan, ghost rows: seq<Row>) returns (ok: bool)
      requires Ready() && |builders| > 0 && Follows(p) && rows == Rows(|builders|)
      modifies this`ledger, this`events, nodes, specs, mutations`done, mutations`idOf
      ensures ok <==> Reaches(p, 0, 0) && p.inserts && Returns(p, 0)
      ensures events == old(events) + Chain(p, 0, 0).0
      ensures ledger == AfterBatch(old(ledger), Reaches(p, 0, 0), p.inserts, rows)
      ensures HoldsNodes(p, Reaches(p, 0, 0), 0)
      ensures Reaches(p, 0, 0) ==> FilledTo(|builders|)
      ensures Reaches(p, 0, 0) && p.inserts ==> HoldsIDs()
      ensures forall m :: m in mutations ==> (m.done <==> old(m.done) || DoneBy(p, Reaches(p, 0, 0), 0, m))
      ensures ok ==> AllSaved()
    {
      ok := Mutate(0, 0, p, rows);
      AllReturn(p);
      if ok {
        SavedWhenDone(p);
      }
    }

    /** The plan of the builders as they are now. */
    ghost function PlanOf(n: nat): (p: Plan)
      requires Ready() && n <= |builders|
      reads mutations`values
      ensures Valid(p) && |p.hooks| == n && p.inserts == answer.Some?
      ensures forall k :: 0 <= k < n ==>
        p.hooks[k] == builders[k].hooks && p.accepts[k] == Acceptable(builders[k].mutation.values, valid)
    {
      if n == 0 then Plan([], [], answer.Some?)
      else
        var p := PlanOf(n - 1);
        Plan(p.hooks + [builders[n - 1].hooks],
             p.accepts + [Acceptable(builders[n - 1].mutation.values, valid)], answer.Some?)
    }

    /** Saves all accounts: one batch at most, reached only if every builder's hooks and check let it through. It
        succeeds exactly if the batch is reached, the database inserts, and no hook rejects afterwards. Then every
        mutation is done, with its node; if nothing was inserted, none is. */
    method Save(rt: Runtime) returns (ok: bool, ghost p: Plan)
      requires Ready()
      modifies this`ledger, this`events, nodes, specs
      modifies mutations`done, mutations`idOf, mutations`values, mutations`increments
      ensures Follows(p)
      ensures forall k :: 0 <= k < |builders| ==>
        && (CanDefault(old(builders[k].mutation.values), rt) ==>
            DefaultsSet(old(builders[k].mutation.values), builders[k].mutation.values, rt))
        && (p.accepts[k] <==>
            Given(old(builders[k].mutation.values), rt) && Validates(builders[k].mutation.values, valid))
      ensures |builders| > 0 && Reaches(p, 0, 0) ==> FilledTo(|builders|) && (p.inserts ==> HoldsIDs())
      ensures ok <==> |builders| == 0 || (Reaches(p, 0, 0) && p.inserts && Returns(p, 0))
      ensures events == old(events) + if |builders| == 0 then [] else Chain(p, 0, 0).0
      ensures ledger == AfterBatch(old(ledger), |builders| > 0 && Reaches(p, 0, 0), p.inserts, Rows(|builders|))
      ensures |builders| > 0 ==> forall m :: m in mutations ==>
        (m.done <==> old(m.done) || DoneBy(p, Reaches(p, 0, 0), 0, m))
      ensures |builders| > 0 ==> HoldsNodes(p, Reaches(p, 0, 0), 0)
      ensures ok ==> AllSaved()
    {
      hide Rows, HoldsNodes, HoldsNode, Reaches, Chain, DoneBy, Returns, AfterDefaults, Acceptable,
        CanDefault, DefaultsSet, Given, Validates, FilledTo, HoldsIDs;
      SetAllDefaults(rt);
      forall k | 0 <= k < |builders|
        ensures var before, after := old(builders[k].mutation.values), builders[k].mutation.values;
          && (CanDefault(before, rt) ==> DefaultsSet(before, after, rt))
          && (Acceptable(after, valid) <==> Given(before, rt) && Validates(after, valid))
      {
        BuilderDefaults(old(builders[k].mutation.values), rt, valid);
      }
      p := PlanOf(|builders|);
      ok := true;
      if |builders| > 0 {
        ok := Start(p, Rows(|builders|));
      }
    }
  }

  /** The fields after the defaults, whether or not they failed. */
  function AfterDefaults(values: map<Column, Value>, rt: Runtime): map<Column, Value> {
    Defaulted(values, DEFAULTED, rt).0
  }

  lemma BuilderDefaults(values: map<Column, Value>, rt: Runtime, valid: Validator)
    ensures var after := AfterDefaults(values, rt);
      && (CanDefault(values, rt) ==> DefaultsSet(values, after, rt))
      && (Acceptable(after, valid) <==> Given(values, rt) && Validates(after, valid))
  {
    hide Acceptable, CanDefault, DefaultsSet, Given, Validates, Defaulted;
    DefaultsExactly(values, rt);
    GivenIsEnough(values, rt, valid);
  }

  lemma DefaultsTwice(values: map<Column, Value>, rt: Runtime)
    ensures AfterDefaults(AfterDefaults(values, rt), rt) == AfterDefaults(values, rt)
  {
    DefaultsOnce(values, rt);
  }
}
