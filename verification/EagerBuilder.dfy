/** The terminal methods of a query builder (backend/ent/account_query.go): First, Only, IDs, FirstID and Exist set the
    limit and the selected fields of the builder they are called on, and those that load accounts change its edges. */
module EagerBuilder {
  import opened Common
  import opened AccountSchema
  import opened EagerSpec
  import opened EagerLoad
  import opened EagerObjects
  import opened EagerOutcome
  import opened EagerQuery
  import opened EagerRun

  datatype QueryError = NotFoundError | NotSingularError | QueryFailed

  /** The rows that the builder's filters admit, whatever its limit. */
  function Admitted(store: Store, predicates: seq<Predicate>): seq<AccountRow> {
    Filter(store.accounts, Admits(predicates))
  }

  function Admits(predicates: seq<Predicate>): AccountRow -> bool {
    (r: AccountRow) => Match(predicates, r)
  }

  lemma TakenAndMapped<T, U>(s: seq<T>, n: nat, f: T -> U)
    ensures |Map(Take(s, Some(n)), f)| == if |s| < n then |s| else n
    ensures n > 0 && |s| > 0 ==> Map(Take(s, Some(n)), f)[0] == f(s[0])
  {
  }

  /** The library's scan of rows, projected to fields, into a list of ids; it may refuse them. */
  type Scan = (seq<Column>, seq<AccountRow>) -> Option<seq<int>>

  /** It reads the ids of rows that hold nothing else. */
  ghost predicate ReadsIDs(scan: Scan) {
    forall rows :: scan([ID], rows) == Some(Map(rows, RowID()))
  }

  /** It refuses rows of several columns. */
  ghost predicate RefusesWideRows(scan: Scan) {
    forall fields, rows :: |fields| > 1 ==> scan(fields, rows) == None
  }

  lemma FirstOfLimited(rows: seq<AccountRow>)
    ensures Map(Take(rows, Some(1)), RowID()) == if rows == [] then [] else [rows[0].id]
  {
  }

  function RowID(): AccountRow -> int {
    (r: AccountRow) => r.id
  }

  lemma AdmittedMatch(store: Store, q: AccountQuery)
    ensures Filter(store.accounts, Matching(q)) == Admitted(store, q.predicates)
  {
    FilterSame(store.accounts, Matching(q), Admits(q.predicates));
  }

  /** The rows that a query selects. */
  function Limited(store: Store, q: AccountQuery): seq<AccountRow> {
    Take(Admitted(store, q.predicates), q.limit)
  }

  lemma LimitedDecoded(store: Store, q: AccountQuery)
    ensures Nodes(store, q) == Map(Limited(store, q), Decode(q))
  {
    AdmittedMatch(store, q);
  }

  /** The accounts are loaded as the query asks, and no more than that. */
  ghost predicate Loads(store: Store, q: AccountQuery, nodes: seq<Account>, made: set<Account>)
    reads nodes, made
  {
    && IsLoaded(store, q, nodes, made) && FromStore(store, q, nodes)
    && RowsOf(nodes) == Map(Limited(store, q), Decode(q))
  }

  lemma LimitedSame(store: Store, q: AccountQuery, f: AccountQuery)
    requires q.predicates == f.predicates && q.limit == f.limit
    ensures Limited(store, q) == Limited(store, f)
  {
  }

  // ---------------------------------------------------------------- methods that load accounts

  /** The builder's query, asking for n rows. */
  ghost function Asking(b: AccountQueryBuilder, n: nat): AccountQuery
    requires b.Valid()
    reads b, b.Repr
  {
    b.Query().(limit := Some(n))
  }

  /** All: the accounts within the limit, with their edges. */
  method AllAccounts(b: AccountQueryBuilder, db: Database, store: Store)
    returns (res: Result<seq<Account>, QueryError>, ghost made: set<Account>)
    requires ValidStore(store) && b.Valid()
    modifies db`asked, b.Repr`own
    ensures res.Ok? <==> Sound(store, old(b.Query())) && db.AllUp(old(db.asked), db.asked)
    ensures res.Ok? ==> db.asked == old(db.asked) + Queries(store, old(b.Query()))
    ensures res.Ok? ==> fresh(made) && Loads(store, old(b.Query()), res.value, made)
    ensures res.Err? ==> res.error == QueryFailed
    ensures b.Valid() && SameTop(b.own, old(b.own))
    ensures res.Ok? ==> b.Query() == AfterRun(store, old(b.Query()))
  {
    hide Sound, Queries, AfterRun, Limited, IsLoaded, FromStore, Nodes;
    ghost var q := b.Query();
    var ok, nodes;
    ok, nodes, made := RunAll(db, store, b);
    if !ok {
      return Err(QueryFailed), made;
    }
    RowsOfLoaded(store, q, nodes, made);
    LimitedDecoded(store, q);
    return Ok(nodes), made;
  }

  /** First: the first account admitted; the builder's limit is one from then on. */
  method First(b: AccountQueryBuilder, db: Database, store: Store)
    returns (res: Result<Account, QueryError>, ghost made: set<Account>)
    requires ValidStore(store) && b.Valid()
    modifies db`asked, b.Repr`own
    ensures res == Err(QueryFailed) <==> !(Sound(store, old(Asking(b, 1))) && db.AllUp(old(db.asked), db.asked))
    ensures res == Err(NotFoundError) ==> Admitted(store, old(b.own.predicates)) == []
    ensures res != Err(NotSingularError)
    ensures res.Ok? ==>
      Admitted(store, old(b.own.predicates)) != [] && Loads(store, old(Asking(b, 1)), [res.value], made)
    ensures b.Valid() && (res != Err(QueryFailed) ==> b.Query() == AfterRun(store, old(Asking(b, 1))))
    ensures SameTop(b.own, old(b.own).(limit := Some(1)))
  {
    hide Admitted, Decode, Map, Sound, AfterRun, IsLoaded, FromStore;
    b.Limit(1);
    ghost var q := b.Query();
    TakenAndMapped(Admitted(store, q.predicates), 1, Decode(q));
    var nodes;
    nodes, made := AllAccounts(b, db, store);
    match nodes
    case Err(e) => res := Err(e);
    case Ok(all) =>
      assert |RowsOf(all)| == |all| && (|all| == 1 ==> all == [all[0]]);
      res := if |all| == 0 then Err(NotFoundError) else Ok(all[0]);
  }

  /** Only: succeeds exactly when one account is admitted; the builder's limit is two from then on. */
  method Only(b: AccountQueryBuilder, db: Database, store: Store)
    returns (res: Result<Account, QueryError>, ghost made: set<Account>)
    requires ValidStore(store) && b.Valid()
    modifies db`asked, b.Repr`own
    ensures res == Err(QueryFailed) <==> !(Sound(store, old(Asking(b, 2))) && db.AllUp(old(db.asked), db.asked))
    ensures res == Err(NotFoundError) ==> |Admitted(store, old(b.own.predicates))| == 0
    ensures res == Err(NotSingularError) ==> |Admitted(store, old(b.own.predicates))| > 1
    ensures res.Ok? ==>
      |Admitted(store, old(b.own.predicates))| == 1 && Loads(store, old(Asking(b, 2)), [res.value], made)
    ensures b.Valid() && (res != Err(QueryFailed) ==> b.Query() == AfterRun(store, old(Asking(b, 2))))
    ensures SameTop(b.own, old(b.own).(limit := Some(2)))
  {
    hide Admitted, Decode, Map, Sound, AfterRun, IsLoaded, FromStore;
    b.Limit(2);
    ghost var q := b.Query();
    TakenAndMapped(Admitted(store, q.predicates), 2, Decode(q));
    var nodes;
    nodes, made := AllAccounts(b, db, store);
    match nodes
    case Err(e) => res := Err(e);
    case Ok(all) =>
      assert |RowsOf(all)| == |all| && (|all| == 1 ==> all == [all[0]]);
      res := if |all| == 1 then Ok(all[0]) else if |all| == 0 then Err(NotFoundError) else Err(NotSingularError);
  }

  // ---------------------------------------------------------------- methods that read ids

  /** IDs: one more selected field, the id, and a scan of the rows into a list of ids. */
  method IDs(b: AccountQueryBuilder, db: Database, store: Store, scan: Scan) returns (res: Result<seq<int>, QueryError>)
    requires ValidStore(store) && ReadsIDs(scan) && b.Valid()
    modifies b`own, db`asked
    ensures b.Valid() && b.Query() == old(b.Query()).(fields := old(b.own.fields) + [ID])
    ensures b.own.fields == old(b.own.fields) + [ID] && b.own.limit == old(b.own.limit)
    ensures res == Err(QueryFailed) <==>
      !(Prepared(b.own) && db.AllUp(old(db.asked), db.asked) && scan(b.own.fields, Limited(store, old(b.own))).Some?)
    ensures res.Ok? ==> Some(res.value) == scan(b.own.fields, Limited(store, old(b.own)))
    ensures old(b.own.fields) == [] ==> (res.Ok? <==> db.AllUp(old(db.asked), db.asked))
    ensures old(b.own.fields) == [] && res.Ok? ==> res.value == Map(Limited(store, old(b.own)), RowID())
    ensures res.Err? ==> res.error == QueryFailed
  {
    hide Limited;
    AllUpOne(db, db.asked);
    ghost var own := b.own;
    b.Select([ID]);
    LimitedSame(store, own, b.own);
    assert old(b.own.fields) == [] ==> b.own.fields == [ID];
    if exists c :: c in b.own.fields && c.Other? {
      return Err(QueryFailed);
    }
    var answer := db.Ask(Limited(store, b.own));
    if answer.None? {
      return Err(QueryFailed);
    }
    var ids := scan(b.own.fields, answer.value);
    res := if ids.None? then Err(QueryFailed) else Ok(ids.value);
  }

  /** FirstID: the first id scanned; the builder's limit is one from then on. */
  method FirstID(b: AccountQueryBuilder, db: Database, store: Store, scan: Scan) returns (res: Result<int, QueryError>)
    requires ValidStore(store) && ReadsIDs(scan) && b.Valid()
    modifies b`own, db`asked
    ensures b.Valid() && b.Query() == old(b.Query()).(limit := Some(1), fields := old(b.own.fields) + [ID])
    ensures b.own.fields == old(b.own.fields) + [ID] && b.own.limit == Some(1)
    ensures var ids := scan(b.own.fields, Limited(store, old(b.own).(limit := Some(1))));
      && (res == Err(QueryFailed) <==> !(Prepared(b.own) && db.AllUp(old(db.asked), db.asked) && ids.Some?))
      && (res == Err(NotFoundError) ==> ids == Some([]))
      && (res.Ok? ==> ids.Some? && ids.value != [] && res.value == ids.value[0])
    ensures old(b.own.fields) == [] ==>
      var rows := Admitted(store, old(b.own.predicates));
      && (res == Err(QueryFailed) <==> !db.AllUp(old(db.asked), db.asked))
      && (res == Err(NotFoundError) ==> rows == [])
      && (res.Ok? ==> rows != [] && res.value == rows[0].id)
    ensures res != Err(NotSingularError)
  {
    b.Limit(1);
    FirstOfLimited(Admitted(store, b.own.predicates));
    var ids := IDs(b, db, store, scan);
    match ids
    case Err(e) => res := Err(e);
    case Ok(list) => res := if |list| == 0 then Err(NotFoundError) else Ok(list[0]);
  }

  /** Exist: whether an id was scanned. */
  method Exist(b: AccountQueryBuilder, db: Database, store: Store, scan: Scan) returns (res: Result<bool, QueryError>)
    requires ValidStore(store) && ReadsIDs(scan) && b.Valid()
    modifies b`own, db`asked
    ensures b.Valid() && b.Query() == old(b.Query()).(limit := Some(1), fields := old(b.own.fields) + [ID])
    ensures b.own.fields == old(b.own.fields) + [ID] && b.own.limit == Some(1)
    ensures var ids := scan(b.own.fields, Limited(store, old(b.own).(limit := Some(1))));
      && (res.Err? <==> !(Prepared(b.own) && db.AllUp(old(db.asked), db.asked) && ids.Some?))
      && (res.Ok? ==> (res.value <==> ids != Some([])))
    ensures res.Err? ==> res.error == QueryFailed
    ensures old(b.own.fields) == [] ==> (res.Ok? <==> db.AllUp(old(db.asked), db.asked))
    ensures old(b.own.fields) == [] && res.Ok? ==> (res.value <==> Admitted(store, old(b.own.predicates)) != [])
  {
    var id := FirstID(b, db, store, scan);
    match id
    case Ok(_) => res := Ok(true);
    case Err(e) => res := if e.NotFoundError? then Ok(false) else Err(e);
  }

  /** On a builder that has selected nothing, Exist says whether a row is admitted. Asked a second time it selects the
      id twice, and fails if the library refuses rows of several columns. */
  method ExistTwice(b: AccountQueryBuilder, db: Database, store: Store, scan: Scan)
    returns (first: Result<bool, QueryError>, second: Result<bool, QueryError>)
    requires ValidStore(store) && ReadsIDs(scan) && RefusesWideRows(scan) && b.Valid() && b.own.fields == []
    modifies b`own, db`asked
    ensures first.Ok? ==> (first.value <==> Admitted(store, old(b.own.predicates)) != [])
    ensures second == Err(QueryFailed)
  {
    first := Exist(b, db, store, scan);
    second := Exist(b, db, store, scan);
    assert |b.own.fields| == 2;
  }

  // ---------------------------------------------------------------- the selected id

  /** The key columns that the requested to-one edges add. */
  function KeyColumns(q: AccountQuery): seq<Column> {
    (if q.withProxy.Some? then [ProxyID] else []) + (if q.withParent.Some? then [ParentAccountID] else [])
  }

  lemma BaseAfterID(fields: seq<Column>)
    ensures BaseColumns(fields + [ID]) == BaseColumns(fields)
  {
    FilterSnoc(fields, ID, NotID());
    assert Filter(fields + [ID], NotID()) == Filter(fields, NotID());
  }

  lemma ColumnsAfterID(q: AccountQuery)
    ensures SpecColumns(q.(fields := q.fields + [ID])) == NarrowedColumns(q)
  {
    hide BaseColumns, AppendIf;
    BaseAfterID(q.fields);
  }

  lemma AppendNew(wanted: bool, columns: seq<Column>, c: Column)
    requires c !in columns
    ensures AppendIf(wanted, columns, c) == columns + if wanted then [c] else []
  {
  }

  lemma BaseOfNothing()
    ensures BaseColumns([]) == [ID]
  {
  }

  lemma OnlyKeyColumns(q: AccountQuery)
    requires q.fields == []
    ensures NarrowedColumns(q) == [ID] + KeyColumns(q)
  {
    hide AppendIf, BaseColumns;
    BaseOfNothing();
    AppendNew(q.withProxy.Some?, [ID], ProxyID);
    AppendNew(q.withParent.Some?, AppendIf(q.withProxy.Some?, [ID], ProxyID), ParentAccountID);
  }

  /** The row holds the keys apart from the other columns. */
  predicate KeysApart(r: AccountRow) {
    ID !in r.rest && ProxyID !in r.rest && ParentAccountID !in r.rest
  }

  lemma ProjectKeys(q: AccountQuery, r: AccountRow)
    requires KeysApart(r)
    ensures Projection([ID] + KeyColumns(q))(r)
            == AccountRow(r.id, if q.withProxy.Some? then r.proxyID else None,
                          if q.withParent.Some? then r.parentID else None, map[])
  {
    var columns := [ID] + KeyColumns(q);
    assert columns[0] == ID && q.withProxy.Some? ==> columns[1] == ProxyID;
    assert q.withParent.Some? ==> columns[|columns| - 1] == ParentAccountID;
    assert Projection(columns)(r).rest == map[];
  }

  /** After Exist, FirstID or IDs, a query that had selected nothing decodes every account to its id, and the keys of
      the to-one edges requested; a query that had selected fields decodes as before. */
  lemma SelectedIDStays(q: AccountQuery, r: AccountRow)
    requires KeysApart(r)
    ensures q.fields == [] ==>
      Decode(q.(fields := q.fields + [ID]))(r)
      == AccountRow(r.id, if q.withProxy.Some? then r.proxyID else None,
                    if q.withParent.Some? then r.parentID else None, map[])
    ensures q.fields != [] ==> Decode(q.(fields := q.fields + [ID]))(r) == Decode(q)(r)
  {
    hide NarrowedColumns, KeyColumns, Projection;
    ColumnsAfterID(q);
    if q.fields == [] {
      OnlyKeyColumns(q);
      ProjectKeys(q, r);
    }
  }
}
