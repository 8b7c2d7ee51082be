/** What a loaded account holds of the stored one, and which accounts are loaded: said without the functions that
    compute it (querySpec and sqlAll of backend/ent/account_query.go). */
module EagerColumns {
  import opened Common
  import opened AccountSchema
  import opened RowCodec
  import opened RowCodecLaws
  import opened EagerSpec

  // ---------------------------------------------------------------- columns of accounts

  /** The query asks for the column: for every one if it selects none; else for the id, those selected, and the keys of
      the to-one edges requested. */
  predicate Asked(q: AccountQuery, c: Column) {
    if q.fields == [] then !c.Other?
    else
      || c == ID || c in q.fields
      || (c == ProxyID && q.withProxy.Some?) || (c == ParentAccountID && q.withParent.Some?)
  }

  /** n is the stored row r as far as the query asks for it. */
  ghost predicate SeenThrough(q: AccountQuery, r: AccountRow, n: AccountRow) {
    && n.id == r.id
    && n.proxyID == (if Asked(q, ProxyID) then r.proxyID else None)
    && n.parentID == (if Asked(q, ParentAccountID) then r.parentID else None)
    && (forall c :: c in n.rest <==> c in r.rest && Asked(q, c))
    && (forall c :: c in n.rest ==> n.rest[c] == r.rest[c])
  }

  lemma BaseExactly(fields: seq<Column>, c: Column)
    ensures c in BaseColumns(fields) <==> c == ID || c in fields
  {
    hide Filter;
    FilterMember(fields, NotID(), c);
  }

  lemma NarrowedExactly(q: AccountQuery, c: Column)
    requires q.fields != []
    ensures c in NarrowedColumns(q) <==> Asked(q, c)
  {
    hide BaseColumns, AppendIf;
    var base := BaseColumns(q.fields);
    BaseExactly(q.fields, c);
    AppendedExactly(q.withProxy.Some?, base, ProxyID, c);
    AppendedExactly(q.withParent.Some?, AppendIf(q.withProxy.Some?, base, ProxyID), ParentAccountID, c);
  }

  lemma AppendedExactly(wanted: bool, columns: seq<Column>, more: Column, c: Column)
    ensures c in AppendIf(wanted, columns, more) <==> c in columns || (wanted && c == more)
  {
  }

  /** The projection has the columns asked for, and no others. */
  lemma ProjectedExactly(q: AccountQuery, c: Column)
    ensures c in SpecColumns(q) <==> Asked(q, c)
  {
    hide NarrowedColumns;
    if q.fields == [] {
      KnownColumns();
    } else {
      NarrowedExactly(q, c);
    }
  }

  lemma DecodeShows(q: AccountQuery, r: AccountRow)
    ensures SeenThrough(q, r, Decode(q)(r))
  {
    hide SpecColumns, Asked;
    forall c
      ensures c in SpecColumns(q) <==> Asked(q, c)
    {
      ProjectedExactly(q, c);
    }
    IDIsAsked(q);
  }

  lemma IDIsAsked(q: AccountQuery)
    ensures Asked(q, ID)
  {
  }

  // ---------------------------------------------------------------- the entity decoded

  function KeyCellOf(id: Option<int>): Cell {
    if id.Some? then IntCell(id.value) else Null
  }

  /** The cells of a row. */
  function CellIn(r: AccountRow, c: Column): Cell {
    if c == ID then IntCell(r.id)
    else if c == ProxyID then KeyCellOf(r.proxyID)
    else if c == ParentAccountID then KeyCellOf(r.parentID)
    else if c in r.rest then r.rest[c]
    else Null
  }

  function CellsOf(r: AccountRow): Column -> Cell {
    (c: Column) => CellIn(r, c)
  }

  lemma SeenCells(q: AccountQuery, r: AccountRow, n: AccountRow, c: Column)
    requires SeenThrough(q, r, n)
    ensures CellIn(n, c) == if Asked(q, c) then CellIn(r, c) else Null
  {
    IDIsAsked(q);
  }

  /** Of a stored row, scanned into the columns that the query projects, assignValues makes the entity whose fields are
      the cells of the row loaded, decoded. */
  lemma EntityDecodes(q: AccountQuery, r: AccountRow, holders: seq<Holder>, st: State, parse: Parser, c: Column)
    requires HoldsRow(SpecColumns(q), holders, CellsOf(r)) && AllParse(SpecColumns(q), holders, parse) && !c.Other?
    requires Complete(st.fields) && forall x: Column :: !x.Other? ==> st.fields[x] == Zero(x)
    ensures var run := Run(st, SpecColumns(q), holders, parse);
      run.err.None? && run.st.fields[c] == Decoded(c, CellIn(Decode(q)(r), c), parse)
  {
    hide SpecColumns, Asked, Run, Decode, Decoded, CellIn, SeenThrough;
    RowDecodes(SpecColumns(q), holders, CellsOf(r), st, parse, c);
    ProjectedExactly(q, c);
    DecodeShows(q, r);
    SeenCells(q, r, Decode(q)(r), c);
    NullDecodes(c, parse);
  }

  // ---------------------------------------------------------------- which rows

  /** Every filter of the list lets the row pass. */
  ghost predicate Passes(ps: seq<Predicate>, r: AccountRow) {
    && (forall f :: Keep(f) in ps ==> f(r))
    && (forall ids :: IDIn(ids) in ps ==> r.id in ids)
    && (forall ids :: ParentIn(ids) in ps ==> r.parentID.Some? && r.parentID.value in ids)
  }

  lemma MatchExactly(ps: seq<Predicate>, r: AccountRow)
    ensures Match(ps, r) <==> Passes(ps, r)
  {
    if Passes(ps, r) {
      forall i | 0 <= i < |ps|
        ensures Holds(ps[i], r)
      {
        assert ps[i] in ps;
      }
    }
    if Match(ps, r) {
      forall p | p in ps
        ensures Holds(p, r)
      {
        var i :| 0 <= i < |ps| && ps[i] == p;
      }
      forall f | Keep(f) in ps
        ensures f(r)
      {
        assert Holds(Keep(f), r);
      }
      forall ids | IDIn(ids) in ps
        ensures r.id in ids
      {
        assert Holds(IDIn(ids), r);
      }
      forall ids | ParentIn(ids) in ps
        ensures r.parentID.Some? && r.parentID.value in ids
      {
        assert Holds(ParentIn(ids), r);
      }
    }
  }

  /** The rows loaded are the stored rows at the given places, seen through the query: those that its filters let pass,
      in the order of the table, and all of them up to the limit. */
  ghost predicate ShownAt(store: Store, q: AccountQuery, rows: seq<AccountRow>, places: seq<nat>) {
    && |places| == |rows| && Increasing(places) && (q.limit.Some? ==> |rows| <= q.limit.value)
    && (forall i :: 0 <= i < |rows| ==>
          && places[i] < |store.accounts| && Passes(q.predicates, store.accounts[places[i]])
          && SeenThrough(q, store.accounts[places[i]], rows[i]))
    && (forall k: nat :: k < |store.accounts| && Passes(q.predicates, store.accounts[k]) ==>
          k in places || (q.limit == Some(|rows|) && forall i :: 0 <= i < |places| ==> places[i] < k))
  }

  ghost predicate Shows(store: Store, q: AccountQuery, rows: seq<AccountRow>) {
    exists places :: ShownAt(store, q, rows, places)
  }

  /** Of the elements that a filter keeps, the places of the first, up to the limit. */
  ghost predicate TakenAt<T>(s: seq<T>, p: T -> bool, limit: Option<nat>, taken: seq<T>, places: seq<nat>) {
    && |places| == |taken| && Increasing(places) && (limit.Some? ==> |taken| <= limit.value)
    && (forall i :: 0 <= i < |taken| ==> places[i] < |s| && s[places[i]] == taken[i] && p(taken[i]))
    && (forall k: nat :: k < |s| && p(s[k]) ==>
          k in places || (limit == Some(|taken|) && forall i :: 0 <= i < |places| ==> places[i] < k))
  }

  lemma TakePlaces<T>(s: seq<T>, p: T -> bool, limit: Option<nat>) returns (places: seq<nat>)
    ensures TakenAt(s, p, limit, Take(Filter(s, p), limit), places)
  {
    var taken := Take(Filter(s, p), limit);
    var all := FilterPlaces(s, p);
    places := all[..|taken|];
    forall k: nat | k < |s| && p(s[k])
      ensures k in places || (limit == Some(|taken|) && forall i :: 0 <= i < |places| ==> places[i] < k)
    {
      var j :| 0 <= j < |all| && all[j] == k;
      assert j < |taken| ==> places[j] == k;
    }
  }

  lemma PlacesShow(store: Store, q: AccountQuery, places: seq<nat>)
    requires TakenAt(store.accounts, Matching(q), q.limit, SelectRows(store.accounts, q), places)
    ensures ShownAt(store, q, Nodes(store, q), places)
  {
    hide SeenThrough, Decode, Passes, SelectRows, Match;
    var rows := SelectRows(store.accounts, q);
    forall r
      ensures Matching(q)(r) <==> Passes(q.predicates, r)
    {
      MatchExactly(q.predicates, r);
    }
    forall i | 0 <= i < |rows|
      ensures SeenThrough(q, rows[i], Nodes(store, q)[i])
    {
      DecodeShows(q, rows[i]);
    }
  }

  lemma NodesShown(store: Store, q: AccountQuery)
    ensures Shows(store, q, Nodes(store, q))
  {
    hide Nodes, TakenAt, ShownAt, Take, Filter;
    var places := TakePlaces(store.accounts, Matching(q), q.limit);
    PlacesShow(store, q, places);
  }
}
