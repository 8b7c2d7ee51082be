/** What decoding a row means, for every list of columns: in any order, with repeated and with unknown columns
    (scanValues and assignValues of backend/ent/account.go). */
module RowCodecLaws {
  import opened Common
  import opened AccountSchema
  import opened RowCodec

  // ---------------------------------------------------------------- errors

  /** The holders have the types that scanValues made. */
  ghost predicate Scanned(columns: seq<Column>, values: seq<Holder>) {
    |columns| <= |values| && forall i :: 0 <= i < |columns| ==> KindOf(values[i]) == ScanKind(columns[i])
  }

  lemma FillKeepsKind(k: HolderKind, cell: Cell)
    ensures KindOf(Empty(k)) == k
    ensures Fill(k, cell).Some? ==> KindOf(Fill(k, cell).value) == k
  {
  }

  predicate Parses(c: Column, h: Holder, parse: Parser) {
    SlotOf(c) == Json && h.Bytes? && h.bytes != "" ==> parse(h.bytes).Some?
  }

  ghost predicate AllParse(columns: seq<Column>, values: seq<Holder>, parse: Parser)
    requires |columns| <= |values|
  {
    forall i :: 0 <= i < |columns| ==> Parses(columns[i], values[i], parse)
  }

  lemma StoreOne(st: State, c: Column, h: Holder, parse: Parser)
    requires Complete(st.fields) && KindOf(h) == ScanKind(c)
    ensures Store(st, c, h, parse).Ok? <==> Parses(c, h, parse)
    ensures Store(st, c, h, parse).Err? ==> Store(st, c, h, parse).error == BadJson(c)
    ensures Store(st, c, h, parse).Ok? ==> Complete(Store(st, c, h, parse).value.fields)
  {
    SwitchesAgree(c);
  }

  lemma ScannedTail(columns: seq<Column>, values: seq<Holder>)
    requires Scanned(columns, values) && columns != []
    ensures KindOf(values[0]) == ScanKind(columns[0]) && Scanned(columns[1..], values[1..])
  {
    assert forall i :: 0 <= i < |columns| - 1 ==> columns[1..][i] == columns[i + 1] && values[1..][i] == values[i + 1];
  }

  lemma AllParseTail(columns: seq<Column>, values: seq<Holder>, parse: Parser)
    requires |columns| <= |values| && columns != []
    ensures AllParse(columns, values, parse) <==>
      Parses(columns[0], values[0], parse) && AllParse(columns[1..], values[1..], parse)
  {
    assert forall i :: 0 <= i < |columns| - 1 ==> columns[1..][i] == columns[i + 1] && values[1..][i] == values[i + 1];
    if Parses(columns[0], values[0], parse) && AllParse(columns[1..], values[1..], parse) {
      forall i | 0 <= i < |columns|
        ensures Parses(columns[i], values[i], parse)
      {
        if i > 0 {
          assert Parses(columns[1..][i - 1], values[1..][i - 1], parse);
        }
      }
    }
  }

  /** On the holders of scanValues, assignValues never finds a wrong type: it succeeds exactly when every JSON
      field that has bytes parses, and otherwise reports a JSON field. */
  lemma {:induction false} FailsOnJsonOnly(st: State, columns: seq<Column>, values: seq<Holder>, parse: Parser)
    requires Complete(st.fields) && Scanned(columns, values)
    ensures var err := Run(st, columns, values, parse).err;
      && (err.None? <==> AllParse(columns, values, parse))
      && (err.Some? ==> err.value.BadJson? && err.value.c in columns)
    decreases |columns|
  {
    if columns != [] {
      ScannedTail(columns, values);
      AllParseTail(columns, values, parse);
      StoreOne(st, columns[0], values[0], parse);
      var next := Store(st, columns[0], values[0], parse);
      if next.Ok? {
        FailsOnJsonOnly(next.value, columns[1..], values[1..], parse);
      }
    }
  }

  // ---------------------------------------------------------------- every column sets its own field

  /** The holders of a column, in order. */
  function HoldersOf(c: Column, columns: seq<Column>, values: seq<Holder>): seq<Holder>
    requires |columns| <= |values|
    decreases |columns|
  {
    if columns == [] then []
    else (if columns[0] == c then [values[0]] else []) + HoldersOf(c, columns[1..], values[1..])
  }

  /** A field after its own holders, and no others, are stored in turn. */
  function Folded(c: Column, before: Field, hs: seq<Holder>, parse: Parser): Field
    requires !c.Other?
    decreases |hs|
  {
    if hs == [] then before
    else
      match Put(c, before, hs[0], parse)
      case Err(_) => before
      case Ok(f) => Folded(c, f, hs[1..], parse)
  }

  /** A known column sets its own field, by its own holders alone; a column that is absent leaves its field. */
  lemma {:induction false} OwnFieldOnly(st: State, columns: seq<Column>, values: seq<Holder>, parse: Parser, c: Column)
    requires Complete(st.fields) && |columns| <= |values| && !c.Other?
    requires Run(st, columns, values, parse).err.None?
    ensures Run(st, columns, values, parse).st.fields[c]
            == Folded(c, st.fields[c], HoldersOf(c, columns, values), parse)
    decreases |columns|
  {
    if columns != [] {
      var next := Store(st, columns[0], values[0], parse).value;
      OwnFieldOnly(next, columns[1..], values[1..], parse, c);
      var own := HoldersOf(c, columns, values);
      if columns[0] == c {
        assert own[0] == values[0] && own[1..] == HoldersOf(c, columns[1..], values[1..]);
      } else {
        assert own == HoldersOf(c, columns[1..], values[1..]);
        assert next.fields[c] == st.fields[c];
      }
    }
  }

  /** A null leaves a field as it was; the id alone is set to zero. */
  lemma NullKeeps(c: Column, before: Field, parse: Parser)
    requires !c.Other?
    ensures Put(c, before, Empty(ScanKind(c)), parse) == Ok(if c == ID then Is(IntVal(0)) else before)
  {
    SwitchesAgree(c);
  }

  lemma PutScalar(c: Column, before: Field, h: Holder, parse: Parser)
    requires !c.Other? && c != ID && SlotOf(c) != Json && KindOf(h) == ScanKind(c)
    ensures !h.Bytes? && !h.Unknown?
    ensures Put(c, before, h, parse) == Ok(if h.valid then Is(Payload(h)) else before)
  {
    SwitchesAgree(c);
  }

  /** Of several holders for a scalar field the last valid one is kept. */
  lemma {:induction false} LastValidWins(c: Column, before: Field, hs: seq<Holder>, h: Holder, nulls: nat,
                                         parse: Parser)
    requires !c.Other? && c != ID && SlotOf(c) != Json
    requires forall i :: 0 <= i < |hs| ==> KindOf(hs[i]) == ScanKind(c)
    requires KindOf(h) == ScanKind(c) && h.valid
    ensures Folded(c, before, hs + [h] + seq(nulls, _ => Empty(ScanKind(c))), parse) == Is(Payload(h))
    decreases |hs| + nulls
  {
    hide Put, ScanKind, SlotOf, KindOf;
    var all := hs + [h] + seq(nulls, _ => Empty(ScanKind(c)));
    if hs == [] {
      PutScalar(c, before, h, parse);
      assert all[0] == h && all[1..] == seq(nulls, _ => Empty(ScanKind(c)));
      NullsKeep(c, Is(Payload(h)), nulls, parse);
    } else {
      PutScalar(c, before, hs[0], parse);
      assert all[0] == hs[0] && all[1..] == hs[1..] + [h] + seq(nulls, _ => Empty(ScanKind(c)));
      var f := Put(c, before, hs[0], parse).value;
      LastValidWins(c, f, hs[1..], h, nulls, parse);
    }
  }

  lemma {:induction false} NullsKeep(c: Column, before: Field, nulls: nat, parse: Parser)
    requires !c.Other? && c != ID
    ensures Folded(c, before, seq(nulls, _ => Empty(ScanKind(c))), parse) == before
  {
    if nulls > 0 {
      var hs := seq(nulls, _ => Empty(ScanKind(c)));
      assert hs[1..] == seq(nulls - 1, _ => Empty(ScanKind(c)));
      NullKeeps(c, before, parse);
      NullsKeep(c, before, nulls - 1, parse);
    }
  }

  // ---------------------------------------------------------------- decoding one row of the table

  /** The holders hold the cells of one row, column by column. */
  ghost predicate HoldsRow(columns: seq<Column>, values: seq<Holder>, row: Column -> Cell) {
    |columns| <= |values| && forall i :: 0 <= i < |columns| ==>
        Fill(ScanKind(columns[i]), row(columns[i])) == Some(values[i])
  }

  /** What a cell decodes to in a new entity. */
  function Decoded(c: Column, cell: Cell, parse: Parser): Field
    requires !c.Other?
  {
    match Fill(ScanKind(c), cell)
    case None => Zero(c)
    case Some(h) => (match Put(c, Zero(c), h, parse) case Err(_) => Zero(c) case Ok(f) => f)
  }

  lemma NullDecodes(c: Column, parse: Parser)
    requires !c.Other?
    ensures Decoded(c, Null, parse) == Zero(c)
  {
    SwitchesAgree(c);
    NullKeeps(c, Zero(c), parse);
  }

  lemma PutTwice(c: Column, h: Holder, parse: Parser)
    requires !c.Other?
    ensures Put(c, Zero(c), h, parse).Ok? ==>
      Put(c, Put(c, Zero(c), h, parse).value, h, parse) == Put(c, Zero(c), h, parse)
  {
    SwitchesAgree(c);
    if h.Bytes? && h.bytes != "" && parse(h.bytes).Some? && parse(h.bytes).value.Object? {
      var m := parse(h.bytes).value.entries;
      assert map[] + m == m && m + m == m;
    }
  }

  lemma {:induction false} SameHolders(c: Column, columns: seq<Column>, values: seq<Holder>, row: Column -> Cell)
    requires HoldsRow(columns, values, row)
    ensures forall h :: h in HoldersOf(c, columns, values) ==> Fill(ScanKind(c), row(c)) == Some(h)
    ensures HoldersOf(c, columns, values) == [] <==> c !in columns
    decreases |columns|
  {
    if columns != [] {
      assert Fill(ScanKind(columns[0]), row(columns[0])) == Some(values[0]);
      assert HoldsRow(columns[1..], values[1..], row) by {
        assert forall i :: 0 <= i < |columns| - 1 ==>
            columns[1..][i] == columns[i + 1] && values[1..][i] == values[i + 1];
      }
      SameHolders(c, columns[1..], values[1..], row);
      assert columns == [columns[0]] + columns[1..];
    }
  }

  lemma {:induction false} FoldSame(c: Column, h: Holder, hs: seq<Holder>, parse: Parser)
    requires !c.Other? && Put(c, Zero(c), h, parse).Ok?
    requires forall x :: x in hs ==> x == h
    ensures Folded(c, Put(c, Zero(c), h, parse).value, hs, parse) == Put(c, Zero(c), h, parse).value
    decreases |hs|
  {
    if hs != [] {
      PutTwice(c, h, parse);
      assert hs[0] in hs;
      assert forall x :: x in hs[1..] ==> x in hs;
      FoldSame(c, h, hs[1..], parse);
    }
  }

  lemma FoldOfRow(c: Column, hs: seq<Holder>, cell: Cell, parse: Parser)
    requires !c.Other?
    requires forall h :: h in hs ==> Fill(ScanKind(c), cell) == Some(h)
    ensures Folded(c, Zero(c), hs, parse) == if hs == [] then Zero(c) else Decoded(c, cell, parse)
  {
    if hs != [] {
      var h := hs[0];
      assert h in hs;
      if Put(c, Zero(c), h, parse).Ok? {
        assert forall x :: x in hs[1..] ==> x in hs;
        FoldSame(c, h, hs[1..], parse);
      }
    }
  }

  lemma RowScanned(columns: seq<Column>, values: seq<Holder>, row: Column -> Cell)
    requires HoldsRow(columns, values, row)
    ensures Scanned(columns, values)
  {
    forall i | 0 <= i < |columns|
      ensures KindOf(values[i]) == ScanKind(columns[i])
    {
      FillKeepsKind(ScanKind(columns[i]), row(columns[i]));
    }
  }

  /** A new entity decodes a row to the cells of the columns selected, each in its own field, and to zero values
      elsewhere. Neither the order of the columns, nor repeating some, nor adding unknown ones makes a difference. */
  lemma RowDecodes(columns: seq<Column>, values: seq<Holder>, row: Column -> Cell, st: State, parse: Parser, c: Column)
    requires HoldsRow(columns, values, row) && AllParse(columns, values, parse) && !c.Other?
    requires Complete(st.fields) && forall x: Column :: !x.Other? ==> st.fields[x] == Zero(x)
    ensures var r := Run(st, columns, values, parse);
      r.err.None? && r.st.fields[c] == if c in columns then Decoded(c, row(c), parse) else Zero(c)
  {
    RowScanned(columns, values, row);
    FailsOnJsonOnly(st, columns, values, parse);
    OwnFieldOnly(st, columns, values, parse, c);
    SameHolders(c, columns, values, row);
    FoldOfRow(c, HoldersOf(c, columns, values), row(c), parse);
  }

  /** Of two documents stored in one JSON field the entries of both are kept, those of the later where they clash; a
      null makes the field nil; no bytes leave it alone. */
  lemma JsonMerges(c: Column, m: map<string, string>, bytes: string, parse: Parser)
    requires SlotOf(c) == Json && !c.Other?
    ensures Put(c, Is(JsonVal(m)), Bytes(""), parse) == Ok(Is(JsonVal(m)))
    ensures bytes != "" && parse(bytes) == Some(NullDocument) ==> Put(c, Is(JsonVal(m)), Bytes(bytes), parse) == Ok(Nil)
    ensures bytes != "" && parse(bytes).Some? && parse(bytes).value.Object? ==>
      var n := parse(bytes).value.entries;
      && Put(c, Nil, Bytes(bytes), parse) == Ok(Is(JsonVal(n)))
      && exists both ::
           && Put(c, Is(JsonVal(m)), Bytes(bytes), parse) == Ok(Is(JsonVal(both)))
           && (forall k :: k in both <==> k in m || k in n)
           && (forall k :: k in both ==> both[k] == if k in n then n[k] else m[k])
  {
    if bytes != "" && parse(bytes).Some? && parse(bytes).value.Object? {
      var n := parse(bytes).value.entries;
      assert map[] + n == n;
      assert Put(c, Is(JsonVal(m)), Bytes(bytes), parse) == Ok(Is(JsonVal(m + n)));
    }
  }

  /** An unknown column of a row is kept as its cell. */
  lemma UnknownKeepsCell(columns: seq<Column>, values: seq<Holder>, row: Column -> Cell, name: string)
    requires HoldsRow(columns, values, row)
    ensures forall h :: h in HoldersOf(Other(name), columns, values) ==> h == Unknown(row(Other(name)))
  {
    SameHolders(Other(name), columns, values, row);
  }

  function SelectedAfter(selected: map<string, Holder>, c: Column, h: Holder): map<string, Holder> {
    if c.Other? then selected[c.name := h] else selected
  }

  /** Storing the first holder, and then the others. */
  lemma FirstStored(st: State, columns: seq<Column>, values: seq<Holder>, parse: Parser) returns (next: State)
    requires Complete(st.fields) && 0 < |columns| <= |values| && Run(st, columns, values, parse).err.None?
    ensures Complete(next.fields) && next.selected == SelectedAfter(st.selected, columns[0], values[0])
    ensures Run(next, columns[1..], values[1..], parse) == Run(st, columns, values, parse)
  {
    hide Put;
    next := Store(st, columns[0], values[0], parse).value;
  }

  lemma HoldersHead(c: Column, columns: seq<Column>, values: seq<Holder>)
    requires 0 < |columns| <= |values|
    ensures HoldersOf(c, columns, values)
            == (if columns[0] == c then [values[0]] else []) + HoldersOf(c, columns[1..], values[1..])
  {
  }

  /** Unknown columns are kept under their names, the last of a name winning. */
  lemma {:induction false} UnknownAreSelected(st: State, columns: seq<Column>, values: seq<Holder>, parse: Parser,
                                              name: string)
    requires Complete(st.fields) && |columns| <= |values| && Run(st, columns, values, parse).err.None?
    ensures var own := HoldersOf(Other(name), columns, values);
      var selected := Run(st, columns, values, parse).st.selected;
      && (name in selected <==> name in st.selected || own != [])
      && (name in selected ==> selected[name] == if own == [] then st.selected[name] else own[|own| - 1])
    decreases |columns|
  {
    if columns != [] {
      hide Run, Store, HoldersOf, Complete;
      var next := FirstStored(st, columns, values, parse);
      UnknownAreSelected(next, columns[1..], values[1..], parse, name);
      HoldersHead(Other(name), columns, values);
    }
  }
}
