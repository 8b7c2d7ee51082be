/** Reading back the rows of a bulk creation gives the nodes it returns (AccountCreateBulk.Save of
    backend/ent/account_create.go, with scanValues and assignValues of backend/ent/account.go). */
module BulkReadBack {
  import opened Common
  import opened AccountSchema
  import opened RowCodec
  import opened RowCodecLaws
  import opened AccountMutations
  import opened CreateSpecs
  import opened CreateReadBack
  import opened BulkCreate

  /** The foreign keys that a row writes. */
  function KeysIn(row: Row): OneEdges {
    OneEdges(OneChange(row.proxy, false), OneChange(row.parent, false))
  }

  lemma SavedAlike(values: map<Column, Value>, one: OneEdges, row: Row, id: int, c: Column)
    requires row.proxy == one.proxy.id && row.parent == one.parent.id
    ensures SavedField(values, KeysIn(row), id, c) == FieldAfter(values, one, Some(id), c)
  {
  }

  /** If builder k's node is saved, reading its row back through any list of columns gives the fields of the node. */
  lemma BulkReadsBack(b: BulkSave, k: nat, id: int, marshal: Marshaller, parse: Parser, columns: seq<Column>,
                      holders: seq<Holder>, st: State, c: Column)
    requires b.Ready() && k < |b.builders| && b.HoldsNode(k) && b.answer.value[k] == Some(id)
    requires Typed(b.builders[k].mutation.values) && RoundTrips(marshal, parse) && c in columns && !c.Other?
    requires var row := b.Rows(|b.builders|)[k];
      HoldsRow(columns, holders, InsertedRow(row.fields, KeysIn(row), id, marshal))
    requires Complete(st.fields) && forall x: Column :: !x.Other? ==> st.fields[x] == Zero(x)
    ensures var r := Run(st, columns, holders, parse);
      r.err.None? && c in b.nodes[k].fields && r.st.fields[c] == b.nodes[k].fields[c]
  {
    hide Run, HoldsRow, InsertedCell, SavedField, FieldAfter, Scalars, Typed, RoundTrips;
    var m, row := b.builders[k].mutation, b.Rows(|b.builders|)[k];
    b.RowsAre(|b.builders|, k);
    var keys := KeysIn(row);
    AllInsertedParse(row.fields, m.values, keys, id, marshal, parse, columns, holders);
    RowDecodes(columns, holders, InsertedRow(row.fields, keys, id, marshal), st, parse, c);
    FieldReadsBack(row.fields, m.values, keys, id, marshal, parse, c);
    SavedAlike(m.values, m.one, row, id, c);
  }
}
