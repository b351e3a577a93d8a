// The unique keys of the catalog's own tables, and exactly when a new row would break one.
module CatalogKeys {
  import opened Wrappers
  import opened Values
  import opened Memory
  import opened CatalogRows
  import opened CatalogState

  const TABLES_KEYS: seq<UniqueKey> := [UniqueKey("ferrite_tables_pkey", [0]),
    UniqueKey("ferrite_tables_name_key", [1, 2])]
  const COLUMNS_KEYS: seq<UniqueKey> := [UniqueKey("ferrite_columns_pkey", [0, 1]),
    UniqueKey("ferrite_columns_name_key", [0, 2])]
  const INDEXES_KEYS: seq<UniqueKey> := [UniqueKey("ferrite_indexes_pkey", [0, 3]),
    UniqueKey("ferrite_indexes_name_key", [2, 3])]

  lemma {:induction false} ExtractOne(row: Row, a: nat)
    requires a < |row| && row[a] != Null
    ensures Extract([a], row) == Some([row[a]])
  {
    assert [a][..0] == [];
    assert Extract([], row) == Some([]);
    assert [] + [row[a]] == [row[a]];
  }

  lemma {:induction false} ExtractTwo(row: Row, a: nat, b: nat)
    requires a < |row| && b < |row| && row[a] != Null && row[b] != Null
    ensures Extract([a, b], row) == Some([row[a], row[b]])
  {
    ExtractOne(row, a);
    assert [a, b][..1] == [a];
    assert [row[a]] + [row[b]] == [row[a], row[b]];
  }

  lemma {:induction false} ClashesTwo(row: Row, existing: Row, name: string, a: nat, b: nat)
    requires a < |row| && b < |row| && row[a] != Null && row[b] != Null
    requires a < |existing| && b < |existing| && existing[a] != Null && existing[b] != Null
    ensures Clashes(row, existing, UniqueKey(name, [a, b])) <==> row[a] == existing[a] && row[b] == existing[b]
  {
    ExtractTwo(row, a, b);
    ExtractTwo(existing, a, b);
    var x, y := [row[a], row[b]], [existing[a], existing[b]];
    assert x == y <==> x[0] == y[0] && x[1] == y[1];
  }

  lemma {:induction false} ClashesOne(row: Row, existing: Row, name: string, a: nat)
    requires a < |row| && row[a] != Null && a < |existing| && existing[a] != Null
    ensures Clashes(row, existing, UniqueKey(name, [a])) <==> row[a] == existing[a]
  {
    ExtractOne(row, a);
    ExtractOne(existing, a);
    var x, y := [row[a]], [existing[a]];
    assert x == y <==> x[0] == y[0];
  }

  // ------------------------------------------------------------------ tables

  lemma {:induction false} TableRowsClash(t: TableRecord, u: TableRecord)
    ensures (exists k :: 0 <= k < |TABLES_KEYS| && Clashes(TableRow(t), TableRow(u), TABLES_KEYS[k]))
            <==> t.id == u.id || (t.schema == u.schema && t.name == u.name)
  {
    ClashesOne(TableRow(t), TableRow(u), "ferrite_tables_pkey", 0);
    ClashesTwo(TableRow(t), TableRow(u), "ferrite_tables_name_key", 1, 2);
    assert TABLES_KEYS[0] == UniqueKey("ferrite_tables_pkey", [0]);
    assert TABLES_KEYS[1] == UniqueKey("ferrite_tables_name_key", [1, 2]);
  }

  lemma {:induction false} TableFresh(c: Cache, at: map<nat, RowId>, rows: Rows, id: nat, schema: string, name: string)
    requires TablesStored(c.byId, at, rows) && Named(c) && id !in c.byId && (schema, name) !in c.byName
    ensures !Clash(rows, TableRow(TableRecord(id, schema, name)), TABLES_KEYS)
  {
    var t := TableRecord(id, schema, name);
    forall r | r in rows ensures !exists k :: 0 <= k < |TABLES_KEYS| && Clashes(TableRow(t), rows[r], TABLES_KEYS[k]) {
      assert TableRowOwned(at, rows, r);
      var other := ObjectId(rows[r], 0).value;
      assert TableAt(c.byId, at, rows, other) && NameOk(c, other);
      TableRowsClash(t, TableRecord(other, c.byId[other].schema, c.byId[other].name));
    }
  }

  // ----------------------------------------------------------------- columns

  lemma {:induction false} ColumnRowsClash(host: Host, a: ColumnRecord, b: ColumnRecord, x: Row, y: Row)
    requires ColumnRow(host, a) == Some(x) && ColumnRow(host, b) == Some(y)
    ensures (exists k :: 0 <= k < |COLUMNS_KEYS| && Clashes(x, y, COLUMNS_KEYS[k]))
            <==> a.table == b.table && (a.position == b.position || a.def.name == b.def.name)
  {
    assert x[0] == Int8(a.table) && x[1] == Int4(a.position) && x[2] == Text(a.def.name);
    assert y[0] == Int8(b.table) && y[1] == Int4(b.position) && y[2] == Text(b.def.name);
    ClashesTwo(x, y, "ferrite_columns_pkey", 0, 1);
    ClashesTwo(x, y, "ferrite_columns_name_key", 0, 2);
    assert COLUMNS_KEYS[0] == UniqueKey("ferrite_columns_pkey", [0, 1]);
    assert COLUMNS_KEYS[1] == UniqueKey("ferrite_columns_name_key", [0, 2]);
  }

  ghost predicate NewName(columns: seq<ColumnDef>, name: string) {
    forall i :: 0 <= i < |columns| ==> columns[i].name != name
  }

  lemma {:induction false} ColumnFresh(host: Host, byId: map<nat, Entry>, at: map<(nat, nat), RowId>, rows: Rows,
                                       id: nat, def: ColumnDef, row: Row)
    requires ColumnsStored(host, byId, at, rows) && id in byId && NewName(byId[id].columns, def.name)
    requires ColumnRow(host, ColumnRecord(id, |byId[id].columns|, def)) == Some(row)
    ensures !Clash(rows, row, COLUMNS_KEYS)
  {
    forall r | r in rows ensures !exists k :: 0 <= k < |COLUMNS_KEYS| && Clashes(row, rows[r], COLUMNS_KEYS[k]) {
      assert ColumnRowOwned(at, rows, r);
      var k := (ObjectId(rows[r], 0).value, Ordinal(rows[r], 1).value);
      assert ColumnAt(host, byId, at, rows, k);
      ColumnRowsClash(host, ColumnRecord(id, |byId[id].columns|, def), ColumnRecord(k.0, k.1, byId[k.0].columns[k.1]),
        row, rows[r]);
    }
  }

  // ----------------------------------------------------------------- indexes

  lemma {:induction false} IndexRowsClash(a: IndexRecord, b: IndexRecord, x: Row, y: Row)
    requires IndexRow(a) == Some(x) && IndexRow(b) == Some(y)
    ensures (exists k :: 0 <= k < |INDEXES_KEYS| && Clashes(x, y, INDEXES_KEYS[k]))
            <==> a.position == b.position && (a.id == b.id || a.part.name == b.part.name)
  {
    assert x[0] == Int8(a.id) && x[3] == Int4(a.position) && x[2] == Text(a.part.name);
    assert y[0] == Int8(b.id) && y[3] == Int4(b.position) && y[2] == Text(b.part.name);
    ClashesTwo(x, y, "ferrite_indexes_pkey", 0, 3);
    ClashesTwo(x, y, "ferrite_indexes_name_key", 2, 3);
    assert INDEXES_KEYS[0] == UniqueKey("ferrite_indexes_pkey", [0, 3]);
    assert INDEXES_KEYS[1] == UniqueKey("ferrite_indexes_name_key", [2, 3]);
  }

  // No index carries this name, in any schema.
  ghost predicate NameUnused(indexes: map<nat, IndexDef>, name: string) {
    forall x :: x in indexes ==> indexes[x].name != name
  }

  // The index being written is `d` so far; every other index has another name.
  lemma {:induction false} IndexFresh(indexes: map<nat, IndexDef>, at: map<(nat, nat), RowId>, rows: Rows,
                                      d: IndexDef, part: IndexPart, row: Row)
    requires IndexesStored(indexes, at, rows) && NameUnused(indexes - {d.id}, d.name) && part.name == d.name
    requires if d.columns == [] then d.id !in indexes else d.id in indexes && indexes[d.id] == d
    requires IndexRow(IndexRecord(d.id, |d.columns|, part)) == Some(row)
    ensures !Clash(rows, row, INDEXES_KEYS)
  {
    forall r | r in rows ensures !exists k :: 0 <= k < |INDEXES_KEYS| && Clashes(row, rows[r], INDEXES_KEYS[k]) {
      assert IndexRowOwned(at, rows, r);
      var k := (ObjectId(rows[r], 0).value, Ordinal(rows[r], 3).value);
      assert IndexAt(indexes, at, rows, k);
      assert k.0 != d.id ==> k.0 in indexes - {d.id};
      IndexRowsClash(IndexRecord(d.id, |d.columns|, part), IndexRecord(k.0, k.1, PartOf(indexes[k.0], k.1)), row,
        rows[r]);
    }
  }

  // A name used anywhere is refused, because the stored key does not mention the schema.
  lemma {:induction false} IndexTaken(indexes: map<nat, IndexDef>, at: map<(nat, nat), RowId>, rows: Rows, x: nat,
                                      id: nat, part: IndexPart, row: Row)
    requires IndexesStored(indexes, at, rows) && x in indexes && indexes[x].columns != []
             && indexes[x].name == part.name
    requires IndexRow(IndexRecord(id, 0, part)) == Some(row)
    ensures Clash(rows, row, INDEXES_KEYS)
  {
    assert HasIndexColumn(indexes, (x, 0));
    assert IndexAt(indexes, at, rows, (x, 0));
    var r := at[(x, 0)];
    IndexRowsClash(IndexRecord(id, 0, part), IndexRecord(x, 0, PartOf(indexes[x], 0)), row, rows[r]);
    var k :| 0 <= k < |INDEXES_KEYS| && Clashes(row, rows[r], INDEXES_KEYS[k]);
    assert r in rows && Clashes(row, rows[r], INDEXES_KEYS[k]);
  }
}
