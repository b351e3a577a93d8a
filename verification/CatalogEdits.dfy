// Each stored row written or deleted, as a change of what the rows describe.
module CatalogEdits {
  import opened Wrappers
  import opened Values
  import opened Memory
  import opened CatalogRows
  import opened CatalogState

  lemma {:induction false} TableRecorded(byId: map<nat, Entry>, at: map<nat, RowId>, rows: Rows, e: Entry, r: RowId)
    requires TablesStored(byId, at, rows) && e.id !in byId && e.id < U32 && r !in rows
    ensures TablesStored(byId[e.id := e], at[e.id := r], Store(rows, r, TableRow(TableRecord(e.id, e.schema, e.name))))
  {
    var byId', at', rows' := byId[e.id := e], at[e.id := r],
      Store(rows, r, TableRow(TableRecord(e.id, e.schema, e.name)));
    forall id | id in byId' ensures TableAt(byId', at', rows', id) {
      assert id != e.id ==> TableAt(byId, at, rows, id);
    }
    forall x | x in rows' ensures TableRowOwned(at', rows', x) {
      assert x != r ==> TableRowOwned(at, rows, x);
    }
  }

  // An entry without columns needs no column rows.
  lemma {:induction false} NoColumnsYet(host: Host, byId: map<nat, Entry>, at: map<(nat, nat), RowId>, rows: Rows,
                                        e: Entry)
    requires ColumnsStored(host, byId, at, rows) && e.id !in byId && e.columns == []
    ensures ColumnsStored(host, byId[e.id := e], at, rows)
  {
    var byId' := byId[e.id := e];
    forall k: (nat, nat) | HasColumn(byId', k) ensures k in at {
      assert HasColumn(byId, k);
    }
    forall k | k in at ensures ColumnAt(host, byId', at, rows, k) {
      assert ColumnAt(host, byId, at, rows, k);
    }
  }

  function WithColumn(e: Entry, def: ColumnDef): Entry { e.(columns := e.columns + [def]) }

  lemma {:induction false} ColumnStays(host: Host, byId: map<nat, Entry>, byId': map<nat, Entry>,
                                       at: map<(nat, nat), RowId>, at': map<(nat, nat), RowId>, rows: Rows,
                                       rows': Rows, k: (nat, nat))
    requires k in at && ColumnAt(host, byId, at, rows, k) && k in at' && at'[k] == at[k]
    requires at[k] in rows' && rows'[at[k]] == rows[at[k]]
    requires k.0 in byId' && byId[k.0].columns <= byId'[k.0].columns
    ensures ColumnAt(host, byId', at', rows', k)
  {
    assert byId'[k.0].columns[k.1] == byId[k.0].columns[k.1];
  }

  lemma {:induction false} ColumnKnown(host: Host, byId: map<nat, Entry>, at: map<(nat, nat), RowId>, rows: Rows,
                                       k: (nat, nat))
    requires ColumnsStored(host, byId, at, rows) && k in at
    ensures HasColumn(byId, k)
  {
    assert ColumnAt(host, byId, at, rows, k);
  }

  lemma {:induction false} ColumnRecorded(host: Host, byId: map<nat, Entry>, at: map<(nat, nat), RowId>, rows: Rows,
                                          id: nat, def: ColumnDef, r: RowId, row: Row)
    requires ColumnsStored(host, byId, at, rows) && id in byId && id < U32 && DefOk(host, def) && r !in rows
    requires ColumnRow(host, ColumnRecord(id, |byId[id].columns|, def)) == Some(row)
    ensures var p: nat := |byId[id].columns|;
            ColumnsStored(host, byId[id := WithColumn(byId[id], def)], at[(id, p) := r], Store(rows, r, row))
  {
    var p: nat := |byId[id].columns|;
    assert (id, p) !in at by {
      if (id, p) in at {
        ColumnKnown(host, byId, at, rows, (id, p));
      }
    }
    var byId', at', rows' := byId[id := WithColumn(byId[id], def)], at[(id, p) := r], Store(rows, r, row);
    forall k: (nat, nat) | HasColumn(byId', k) ensures k in at' {
      assert k != (id, p) ==> HasColumn(byId, k);
    }
    forall k | k in at' ensures ColumnAt(host, byId', at', rows', k) {
      if k != (id, p) {
        assert ColumnAt(host, byId, at, rows, k);
        ColumnStays(host, byId, byId', at, at', rows, rows', k);
      }
    }
    forall x | x in rows' ensures ColumnRowOwned(at', rows', x) {
      assert x != r ==> ColumnRowOwned(at, rows, x);
    }
  }

  lemma {:induction false} TablesUntouched(byId: map<nat, Entry>, at: map<nat, RowId>, rows: Rows, id: nat,
                                           def: ColumnDef)
    requires TablesStored(byId, at, rows) && id in byId
    ensures TablesStored(byId[id := WithColumn(byId[id], def)], at, rows)
  {
    var byId' := byId[id := WithColumn(byId[id], def)];
    forall x | x in byId' ensures TableAt(byId', at, rows, x) {
      assert TableAt(byId, at, rows, x);
    }
  }

  function WithIndexColumn(d: IndexDef, column: string): IndexDef { d.(columns := d.columns + [column]) }

  lemma {:induction false} IndexKnown(indexes: map<nat, IndexDef>, at: map<(nat, nat), RowId>, rows: Rows,
                                      k: (nat, nat))
    requires IndexesStored(indexes, at, rows) && k in at
    ensures HasIndexColumn(indexes, k)
  {
    assert IndexAt(indexes, at, rows, k);
  }

  lemma {:induction false} IndexRecorded(indexes: map<nat, IndexDef>, at: map<(nat, nat), RowId>, rows: Rows,
                                         d: IndexDef, column: string, r: RowId, row: Row)
    requires IndexesStored(indexes, at, rows) && d.id < U32 && d.table < U32 && r !in rows
    requires if d.columns == [] then d.id !in indexes else d.id in indexes && indexes[d.id] == d
    requires var x := WithIndexColumn(d, column);
             IndexRow(IndexRecord(d.id, |d.columns|, PartOf(x, |d.columns|))) == Some(row)
    ensures var p: nat := |d.columns|;
            IndexesStored(indexes[d.id := WithIndexColumn(d, column)], at[(d.id, p) := r], Store(rows, r, row))
  {
    var p: nat := |d.columns|;
    var d' := WithIndexColumn(d, column);
    assert (d.id, p) !in at by {
      if (d.id, p) in at {
        IndexKnown(indexes, at, rows, (d.id, p));
      }
    }
    var indexes', at', rows' := indexes[d.id := d'], at[(d.id, p) := r], Store(rows, r, row);
    forall k: (nat, nat) | HasIndexColumn(indexes', k) ensures k in at' {
      assert k != (d.id, p) ==> HasIndexColumn(indexes, k);
    }
    forall k | k in at' ensures IndexAt(indexes', at', rows', k) {
      if k != (d.id, p) {
        assert IndexAt(indexes, at, rows, k);
        assert k.0 == d.id ==> PartOf(d', k.1) == PartOf(d, k.1);
      }
    }
    forall x | x in rows' ensures IndexRowOwned(at', rows', x) {
      assert x != r ==> IndexRowOwned(at, rows, x);
    }
  }

  // ------------------------------------------------------------- deleting

  // What `delete_rows` leaves.
  ghost function Without(rows: Rows, id: nat): Rows {
    map r | r in rows && ObjectId(rows[r], 0) != Some(id) :: rows[r]
  }

  lemma {:induction false} TableErased(byId: map<nat, Entry>, at: map<nat, RowId>, rows: Rows, id: nat)
    requires TablesStored(byId, at, rows)
    ensures TablesStored(byId - {id}, at - {id}, Without(rows, id))
  {
    var byId', at', rows' := byId - {id}, at - {id}, Without(rows, id);
    forall x | x in byId' ensures TableAt(byId', at', rows', x) {
      assert TableAt(byId, at, rows, x);
      assert rows[at[x]][0] == Int8(x);
    }
    forall r | r in rows' ensures TableRowOwned(at', rows', r) {
      assert TableRowOwned(at, rows, r);
    }
  }

  ghost function WithoutOwner(at: map<(nat, nat), RowId>, id: nat): map<(nat, nat), RowId> {
    map k | k in at && k.0 != id :: at[k]
  }

  lemma {:induction false} ColumnsErased(host: Host, byId: map<nat, Entry>, at: map<(nat, nat), RowId>, rows: Rows,
                                         id: nat)
    requires ColumnsStored(host, byId, at, rows)
    ensures ColumnsStored(host, byId - {id}, WithoutOwner(at, id), Without(rows, id))
  {
    var byId', at', rows' := byId - {id}, WithoutOwner(at, id), Without(rows, id);
    forall k: (nat, nat) | HasColumn(byId', k) ensures k in at' {
      assert HasColumn(byId, k);
    }
    forall k | k in at' ensures ColumnAt(host, byId', at', rows', k) {
      assert ColumnAt(host, byId, at, rows, k);
      assert rows[at[k]][0] == Int8(k.0);
    }
    forall r | r in rows' ensures ColumnRowOwned(at', rows', r) {
      assert ColumnRowOwned(at, rows, r);
    }
  }

  lemma {:induction false} IndexErased(indexes: map<nat, IndexDef>, at: map<(nat, nat), RowId>, rows: Rows, id: nat)
    requires IndexesStored(indexes, at, rows)
    ensures IndexesStored(indexes - {id}, WithoutOwner(at, id), Without(rows, id))
  {
    var indexes', at', rows' := indexes - {id}, WithoutOwner(at, id), Without(rows, id);
    forall k: (nat, nat) | HasIndexColumn(indexes', k) ensures k in at' {
      assert HasIndexColumn(indexes, k);
    }
    forall k | k in at' ensures IndexAt(indexes', at', rows', k) {
      assert IndexAt(indexes, at, rows, k);
      assert rows[at[k]][0] == Int8(k.0);
    }
    forall r | r in rows' ensures IndexRowOwned(at', rows', r) {
      assert IndexRowOwned(at, rows, r);
    }
  }
}
