// The catalog's in-memory index and the stored rows it must agree with.
module CatalogState {
  import opened Wrappers
  import opened Memory
  import opened CatalogRows

  const TABLES: TableId := 1
  const COLUMNS: TableId := 2
  const INDEXES: TableId := 3
  const FIRST_USER: TableId := 16
  const CATALOG_SCHEMA: string := "ferrite_catalog"

  datatype Entry = Entry(id: nat, schema: string, name: string, columns: seq<ColumnDef>)

  datatype IndexDef = IndexDef(id: nat, name: string, table: nat, columns: seq<string>, unique: bool)

  type Label = (string, string)

  datatype Cache = Cache(byId: map<nat, Entry>, byName: map<Label, nat>, indexes: map<nat, IndexDef>,
                         indexByName: map<Label, nat>, nextId: nat)

  // ------------------------------------------------------- the in-memory index

  const EMPTY: Cache := Cache(map[], map[], map[], map[], FIRST_USER)

  function Bump(c: Cache, id: nat): Cache { if id >= c.nextId then c.(nextId := id + 1) else c }

  function InsertTable(c: Cache, e: Entry): Cache {
    Bump(c, e.id).(byName := c.byName[(e.schema, e.name) := e.id], byId := c.byId[e.id := e])
  }

  function SchemaOf(c: Cache, table: nat): string { if table in c.byId then c.byId[table].schema else "" }

  function InsertIndex(c: Cache, def: IndexDef, schema: string): Cache {
    Bump(c, def.id).(indexByName := c.indexByName[(schema, def.name) := def.id], indexes := c.indexes[def.id := def])
  }

  function RemoveIndex(c: Cache, id: nat): Cache {
    if id !in c.indexes then c
    else
      var def := c.indexes[id];
      c.(indexes := c.indexes - {id}, indexByName := c.indexByName - {(SchemaOf(c, def.table), def.name)})
  }

  // A table with no indexes left: only its own entries go.
  function RemoveTable(c: Cache, id: nat): Cache {
    if id !in c.byId then c
    else c.(byId := c.byId - {id}, byName := c.byName - {(c.byId[id].schema, c.byId[id].name)})
  }

  // The name maps say what the entries say, and names are unique.
  ghost predicate Named(c: Cache) {
    && (forall id {:trigger NameOk(c, id)} :: id in c.byId ==> NameOk(c, id))
    && (forall k {:trigger LabelOk(c, k)} :: k in c.byName ==> LabelOk(c, k))
    && (forall x {:trigger IndexNameOk(c, x)} :: x in c.indexes ==> IndexNameOk(c, x))
    && (forall k {:trigger IndexLabelOk(c, k)} :: k in c.indexByName ==> IndexLabelOk(c, k))
  }

  ghost predicate NameOk(c: Cache, id: nat)
    requires id in c.byId
  {
    var e := c.byId[id];
    e.id == id && (e.schema, e.name) in c.byName && c.byName[(e.schema, e.name)] == id
  }

  ghost predicate LabelOk(c: Cache, k: Label)
    requires k in c.byName
  {
    var id := c.byName[k]; id in c.byId && (c.byId[id].schema, c.byId[id].name) == k
  }

  ghost predicate IndexNameOk(c: Cache, x: nat)
    requires x in c.indexes
  {
    var d := c.indexes[x];
    && d.id == x && d.table in c.byId && d.columns != []
    && (c.byId[d.table].schema, d.name) in c.indexByName && c.indexByName[(c.byId[d.table].schema, d.name)] == x
  }

  ghost predicate IndexLabelOk(c: Cache, k: Label)
    requires k in c.indexByName
  {
    var x := c.indexByName[k];
    x in c.indexes && c.indexes[x].table in c.byId && (c.byId[c.indexes[x].table].schema, c.indexes[x].name) == k
  }

  // Ids still to be given out are larger than all that are in use.
  ghost predicate Ahead(c: Cache) {
    && c.nextId >= FIRST_USER
    && (forall id :: id in c.byId ==> id < c.nextId)
    && (forall x :: x in c.indexes ==> x < c.nextId)
  }

  // The next id is the least that is ahead of those in use.
  ghost predicate Tight(c: Cache) {
    c.nextId == FIRST_USER || (c.nextId > 0 && (c.nextId - 1 in c.byId || c.nextId - 1 in c.indexes))
  }

  // Two indexes with the same entries have the same names.
  lemma {:induction false} NamesFollow(a: Cache, b: Cache)
    requires Named(a) && Named(b) && a.byId == b.byId && a.indexes == b.indexes
    ensures a.byName == b.byName && a.indexByName == b.indexByName
  {
    forall k | k in a.byName ensures k in b.byName && a.byName[k] == b.byName[k] {
      assert LabelOk(a, k) && NameOk(b, a.byName[k]);
    }
    forall k | k in b.byName ensures k in a.byName {
      assert LabelOk(b, k) && NameOk(a, b.byName[k]);
    }
    forall k | k in a.indexByName ensures k in b.indexByName && a.indexByName[k] == b.indexByName[k] {
      assert IndexLabelOk(a, k) && IndexNameOk(b, a.indexByName[k]);
    }
    forall k | k in b.indexByName ensures k in a.indexByName {
      assert IndexLabelOk(b, k) && IndexNameOk(a, b.indexByName[k]);
    }
  }

  // ----------------------------------------------------------- what is stored

  // Where each table, column and index column is stored.
  datatype Places = Places(tables: map<nat, RowId>, columns: map<(nat, nat), RowId>, indexes: map<(nat, nat), RowId>)

  ghost predicate TableAt(byId: map<nat, Entry>, at: map<nat, RowId>, rows: Rows, id: nat)
    requires id in byId && id in at
  {
    var e := byId[id];
    e.id == id && id < U32 && at[id] in rows && rows[at[id]] == TableRow(TableRecord(id, e.schema, e.name))
  }

  ghost predicate TableRowOwned(at: map<nat, RowId>, rows: Rows, r: RowId)
    requires r in rows
  {
    var id := ObjectId(rows[r], 0); id.Some? && id.value in at && at[id.value] == r
  }

  ghost predicate TablesStored(byId: map<nat, Entry>, at: map<nat, RowId>, rows: Rows) {
    && at.Keys == byId.Keys
    && (forall id {:trigger TableAt(byId, at, rows, id)} :: id in byId ==> TableAt(byId, at, rows, id))
    && (forall r {:trigger TableRowOwned(at, rows, r)} :: r in rows ==> TableRowOwned(at, rows, r))
  }

  ghost predicate DefOk(host: Host, def: ColumnDef) {
    def.default_.Some? && def.default_.value.Constant? ==> Representable(host, def.default_.value.value)
  }

  ghost predicate HasColumn(byId: map<nat, Entry>, k: (nat, nat)) { k.0 in byId && k.1 < |byId[k.0].columns| }

  ghost predicate ColumnAt(host: Host, byId: map<nat, Entry>, at: map<(nat, nat), RowId>, rows: Rows, k: (nat, nat))
    requires k in at
  {
    && HasColumn(byId, k) && DefOk(host, byId[k.0].columns[k.1])
    && at[k] in rows && ColumnRow(host, ColumnRecord(k.0, k.1, byId[k.0].columns[k.1])) == Some(rows[at[k]])
  }

  ghost predicate ColumnRowOwned(at: map<(nat, nat), RowId>, rows: Rows, r: RowId)
    requires r in rows
  {
    var id, p := ObjectId(rows[r], 0), Ordinal(rows[r], 1);
    id.Some? && p.Some? && (id.value, p.value) in at && at[(id.value, p.value)] == r
  }

  ghost predicate ColumnsStored(host: Host, byId: map<nat, Entry>, at: map<(nat, nat), RowId>, rows: Rows) {
    && (forall k: (nat, nat) {:trigger HasColumn(byId, k)} :: HasColumn(byId, k) ==> k in at)
    && (forall k {:trigger ColumnAt(host, byId, at, rows, k)} :: k in at ==> ColumnAt(host, byId, at, rows, k))
    && (forall r {:trigger ColumnRowOwned(at, rows, r)} :: r in rows ==> ColumnRowOwned(at, rows, r))
  }

  function PartOf(d: IndexDef, p: nat): IndexPart
    requires p < |d.columns|
  {
    IndexPart(d.name, d.table, d.unique, d.columns[p])
  }

  ghost predicate HasIndexColumn(indexes: map<nat, IndexDef>, k: (nat, nat)) {
    k.0 in indexes && k.1 < |indexes[k.0].columns|
  }

  ghost predicate IndexAt(indexes: map<nat, IndexDef>, at: map<(nat, nat), RowId>, rows: Rows, k: (nat, nat))
    requires k in at
  {
    && HasIndexColumn(indexes, k) && k.0 < U32 && indexes[k.0].table < U32
    && at[k] in rows && IndexRow(IndexRecord(k.0, k.1, PartOf(indexes[k.0], k.1))) == Some(rows[at[k]])
  }

  ghost predicate IndexRowOwned(at: map<(nat, nat), RowId>, rows: Rows, r: RowId)
    requires r in rows
  {
    var id, p := ObjectId(rows[r], 0), Ordinal(rows[r], 3);
    id.Some? && p.Some? && (id.value, p.value) in at && at[(id.value, p.value)] == r
  }

  ghost predicate IndexesStored(indexes: map<nat, IndexDef>, at: map<(nat, nat), RowId>, rows: Rows) {
    && (forall k: (nat, nat) {:trigger HasIndexColumn(indexes, k)} :: HasIndexColumn(indexes, k) ==> k in at)
    && (forall k {:trigger IndexAt(indexes, at, rows, k)} :: k in at ==> IndexAt(indexes, at, rows, k))
    && (forall r {:trigger IndexRowOwned(at, rows, r)} :: r in rows ==> IndexRowOwned(at, rows, r))
  }

  // The stored rows describe exactly these tables and indexes.
  ghost predicate Stored(host: Host, byId: map<nat, Entry>, indexes: map<nat, IndexDef>, at: Places, t: Tables) {
    && TABLES in t && COLUMNS in t && INDEXES in t
    && TablesStored(byId, at.tables, t[TABLES])
    && ColumnsStored(host, byId, at.columns, t[COLUMNS])
    && IndexesStored(indexes, at.indexes, t[INDEXES])
  }
}
