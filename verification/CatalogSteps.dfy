// What each piece of data definition does to the agreement between the in-memory index and the
// stored rows, and exactly when it is allowed.
module CatalogSteps {
  import opened Wrappers
  import opened Values
  import opened Memory
  import opened CatalogRows
  import opened CatalogState
  import opened CatalogEdits
  import opened CatalogNames
  import opened CatalogKeys
  import opened CatalogReload

  datatype CatalogError =
    | Rejected
    | PermissionDenied
    | TableMissing
    | ColumnNotFound
    | ObjectAlreadyExists
    | InvalidDefinition
    | IdsExhausted
    | Failed(error: StorageError)

  // The index, the stored rows and the storage's own tables all tell the same story.
  ghost predicate Agrees(host: Host, c: Cache, at: Places, t: Tables) {
    Stored(host, c.byId, c.indexes, at, t) && Named(c) && Ahead(c) && t.Keys == c.byId.Keys
  }

  ghost predicate SameContents(a: Cache, b: Cache) {
    a.byId == b.byId && a.byName == b.byName && a.indexes == b.indexes && a.indexByName == b.indexByName
  }

  // User tables other than `id` keep their rows.
  ghost predicate UserDataKept(before: Tables, after: Tables, id: TableId) {
    forall x :: x in before && x >= FIRST_USER && x != id ==> x in after && after[x] == before[x]
  }

  lemma {:induction false} AllAgree(host: Host, c: Cache, at: Places, t: Tables, byId: map<nat, Entry>,
                                    indexes: map<nat, IndexDef>)
    requires c.byId == byId && c.indexes == indexes && Named(c) && Ahead(c) && t.Keys == byId.Keys
    requires TABLES in t && TablesStored(byId, at.tables, t[TABLES])
    requires COLUMNS in t && ColumnsStored(host, byId, at.columns, t[COLUMNS])
    requires INDEXES in t && IndexesStored(indexes, at.indexes, t[INDEXES])
    ensures Agrees(host, c, at, t)
  {
  }

  lemma {:induction false} AgreesAgain(host: Host, c: Cache, c': Cache, at: Places, t: Tables)
    requires Agrees(host, c, at, t) && SameContents(c', c) && Named(c') && Ahead(c')
    ensures Agrees(host, c', at, t)
  {
  }

  // --------------------------------------------------------------- conditions

  ghost predicate NamesOk(columns: seq<ColumnDef>) {
    forall i :: 0 <= i < |columns| ==> columns[i].name != "" && NewName(columns[..i], columns[i].name)
  }

  ghost predicate DefaultFits(def: ColumnDef) {
    match def.default_
    case None => true
    case Some(CurrentTimestamp) => true
    case Some(Constant(v)) => v == Null || TypeOf(v) == Some(def.dataType)
  }

  ghost predicate ColumnFits(position: nat, def: ColumnDef) { position <= MAX_ORDINAL && DefaultFits(def) }

  ghost predicate ColumnsFit(columns: seq<ColumnDef>) { forall i :: 0 <= i < |columns| ==> ColumnFits(i, columns[i]) }

  // Values the engine's types can hold.
  ghost predicate Defs(host: Host, columns: seq<ColumnDef>) {
    forall i :: 0 <= i < |columns| ==> DefOk(host, columns[i])
  }

  ghost predicate CanCreateTable(c: Cache, schema: string, name: string, columns: seq<ColumnDef>) {
    && schema != "" && name != "" && schema != CATALOG_SCHEMA && columns != [] && NamesOk(columns)
    && (schema, name) !in c.byName && c.nextId + 1 < U32 && ColumnsFit(columns)
  }

  ghost predicate CanAddColumn(c: Cache, table: nat, def: ColumnDef) {
    && table >= FIRST_USER && table in c.byId && def.name != "" && NewName(c.byId[table].columns, def.name)
    && ColumnFits(|c.byId[table].columns|, def)
  }

  ghost predicate IndexColumnsOk(known: seq<ColumnDef>, columns: seq<string>) {
    forall i :: 0 <= i < |columns| ==> !NewName(known, columns[i]) && columns[i] !in columns[..i]
  }

  // The stored key on index names does not mention the schema: a name in use anywhere is refused,
  // although the check before it looks in one schema only.
  ghost predicate CanCreateIndex(c: Cache, name: string, table: nat, columns: seq<string>) {
    && name != "" && columns != [] && table >= FIRST_USER && table in c.byId
      && IndexColumnsOk(c.byId[table].columns, columns)
    && NameUnused(c.indexes, name) && c.nextId + 1 < U32 && |columns| <= MAX_ORDINAL + 1
  }

  // What the check before the first write asks for.
  ghost predicate IndexAccepted(c: Cache, name: string, table: nat, columns: seq<string>) {
    && name != "" && columns != [] && table >= FIRST_USER && table in c.byId
      && IndexColumnsOk(c.byId[table].columns, columns)
    && (c.byId[table].schema, name) !in c.indexByName
  }

  ghost predicate BearsElsewhere(c: Cache, x: nat, name: string, schema: string) {
    x in c.indexes && c.indexes[x].name == name && SchemaOf(c, c.indexes[x].table) != schema
  }

  // An index that passes the check is refused later exactly when one of another schema has its name.
  lemma {:induction false} RefusedLater(c: Cache, name: string, table: nat, columns: seq<string>)
    requires Named(c) && IndexAccepted(c, name, table, columns) && c.nextId + 1 < U32 && |columns| <= MAX_ORDINAL + 1
    ensures !CanCreateIndex(c, name, table, columns) <==> exists x :: BearsElsewhere(c, x, name, c.byId[table].schema)
  {
    if !NameUnused(c.indexes, name) {
      var x :| x in c.indexes && c.indexes[x].name == name;
      assert IndexNameOk(c, x);
      assert BearsElsewhere(c, x, name, c.byId[table].schema);
    }
    if x :| BearsElsewhere(c, x, name, c.byId[table].schema) {
      assert !NameUnused(c.indexes, name);
    }
  }

  const SOLE_KEY: seq<ColumnDef> := [ColumnDef("k", Int4Type, false, None)]

  lemma {:induction false} KeyOk(host: Host)
    ensures NamesOk(SOLE_KEY) && ColumnsFit(SOLE_KEY) && Defs(host, SOLE_KEY) && IndexColumnsOk(SOLE_KEY, ["k"])
  {
    assert SOLE_KEY[0].name == "k";
  }

  // A new database has no names outside the catalog's own schema.
  lemma {:induction false} NothingNamed(c: Cache)
    requires Named(c) && c.byId == SystemTables() && c.indexes == map[]
    ensures ("a", "t") !in c.byName && ("b", "u") !in c.byName && c.indexByName == map[]
  {
    forall k | k in c.byName ensures k.0 == CATALOG_SCHEMA {
      assert LabelOk(c, k);
    }
    forall k | k in c.indexByName ensures false {
      LabelsSomething(c, k);
    }
    assert |CATALOG_SCHEMA| == 15;
  }

  lemma {:induction false} LabelsSomething(c: Cache, k: Label)
    requires Named(c) && k in c.indexByName
    ensures c.indexes != map[]
  {
    assert IndexLabelOk(c, k);
  }

  function FirstTable(c: Cache): Cache { InsertTable(c, Entry(FIRST_USER, "a", "t", SOLE_KEY)) }

  function SecondTable(c: Cache): Cache { InsertTable(c, Entry(FIRST_USER + 1, "b", "u", SOLE_KEY)) }

  function FirstIndex(c: Cache): Cache { InsertIndex(c, IndexDef(FIRST_USER + 2, "i", FIRST_USER, ["k"], false), "a") }

  // In a new database a table in each of two schemas can be created, then an index on one of them;
  // an index of the same name on the other passes the check, and cannot be created.
  lemma {:induction false} NameTakenElsewhere(c: Cache)
    requires Named(c) && c.byId == SystemTables() && c.indexes == map[] && c.nextId == FIRST_USER
    ensures CanCreateTable(c, "a", "t", SOLE_KEY) && CanCreateTable(FirstTable(c), "b", "u", SOLE_KEY)
    ensures var two := SecondTable(FirstTable(c));
            && CanCreateIndex(two, "i", FIRST_USER, ["k"]) && two.byId[FIRST_USER].schema == "a"
            && IndexAccepted(FirstIndex(two), "i", FIRST_USER + 1, ["k"])
            && !CanCreateIndex(FirstIndex(two), "i", FIRST_USER + 1, ["k"])
  {
    NothingNamed(c);
    KeyOk(WHOLE_FLOATS);
    assert |CATALOG_SCHEMA| == 15;
    var three := FirstIndex(SecondTable(FirstTable(c)));
    assert three.indexes[FIRST_USER + 2].name == "i";
  }

  lemma {:induction false} ColumnWritten(host: Host, id: nat, position: nat, def: ColumnDef)
    requires FloatsReadBack(host) && DefOk(host, def)
    ensures ColumnRow(host, ColumnRecord(id, position, def)).Some? <==> ColumnFits(position, def)
  {
    if def.default_.Some? {
      DefaultReadsBack(host, def.default_.value, def.dataType);
    }
  }

  predicate Lacks(columns: seq<ColumnDef>, name: string)
    ensures Lacks(columns, name) <==> NewName(columns, name)
  {
    forall i :: 0 <= i < |columns| ==> columns[i].name != name
  }

  method ValidateTable(schema: string, name: string, columns: seq<ColumnDef>) returns (r: Option<CatalogError>)
    ensures r.None? <==> schema != "" && name != "" && schema != CATALOG_SCHEMA && columns != [] && NamesOk(columns)
    ensures schema != "" && name != "" && schema == CATALOG_SCHEMA ==> r == Some(PermissionDenied)
  {
    if schema == "" || name == "" {
      return Some(Rejected);
    }
    if schema == CATALOG_SCHEMA {
      return Some(PermissionDenied);
    }
    if columns == [] {
      return Some(Rejected);
    }
    for i := 0 to |columns|
      invariant forall j :: 0 <= j < i ==> columns[j].name != "" && NewName(columns[..j], columns[j].name)
    {
      if columns[i].name == "" {
        return Some(Rejected);
      }
      if !Lacks(columns[..i], columns[i].name) {
        return Some(Rejected);
      }
    }
    return None;
  }

  ghost function Filled(byId: map<nat, Entry>, id: nat, columns: seq<ColumnDef>): map<nat, Entry>
    requires id in byId
  {
    byId[id := byId[id].(columns := columns)]
  }

  lemma {:induction false} FilledNone(byId: map<nat, Entry>, id: nat)
    requires id in byId && byId[id].columns == []
    ensures Filled(byId, id, []) == byId
  {
  }

  lemma {:induction false} FilledMore(byId: map<nat, Entry>, id: nat, columns: seq<ColumnDef>, i: nat)
    requires id in byId && i < |columns|
    ensures var now := Filled(byId, id, columns[..i]);
            now[id := WithColumn(now[id], columns[i])] == Filled(byId, id, columns[..i + 1])
  {
    assert columns[..i] + [columns[i]] == columns[..i + 1];
  }

  // No table but this one differs.
  ghost predicate Only(before: Tables, after: Tables, table: TableId) {
    table in after && after == before[table := after[table]]
  }

  lemma {:induction false} OnlyThat(a: Tables, b: Tables, c: Tables, table: TableId)
    requires Only(a, b, table) && Only(b, c, table)
    ensures Only(a, c, table)
  {
  }

  ghost predicate ColumnsSoFar(host: Host, byId: map<nat, Entry>, id: nat, columns: seq<ColumnDef>,
                               kept: map<(nat, nat), RowId>, before: Tables, now: Tables)
    requires id in byId
  {
    Only(before, now, COLUMNS) && ColumnsStored(host, Filled(byId, id, columns), kept, now[COLUMNS])
  }

  // One more table, and it is empty.
  ghost predicate TableAdded(before: Tables, after: Tables, id: TableId) {
    id !in before && id in after && after[id] == map[] && UserDataKept(before, after, id)
  }

  lemma {:induction false} FreshId(host: Host, c: Cache, at: Places, t: Tables)
    requires Agrees(host, c, at, t)
    ensures c.nextId !in t && c.nextId !in c.byId && TABLES in t && COLUMNS in t && INDEXES in t
    ensures c.nextId !in {TABLES, COLUMNS, INDEXES}
  {
  }

  // The row of a table does not mention its columns.
  lemma {:induction false} TablesReshaped(byId: map<nat, Entry>, at: map<nat, RowId>, rows: Rows, e: Entry, e': Entry)
    requires TablesStored(byId[e.id := e], at, rows) && e'.id == e.id && e'.schema == e.schema && e'.name == e.name
    ensures TablesStored(byId[e.id := e'], at, rows)
  {
    var now, then_ := byId[e.id := e], byId[e.id := e'];
    assert now.Keys == then_.Keys;
    forall id | id in then_ ensures TableAt(then_, at, rows, id) {
      assert TableAt(now, at, rows, id);
    }
  }

  ghost predicate Registered(before: Tables, after: Tables, id: TableId) {
    && TableAdded(before, after, id) && after.Keys == before.Keys + {id}
    && TABLES in after && COLUMNS in after && INDEXES in after && COLUMNS in before && INDEXES in before
    && after[COLUMNS] == before[COLUMNS] && after[INDEXES] == before[INDEXES]
  }

  lemma {:induction false} LaidOut(t: Tables, t': Tables, id: TableId, rows: Rows)
    requires TABLES in t && COLUMNS in t && INDEXES in t && id !in t && id >= FIRST_USER
    requires t' == t[id := map[]][TABLES := rows]
    ensures Registered(t, t', id)
  {
  }

  lemma {:induction false} ColumnsToo(t: Tables, t': Tables, t'': Tables, id: TableId)
    requires Registered(t, t', id) && Only(t', t'', COLUMNS) && id >= FIRST_USER
    ensures TableAdded(t, t'', id) && t''.Keys == t.Keys + {id}
    ensures TABLES in t'' && t''[TABLES] == t'[TABLES] && INDEXES in t'' && t''[INDEXES] == t[INDEXES]
  {
  }

  lemma {:induction false} FilledIn(byId: map<nat, Entry>, e: Entry)
    ensures Filled(byId[e.id := e.(columns := [])], e.id, e.columns) == byId[e.id := e]
  {
  }

  lemma {:induction false} OneMore<K, V>(m: map<K, V>, k: K, v: V)
    ensures m[k := v].Keys == m.Keys + {k}
  {
  }

  lemma {:induction false} InsertBumped(c: Cache, bumped: Cache, e: Entry)
    requires e.id == c.nextId && bumped == c.(nextId := e.id + 1)
    ensures InsertTable(bumped, e) == InsertTable(c, e)
  {
  }

  lemma {:induction false} TableInserted(c: Cache, e: Entry)
    ensures InsertTable(c, e).byId == c.byId[e.id := e] && InsertTable(c, e).indexes == c.indexes
  {
  }

  lemma {:induction false} TableAgrees(host: Host, c: Cache, e: Entry, places: Places, t: Tables)
    requires Named(c) && Ahead(c) && e.id == c.nextId && (e.schema, e.name) !in c.byName
             && t.Keys == c.byId.Keys + {e.id}
    requires TABLES in t && TablesStored(c.byId[e.id := e], places.tables, t[TABLES])
    requires COLUMNS in t && ColumnsStored(host, c.byId[e.id := e], places.columns, t[COLUMNS])
    requires INDEXES in t && IndexesStored(c.indexes, places.indexes, t[INDEXES])
    ensures Agrees(host, InsertTable(c, e), places, t)
  {
    TableNamed(c, e);
    OneMore(c.byId, e.id, e);
    TableInserted(c, e);
    AllAgree(host, InsertTable(c, e), places, t, c.byId[e.id := e], c.indexes);
  }

  function ColumnAppended(c: Cache, table: nat, def: ColumnDef): Cache
    requires table in c.byId
  {
    c.(byId := c.byId[table := WithColumn(c.byId[table], def)])
  }

  lemma {:induction false} KnownId(host: Host, c: Cache, at: Places, t: Tables, id: nat)
    requires Agrees(host, c, at, t) && id in c.byId
    ensures id < U32 && id in t && COLUMNS in t && ColumnsStored(host, c.byId, at.columns, t[COLUMNS])
  {
    assert TableAt(c.byId, at.tables, t[TABLES], id);
  }

  lemma {:induction false} SameKeys<K, V>(m: map<K, V>, k: K, v: V)
    requires k in m
    ensures m[k := v].Keys == m.Keys
  {
  }

  lemma {:induction false} ColumnAgrees(host: Host, c: Cache, at: Places, t: Tables, t': Tables, id: nat,
                                        def: ColumnDef, rid: RowId)
    requires Agrees(host, c, at, t) && Only(t, t', COLUMNS) && id in c.byId
    requires var p: nat := |c.byId[id].columns|;
             ColumnsStored(host, c.byId[id := WithColumn(c.byId[id], def)], at.columns[(id, p) := rid], t'[COLUMNS])
    ensures var p: nat := |c.byId[id].columns|;
            Agrees(host, ColumnAppended(c, id, def), at.(columns := at.columns[(id, p) := rid]), t')
  {
    var p: nat := |c.byId[id].columns|;
    ColumnNamed(c, id, def);
    TablesUntouched(c.byId, at.tables, t[TABLES], id, def);
    var byId' := c.byId[id := WithColumn(c.byId[id], def)];
    SameKeys(c.byId, id, WithColumn(c.byId[id], def));
    SameKeys(t, COLUMNS, t'[COLUMNS]);
    AllAgree(host, ColumnAppended(c, id, def), at.(columns := at.columns[(id, p) := rid]), t', byId', c.indexes);
  }

  lemma {:induction false} ReadableIndexes(host: Host, c: Cache, at: Places, t: Tables)
    requires Agrees(host, c, at, t)
    ensures INDEXES in t && forall r :: r in t[INDEXES] ==> ObjectId(t[INDEXES][r], 0).Some?
  {
    forall r | r in t[INDEXES] ensures ObjectId(t[INDEXES][r], 0).Some? {
      assert IndexRowOwned(at.indexes, t[INDEXES], r);
    }
  }

  lemma {:induction false} IndexRemoved(c: Cache, id: nat)
    requires id in c.indexes
    ensures RemoveIndex(c, id).byId == c.byId && RemoveIndex(c, id).indexes == c.indexes - {id}
  {
  }

  lemma {:induction false} IndexGone(host: Host, c: Cache, at: Places, t: Tables, t': Tables, id: nat)
    requires Agrees(host, c, at, t) && Only(t, t', INDEXES) && id in c.indexes && t'[INDEXES] == Without(t[INDEXES], id)
    ensures Agrees(host, RemoveIndex(c, id), at.(indexes := WithoutOwner(at.indexes, id)), t')
  {
    IndexErased(c.indexes, at.indexes, t[INDEXES], id);
    IndexUnnamed(c, id);
    IndexRemoved(c, id);
    SameKeys(t, INDEXES, t'[INDEXES]);
    AllAgree(host, RemoveIndex(c, id), at.(indexes := WithoutOwner(at.indexes, id)), t', c.byId, c.indexes - {id});
  }

  lemma {:induction false} Stocked(host: Host, c: Cache, at: Places, t: Tables)
    requires Agrees(host, c, at, t)
    ensures Only(t, t, TABLES) && Only(t, t, COLUMNS) && Only(t, t, INDEXES)
  {
  }

  // The indexes of a table are gone but for those `left`.
  ghost predicate Thinned(before: Cache, now: Cache, table: nat, left: set<nat>) {
    && now.byId == before.byId && (forall x :: x in left ==> x in before.indexes && before.indexes[x].table == table)
    && now.indexes == map x | x in before.indexes
      && (before.indexes[x].table != table || x in left) :: before.indexes[x]
  }

  lemma {:induction false} ThinnedNone(c: Cache, table: nat, left: set<nat>)
    requires left == set x | x in c.indexes && c.indexes[x].table == table
    ensures Thinned(c, c, table, left)
  {
  }

  lemma {:induction false} ThinnedMore(before: Cache, now: Cache, table: nat, left: set<nat>, x: nat)
    requires Thinned(before, now, table, left) && x in left
    ensures x in now.indexes && Thinned(before, RemoveIndex(now, x), table, left - {x})
  {
    IndexRemoved(now, x);
  }

  lemma {:induction false} ReadableTables(host: Host, c: Cache, at: Places, t: Tables)
    requires Agrees(host, c, at, t)
    ensures TABLES in t && forall r :: r in t[TABLES] ==> ObjectId(t[TABLES][r], 0).Some?
    ensures COLUMNS in t && forall r :: r in t[COLUMNS] ==> ObjectId(t[COLUMNS][r], 0).Some?
  {
    forall r | r in t[TABLES] ensures ObjectId(t[TABLES][r], 0).Some? {
      assert TableRowOwned(at.tables, t[TABLES], r);
    }
    forall r | r in t[COLUMNS] ensures ObjectId(t[COLUMNS][r], 0).Some? {
      assert ColumnRowOwned(at.columns, t[COLUMNS], r);
    }
  }

  lemma {:induction false} Erased(t: Tables, t1: Tables, t2: Tables, t3: Tables, id: nat)
    requires TABLES in t && COLUMNS in t && INDEXES in t && id >= FIRST_USER && id in t
    requires Only(t, t1, COLUMNS) && Only(t1, t2, TABLES) && t3 == t2 - {id}
    ensures UserDataKept(t, t3, id) && id !in t3 && t3.Keys == t.Keys - {id}
    ensures TABLES in t3 && t3[TABLES] == t2[TABLES] && COLUMNS in t3 && t3[COLUMNS] == t1[COLUMNS] && INDEXES in t3
            && t3[INDEXES] == t[INDEXES]
    ensures t1[TABLES] == t[TABLES]
  {
  }

  lemma {:induction false} TableRemoved(c: Cache, id: nat)
    requires id in c.byId
    ensures RemoveTable(c, id).byId == c.byId - {id} && RemoveTable(c, id).indexes == c.indexes
  {
  }

  lemma {:induction false} TableGone(host: Host, c: Cache, at: Places, t: Tables, t': Tables, id: nat)
    requires Agrees(host, c, at, t) && id in c.byId && t'.Keys == t.Keys - {id}
    requires forall x :: x in c.indexes ==> c.indexes[x].table != id
    requires TABLES in t' && t'[TABLES] == Without(t[TABLES], id)
    requires COLUMNS in t' && t'[COLUMNS] == Without(t[COLUMNS], id)
    requires INDEXES in t' && t'[INDEXES] == t[INDEXES]
    ensures Agrees(host, RemoveTable(c, id), Places(at.tables - {id}, WithoutOwner(at.columns, id), at.indexes), t')
  {
    TableErased(c.byId, at.tables, t[TABLES], id);
    ColumnsErased(host, c.byId, at.columns, t[COLUMNS], id);
    TableUnnamed(c, id);
    TableRemoved(c, id);
    AllAgree(host, RemoveTable(c, id), Places(at.tables - {id}, WithoutOwner(at.columns, id), at.indexes), t',
      c.byId - {id}, c.indexes);
  }

  // A table and its indexes are out of the index, and nothing else is.
  ghost predicate TableForgotten(before: Cache, now: Cache, table: nat) {
    && now.byId == before.byId - {table}
    && now.indexes == map x | x in before.indexes && before.indexes[x].table != table :: before.indexes[x]
  }

  lemma {:induction false} NoIndexLeft(before: Cache, now: Cache, table: nat)
    requires Thinned(before, now, table, {})
    ensures now.byId == before.byId && forall x :: x in now.indexes ==> now.indexes[x].table != table
  {
  }

  lemma {:induction false} Forgotten(before: Cache, now: Cache, table: nat)
    requires Thinned(before, now, table, {}) && table in now.byId
    ensures TableForgotten(before, RemoveTable(now, table), table)
  {
    TableRemoved(now, table);
  }

  lemma {:induction false} StillKept(a: Tables, b: Tables, c: Tables, id: TableId)
    requires Only(a, b, INDEXES) && UserDataKept(b, c, id)
    ensures UserDataKept(a, c, id)
  {
  }

  // ------------------------------------------------------------ writing an index

  // The index as far as its first `i` columns are written.
  ghost function Part(indexes: map<nat, IndexDef>, d: IndexDef, i: nat): map<nat, IndexDef>
    requires i <= |d.columns|
  {
    if i == 0 then indexes else indexes[d.id := d.(columns := d.columns[..i])]
  }

  ghost predicate IndexSoFar(indexes: map<nat, IndexDef>, d: IndexDef, i: nat, kept: map<(nat, nat), RowId>,
                             before: Tables, now: Tables)
    requires i <= |d.columns|
  {
    Only(before, now, INDEXES) && IndexesStored(Part(indexes, d, i), kept, now[INDEXES])
  }

  lemma {:induction false} NthClash(indexes: map<nat, IndexDef>, at: map<(nat, nat), RowId>, rows: Rows, d: IndexDef,
                                    i: nat, row: Row)
    requires i < |d.columns| && d.id !in indexes && forall x :: x in indexes ==> indexes[x].columns != []
    requires IndexesStored(Part(indexes, d, i), at, rows) && IndexRow(IndexRecord(d.id, i, PartOf(d, i))) == Some(row)
    requires i > 0 ==> NameUnused(indexes, d.name)
    ensures Clash(rows, row, INDEXES_KEYS) <==> !NameUnused(indexes, d.name)
  {
    if NameUnused(indexes, d.name) {
      IndexFresh(Part(indexes, d, i), at, rows, d.(columns := d.columns[..i]), PartOf(d, i), row);
    } else {
      var x :| x in indexes && indexes[x].name == d.name;
      IndexTaken(indexes, at, rows, x, d.id, PartOf(d, 0), row);
    }
  }

  lemma {:induction false} NthListed(indexes: map<nat, IndexDef>, at: map<(nat, nat), RowId>, rows: Rows, d: IndexDef,
                                     i: nat, r: RowId, row: Row)
    requires i < |d.columns| && d.id !in indexes && d.id < U32 && d.table < U32 && r !in rows
    requires IndexesStored(Part(indexes, d, i), at, rows) && IndexRow(IndexRecord(d.id, i, PartOf(d, i))) == Some(row)
    ensures IndexesStored(Part(indexes, d, i + 1), at[(d.id, i) := r], Store(rows, r, row))
  {
    var so := d.(columns := d.columns[..i]);
    assert d.columns[..i] + [d.columns[i]] == d.columns[..i + 1];
    assert WithIndexColumn(so, d.columns[i]) == d.(columns := d.columns[..i + 1]);
    IndexRecorded(Part(indexes, d, i), at, rows, so, d.columns[i], r, row);
    assert Part(indexes, d, i)[d.id := d.(columns := d.columns[..i + 1])] == Part(indexes, d, i + 1);
  }

  lemma {:induction false} FreshIndexId(c: Cache)
    requires Named(c) && Ahead(c)
    ensures c.nextId !in c.indexes && forall x :: x in c.indexes ==> c.indexes[x].columns != []
  {
    forall x | x in c.indexes ensures c.indexes[x].columns != [] {
      assert IndexNameOk(c, x);
    }
  }

  // A name used nowhere is free in each schema.
  lemma {:induction false} UnusedHere(c: Cache, name: string, table: nat)
    requires Named(c)
    ensures table in c.byId && NameUnused(c.indexes, name) ==> (c.byId[table].schema, name) !in c.indexByName
  {
    if table in c.byId && (c.byId[table].schema, name) in c.indexByName {
      assert IndexLabelOk(c, (c.byId[table].schema, name));
    }
  }

  lemma {:induction false} IndexInserted(c: Cache, d: IndexDef, schema: string)
    ensures InsertIndex(c, d, schema).byId == c.byId && InsertIndex(c, d, schema).indexes == c.indexes[d.id := d]
  {
  }

  lemma {:induction false} IndexBumped(c: Cache, bumped: Cache, d: IndexDef, schema: string)
    requires d.id == c.nextId && bumped == c.(nextId := d.id + 1)
    ensures InsertIndex(bumped, d, schema) == InsertIndex(c, d, schema)
  {
  }

  lemma {:induction false} IndexAgrees(host: Host, c: Cache, at: Places, after: map<(nat, nat), RowId>, d: IndexDef,
                                       t: Tables, t': Tables)
    requires Agrees(host, c, at, t) && d.id == c.nextId && d.table in c.byId && d.columns != []
             && NameUnused(c.indexes, d.name)
    requires IndexSoFar(c.indexes, d, |d.columns|, after, t, t')
    ensures Agrees(host, InsertIndex(c, d, c.byId[d.table].schema), at.(indexes := after), t')
  {
    FreshIndexId(c);
    UnusedHere(c, d.name, d.table);
    IndexNamed(c, d, c.byId[d.table].schema);
    IndexInserted(c, d, c.byId[d.table].schema);
    assert d.columns[..|d.columns|] == d.columns;
    SameKeys(t, INDEXES, t'[INDEXES]);
    AllAgree(host, InsertIndex(c, d, c.byId[d.table].schema), at.(indexes := after), t', c.byId, c.indexes[d.id := d]);
  }

  // ---------------------------------------------------------- the catalog's own tables

  function Plain(name: string, ty: DataType): ColumnDef { ColumnDef(name, ty, false, None) }

  const TABLES_ENTRY: Entry :=
    Entry(TABLES, CATALOG_SCHEMA, "ferrite_tables",
          [Plain("table_id", Int8Type), Plain("schema_name", TextType), Plain("table_name", TextType)])

  const COLUMNS_ENTRY: Entry :=
    Entry(COLUMNS, CATALOG_SCHEMA, "ferrite_columns",
          [Plain("table_id", Int8Type), Plain("ordinal", Int4Type), Plain("column_name", TextType),
            Plain("data_type", TextType),
           Plain("nullable", BooleanType), ColumnDef("default_expr", TextType, true, None)])

  const INDEXES_ENTRY: Entry :=
    Entry(INDEXES, CATALOG_SCHEMA, "ferrite_indexes",
          [Plain("index_id", Int8Type), Plain("table_id", Int8Type), Plain("index_name", TextType),
            Plain("ordinal", Int4Type),
           Plain("column_name", TextType), Plain("is_unique", BooleanType)])

  ghost function SystemTables(): map<nat, Entry> {
    map[TABLES := TABLES_ENTRY, COLUMNS := COLUMNS_ENTRY, INDEXES := INDEXES_ENTRY]
  }

  ghost predicate Describable(host: Host, e: Entry) {
    e.id < U32 && Defs(host, e.columns) && NamesOk(e.columns) && ColumnsFit(e.columns)
  }

  const SYSTEM_ENTRIES: seq<Entry> := [TABLES_ENTRY, COLUMNS_ENTRY, INDEXES_ENTRY]

  ghost function Built(entries: seq<Entry>): Cache {
    if entries == [] then EMPTY else InsertTable(Built(entries[..|entries| - 1]), entries[|entries| - 1])
  }

  ghost predicate Fresh(c: Cache, e: Entry) { e.id !in c.byId && (e.schema, e.name) !in c.byName }

  ghost predicate Buildable(host: Host, entries: seq<Entry>) {
    forall i {:trigger entries[i]} :: 0 <= i < |entries| ==>
      Describable(host, entries[i]) && Fresh(Built(entries[..i]), entries[i])
  }

  ghost predicate BuiltSoFar(host: Host, entries: seq<Entry>, places: Places, t: Tables) {
    Stored(host, Built(entries).byId, map[], places, t) && Named(Built(entries)) && Ahead(Built(entries))
      && Built(entries).indexes == map[]
  }

  lemma {:induction false} BuildNext(entries: seq<Entry>, i: nat)
    requires i < |entries|
    ensures Built(entries[..i + 1]) == InsertTable(Built(entries[..i]), entries[i])
    ensures Built(entries[..i + 1]).indexes == Built(entries[..i]).indexes
  {
    assert entries[..i + 1][..i] == entries[..i];
  }

  lemma {:induction false} NothingStored(host: Host, places: Places, t: Tables)
    requires places == Places(map[], map[], map[]) && t == map[TABLES := map[], COLUMNS := map[], INDEXES := map[]]
    ensures Stored(host, map[], map[], places, t)
  {
  }

  lemma {:induction false} TablesDescribable(host: Host)
    ensures Describable(host, TABLES_ENTRY)
  {
  }

  lemma {:induction false} ColumnsDescribable(host: Host)
    ensures Describable(host, COLUMNS_ENTRY)
  {
  }

  lemma {:induction false} IndexesDescribable(host: Host)
    ensures Describable(host, INDEXES_ENTRY)
  {
  }

  lemma {:induction false} SystemPrefixes()
    ensures SYSTEM_ENTRIES[..0] == [] && SYSTEM_ENTRIES[..1] == [TABLES_ENTRY]
            && SYSTEM_ENTRIES[..2] == [TABLES_ENTRY, COLUMNS_ENTRY]
    ensures Built([TABLES_ENTRY]) == InsertTable(EMPTY, TABLES_ENTRY)
    ensures Built([TABLES_ENTRY, COLUMNS_ENTRY]) == InsertTable(InsertTable(EMPTY, TABLES_ENTRY), COLUMNS_ENTRY)
  {
    assert [TABLES_ENTRY][..0] == [] && [TABLES_ENTRY, COLUMNS_ENTRY][..1] == [TABLES_ENTRY];
  }

  lemma {:induction false} SystemFresh()
    ensures Fresh(EMPTY, TABLES_ENTRY) && Fresh(InsertTable(EMPTY, TABLES_ENTRY), COLUMNS_ENTRY)
    ensures Fresh(InsertTable(InsertTable(EMPTY, TABLES_ENTRY), COLUMNS_ENTRY), INDEXES_ENTRY)
  {
    assert |TABLES_ENTRY.name| == 14 && |COLUMNS_ENTRY.name| == 15 && |INDEXES_ENTRY.name| == 15;
    assert COLUMNS_ENTRY.name[8] == 'c' && INDEXES_ENTRY.name[8] == 'i';
  }

  lemma {:induction false} SystemBuildable(host: Host)
    ensures Buildable(host, SYSTEM_ENTRIES)
  {
    TablesDescribable(host);
    ColumnsDescribable(host);
    IndexesDescribable(host);
    SystemPrefixes();
    SystemFresh();
  }

  lemma {:induction false} SystemBuilt()
    ensures Built(SYSTEM_ENTRIES).byId == SystemTables() && Built(SYSTEM_ENTRIES).indexes == map[]
    ensures SystemTables().Keys == {TABLES, COLUMNS, INDEXES}
  {
    SystemPrefixes();
    BuildNext(SYSTEM_ENTRIES, 2);
    assert SYSTEM_ENTRIES[..3] == SYSTEM_ENTRIES;
  }

  lemma {:induction false} FirstIdNext(c: Cache)
    requires Ahead(c) && Tight(c) && c.byId == SystemTables() && c.indexes == map[]
    ensures c.nextId == FIRST_USER
  {
    SystemBuilt();
  }

  lemma {:induction false} AddedThenGone<K, V>(m: map<K, V>, k: K, v: V)
    requires k !in m
    ensures m[k := v] - {k} == m
  {
  }

  method ValidateColumn(c: Cache, table: nat, def: ColumnDef) returns (r: Option<CatalogError>)
    ensures r.None? <==>
            table >= FIRST_USER && table in c.byId && def.name != "" && NewName(c.byId[table].columns, def.name)
    ensures table < FIRST_USER ==> r == Some(PermissionDenied)
  {
    if table < FIRST_USER {
      return Some(PermissionDenied);
    }
    if def.name == "" {
      return Some(Rejected);
    }
    if table !in c.byId {
      return Some(TableMissing);
    }
    if !Lacks(c.byId[table].columns, def.name) {
      return Some(ObjectAlreadyExists);
    }
    return None;
  }

  method ValidateIndex(c: Cache, name: string, table: nat, columns: seq<string>)
    returns (r: Result<string, CatalogError>)
    ensures r.Ok? <==> IndexAccepted(c, name, table, columns)
    ensures r.Ok? ==> r.value == c.byId[table].schema
  {
    if name == "" || columns == [] {
      return Err(Rejected);
    }
    if table !in c.byId {
      return Err(TableMissing);
    }
    if table < FIRST_USER {
      return Err(PermissionDenied);
    }
    var e := c.byId[table];
    for i := 0 to |columns|
      invariant forall j :: 0 <= j < i ==> !NewName(e.columns, columns[j]) && columns[j] !in columns[..j]
    {
      if Lacks(e.columns, columns[i]) {
        return Err(ColumnNotFound);
      }
      if columns[i] in columns[..i] {
        return Err(Rejected);
      }
    }
    if (e.schema, name) in c.indexByName {
      return Err(Rejected);
    }
    return Ok(e.schema);
  }

  lemma {:induction false} TxnOver<K, V>(during: map<K, V>, txn: K, others: set<K>)
    requires txn !in others && during.Keys == others + {txn}
    ensures (during - {txn}).Keys == others
  {
  }

  // ------------------------------------------------------- rows of one object

  // The ids of the rows that start with this object id.
  function Chosen(entries: Listing, wanted: nat): seq<RowId> {
    if entries == [] then []
    else
      var n := |entries| - 1;
      Chosen(entries[..n], wanted) + (if ObjectId(entries[n].1, 0) == Some(wanted) then [entries[n].0] else [])
  }

  method Doomed(entries: Listing, wanted: nat) returns (r: Option<seq<RowId>>)
    ensures r.Some? <==> forall i :: 0 <= i < |entries| ==> ObjectId(entries[i].1, 0).Some?
    ensures r.Some? ==> r.value == Chosen(entries, wanted)
  {
    var ids: seq<RowId> := [];
    for i := 0 to |entries|
      invariant ids == Chosen(entries[..i], wanted)
      invariant forall j :: 0 <= j < i ==> ObjectId(entries[j].1, 0).Some?
    {
      var id := ObjectId(entries[i].1, 0);
      if id.None? {
        return None;
      }
      assert entries[..i + 1][..i] == entries[..i];
      if id.value == wanted {
        ids := ids + [entries[i].0];
      }
    }
    assert entries[..|entries|] == entries;
    return Some(ids);
  }

  lemma {:induction false} Readable(rows: Rows, entries: Listing)
    requires Lists(rows, entries)
    ensures (forall i :: 0 <= i < |entries| ==> ObjectId(entries[i].1, 0).Some?) <==>
            (forall r :: r in rows ==> ObjectId(rows[r], 0).Some?)
  {
    if forall i :: 0 <= i < |entries| ==> ObjectId(entries[i].1, 0).Some? {
      forall r | r in rows ensures ObjectId(rows[r], 0).Some? {
        var i := Listed(entries, r);
        assert ObjectId(entries[i].1, 0).Some?;
      }
    }
  }

  ghost predicate Ascending(ids: seq<RowId>) { forall i, j :: 0 <= i < j < |ids| ==> ids[i] < ids[j] }

  lemma {:induction false} AscendingMore(ids: seq<RowId>, r: RowId)
    requires Ascending(ids) && forall x :: x in ids ==> x < r
    ensures Ascending(ids + [r])
  {
    assert forall i :: 0 <= i < |ids| ==> ids[i] in ids;
  }

  lemma {:induction false} ChosenAt(entries: Listing, wanted: nat)
    requires forall i, j :: 0 <= i < j < |entries| ==> entries[i].0 < entries[j].0
    ensures Ascending(Chosen(entries, wanted))
    ensures forall r :: r in Chosen(entries, wanted) ==> r in Ids(entries)
    ensures forall i :: 0 <= i < |entries| ==>
            (entries[i].0 in Chosen(entries, wanted) <==> ObjectId(entries[i].1, 0) == Some(wanted))
  {
    if entries != [] {
      var n := |entries| - 1;
      var front := entries[..n];
      ChosenAt(front, wanted);
      forall r | r in Chosen(front, wanted) ensures r < entries[n].0 {
        var i := Listed(front, r);
        assert front[i] == entries[i];
      }
      AscendingMore(Chosen(front, wanted), entries[n].0);
      forall i | 0 <= i < n ensures entries[i].0 in Chosen(entries, wanted) <==>
        ObjectId(entries[i].1, 0) == Some(wanted) {
        assert front[i] == entries[i];
      }
    }
  }

  lemma {:induction false} ChosenRows(rows: Rows, entries: Listing, wanted: nat)
    requires Lists(rows, entries)
    ensures Ascending(Chosen(entries, wanted))
    ensures forall r :: r in Chosen(entries, wanted) <==> r in rows && ObjectId(rows[r], 0) == Some(wanted)
  {
    ChosenAt(entries, wanted);
    forall r | r in rows ensures r in Chosen(entries, wanted) <==> ObjectId(rows[r], 0) == Some(wanted) {
      var i := Listed(entries, r);
    }
  }

  ghost function Elements(ids: seq<RowId>): set<RowId> { set r | r in ids }

  lemma {:induction false} NextGoes(rows: Rows, ids: seq<RowId>, k: nat)
    requires k < |ids| && Ascending(ids) && forall r :: r in ids ==> r in rows
    ensures ids[k] in rows - Elements(ids[..k])
    ensures rows - Elements(ids[..k]) - {ids[k]} == rows - Elements(ids[..k + 1])
  {
    assert ids[k] in ids;
    assert ids[..k + 1] == ids[..k] + [ids[k]];
    assert Elements(ids[..k + 1]) == Elements(ids[..k]) + {ids[k]};
  }

  lemma {:induction false} ChosenGone(rows: Rows, ids: seq<RowId>, wanted: nat)
    requires forall r :: r in ids <==> r in rows && ObjectId(rows[r], 0) == Some(wanted)
    ensures rows - Elements(ids) == Without(rows, wanted)
  {
  }
}
