// The system catalog: data definition through transactions of its own, over stored rows and an
// in-memory index that must agree with them.
module Catalog {
  import opened Wrappers
  import opened Memory
  import opened CatalogRows
  import opened CatalogState
  import opened CatalogEdits
  import opened CatalogNames
  import opened CatalogKeys
  import opened CatalogReload
  import opened CatalogSteps

  class SystemCatalog {
    const host: Host
    const storage: MemoryStorage
    var cache: Cache
    ghost var at: Places

    constructor (storage: MemoryStorage, host: Host)
      ensures this.storage == storage && this.host == host && cache == EMPTY && at == Places(map[], map[], map[])
    {
      this.storage, this.host, cache, at := storage, host, EMPTY, Places(map[], map[], map[]);
    }

    ghost predicate Ready()
      reads this, storage
    {
      FloatsReadBack(host) && storage.Valid() && Agrees(host, cache, at, storage.tables)
    }

    // Publishing an index that agrees with what has just been written.
    method Adopt(c: Cache, ghost places: Places)
      requires FloatsReadBack(host) && storage.Valid() && Agrees(host, c, places, storage.tables)
      modifies this
      ensures Ready() && cache == c
    {
      cache, at := c, places;
    }

    // The part of every `*_in` call that the enclosing transaction relies on.
    twostate predicate InTxn(txn: TxnId)
      reads this, storage
    {
      && storage.Valid() && txn in old(storage.active) && storage.active.Keys == old(storage.active).Keys
      && storage.Base(txn) == old(storage.Base(txn))
    }

    method ReadAll(txn: TxnId, ghost whole: Cache) returns (r: Result<Cache, CatalogError>)
      requires FloatsReadBack(host) && txn in storage.active
      requires Stored(host, whole.byId, whole.indexes, at, storage.tables) && Named(whole)
      ensures r.Ok? && SameContents(r.value, whole) && Named(r.value) && Ahead(r.value) && Tight(r.value)
    {
      var columns := storage.Scan(txn, COLUMNS);
      var tables := storage.Scan(txn, TABLES);
      var indexes := storage.Scan(txn, INDEXES);
      var found := Rebuild(host, tables.value, columns.value, indexes.value, whole, at, storage.tables);
      match found
      case None => return Err(Rejected);
      case Some(c) => return Ok(c);
    }

    method Reload(ghost whole: Cache) returns (r: Result<(), CatalogError>)
      requires FloatsReadBack(host) && storage.Valid() && Stored(host, whole.byId, whole.indexes, at, storage.tables)
               && Named(whole)
      modifies this`cache, storage
      ensures storage.Valid() && storage.tables == old(storage.tables) && storage.active == old(storage.active)
      ensures r.Ok? && SameContents(cache, whole) && Named(cache) && Ahead(cache) && Tight(cache)
    {
      var txn := storage.Begin();
      var found := ReadAll(txn, whole);
      var done := storage.Finish(txn);
      AddedThenGone(old(storage.active), txn, []);
      cache := found.value;
      return Ok(());
    }

    method TakeBack(txn: TxnId, ghost whole: Cache, ghost places: Places, ghost before: Tables)
      requires FloatsReadBack(host) && storage.Valid() && txn in storage.active
      requires storage.Base(txn) == before && Agrees(host, whole, places, before)
      modifies this, storage
      ensures Ready() && SameContents(cache, whole) && storage.tables == before
              && storage.active == old(storage.active) - {txn}
    {
      var undone := storage.Abort(txn);
      at := places;
      var again := Reload(whole);
      AgreesAgain(host, whole, cache, at, storage.tables);
    }

    // `in_own_txn` before its body.
    method Start() returns (txn: TxnId)
      requires Ready()
      modifies storage
      ensures Ready() && txn in storage.active && storage.Base(txn) == storage.tables == old(storage.tables)
      ensures txn !in old(storage.active).Keys && storage.active.Keys == old(storage.active).Keys + {txn}
    {
      txn := storage.Begin();
      OneMore(old(storage.active), txn, []);
    }

    // `in_own_txn` after its body: commit, or take everything back and rebuild the index.
    method Conclude<T>(txn: TxnId, r: Result<T, CatalogError>, ghost whole: Cache, ghost places: Places,
                       ghost before: Tables, ghost others: set<TxnId>)
      requires FloatsReadBack(host) && storage.Valid() && txn !in others && storage.active.Keys == others + {txn}
      requires r.Ok? ==> Agrees(host, cache, at, storage.tables)
      requires r.Err? ==> storage.Base(txn) == before && Agrees(host, whole, places, before)
      modifies this, storage
      ensures Ready() && storage.active.Keys == others
      ensures r.Ok? ==> cache == old(cache) && storage.tables == old(storage.tables)
      ensures r.Err? ==> SameContents(cache, whole) && storage.tables == before
    {
      TxnOver(storage.active, txn, others);
      if r.Ok? {
        var done := storage.Finish(txn);
      } else {
        TakeBack(txn, whole, places, before);
      }
    }

    // ------------------------------------------------------------- recording

    method RecordTable(txn: TxnId, id: nat, schema: string, name: string, ghost c: Cache, ghost kept: map<nat, RowId>)
      returns (r: Result<RowId, CatalogError>)
      requires storage.Valid() && txn in storage.active && TABLES in storage.tables
      requires TablesStored(c.byId, kept, storage.tables[TABLES]) && Named(c) && id !in c.byId && id < U32
               && (schema, name) !in c.byName
      modifies storage
      ensures InTxn(txn) && r.Ok?
      ensures storage.tables == old(storage.tables)[TABLES := Store(old(storage.tables)[TABLES], r.value,
              TableRow(TableRecord(id, schema, name)))]
      ensures TablesStored(c.byId[id := Entry(id, schema, name, [])], kept[id := r.value], storage.tables[TABLES])
    {
      TableFresh(c, kept, storage.tables[TABLES], id, schema, name);
      var row := TableRow(TableRecord(id, schema, name));
      var put := storage.InsertUnique(txn, TABLES, row, TABLES_KEYS);
      match put
      case Err(e) => return Err(Failed(e));
      case Ok(rid) =>
        TableRecorded(c.byId, kept, old(storage.tables[TABLES]), Entry(id, schema, name, []), rid);
        return Ok(rid);
    }

    method RecordColumn(txn: TxnId, id: nat, position: nat, def: ColumnDef, ghost byId: map<nat, Entry>,
                        ghost kept: map<(nat, nat), RowId>)
      returns (r: Result<RowId, CatalogError>)
      requires FloatsReadBack(host) && storage.Valid() && txn in storage.active && COLUMNS in storage.tables
      requires ColumnsStored(host, byId, kept, storage.tables[COLUMNS])
      requires id in byId && id < U32 && position == |byId[id].columns| && DefOk(host, def)
               && NewName(byId[id].columns, def.name)
      modifies storage
      ensures InTxn(txn) && (r.Ok? <==> ColumnFits(position, def))
      ensures r.Err? ==> storage.tables == old(storage.tables)
      ensures r.Ok? ==> Only(old(storage.tables), storage.tables, COLUMNS)
                        && ColumnsStored(host, byId[id := WithColumn(byId[id], def)], kept[(id, position) := r.value],
                          storage.tables[COLUMNS])
    {
      ColumnWritten(host, id, position, def);
      if def.default_.Some? && EncodeDefault(host, def.default_.value, def.dataType).None? {
        return Err(InvalidDefinition);
      }
      if position > MAX_ORDINAL {
        return Err(Rejected);
      }
      var row := ColumnRow(host, ColumnRecord(id, position, def)).value;
      ColumnFresh(host, byId, kept, storage.tables[COLUMNS], id, def, row);
      var put := storage.InsertUnique(txn, COLUMNS, row, COLUMNS_KEYS);
      match put
      case Err(e) => return Err(Failed(e));
      case Ok(rid) =>
        ColumnRecorded(host, byId, kept, old(storage.tables[COLUMNS]), id, def, rid, row);
        return Ok(rid);
    }

    method RecordNth(txn: TxnId, id: nat, columns: seq<ColumnDef>, i: nat, ghost byId: map<nat, Entry>,
                     ghost kept: map<(nat, nat), RowId>, ghost before: Tables)
      returns (r: Result<(), CatalogError>, ghost after: map<(nat, nat), RowId>)
      requires FloatsReadBack(host) && storage.Valid() && txn in storage.active && i < |columns|
      requires id in byId && id < U32 && Defs(host, columns) && NamesOk(columns)
      requires ColumnsSoFar(host, byId, id, columns[..i], kept, before, storage.tables)
      modifies storage
      ensures InTxn(txn) && (r.Ok? <==> ColumnFits(i, columns[i]))
      ensures r.Ok? ==> ColumnsSoFar(host, byId, id, columns[..i + 1], after, before, storage.tables)
    {
      ghost var now := Filled(byId, id, columns[..i]);
      var put := RecordColumn(txn, id, i, columns[i], now, kept);
      FilledMore(byId, id, columns, i);
      match put
      case Err(e) => return Err(e), kept;
      case Ok(rid) =>
        after := kept[(id, i) := rid];
        OnlyThat(before, old(storage.tables), storage.tables, COLUMNS);
        return Ok(()), after;
    }

    method RecordColumns(txn: TxnId, id: nat, columns: seq<ColumnDef>, ghost byId: map<nat, Entry>,
                         ghost kept: map<(nat, nat), RowId>)
      returns (r: Result<(), CatalogError>, ghost after: map<(nat, nat), RowId>)
      requires FloatsReadBack(host) && storage.Valid() && txn in storage.active && COLUMNS in storage.tables
      requires ColumnsStored(host, byId, kept, storage.tables[COLUMNS])
      requires id in byId && id < U32 && byId[id].columns == [] && Defs(host, columns) && NamesOk(columns)
      modifies storage
      ensures InTxn(txn) && (r.Ok? <==> ColumnsFit(columns))
      ensures r.Ok? ==> ColumnsSoFar(host, byId, id, columns, after, old(storage.tables), storage.tables)
    {
      after := kept;
      FilledNone(byId, id);
      assert columns[..0] == [];
      for i := 0 to |columns|
        invariant InTxn(txn) && forall j :: 0 <= j < i ==> ColumnFits(j, columns[j])
        invariant ColumnsSoFar(host, byId, id, columns[..i], after, old(storage.tables), storage.tables)
      {
        r, after := RecordNth(txn, id, columns, i, byId, after, old(storage.tables));
        if r.Err? {
          return;
        }
      }
      assert columns[..|columns|] == columns;
      return Ok(()), after;
    }

    // --------------------------------------------------------- creating a table

    // The table itself and its row; no columns yet.
    method Register(txn: TxnId, e: Entry, ghost c: Cache) returns (r: Result<RowId, CatalogError>)
      requires storage.Valid() && txn in storage.active && Agrees(host, c, at, storage.tables)
      requires e.id == c.nextId < U32 && (e.schema, e.name) !in c.byName && e.columns == []
      modifies storage
      ensures InTxn(txn) && r.Ok? && Registered(old(storage.tables), storage.tables, e.id)
      ensures TablesStored(c.byId[e.id := e], at.tables[e.id := r.value], storage.tables[TABLES])
      ensures ColumnsStored(host, c.byId[e.id := e], at.columns, storage.tables[COLUMNS])
    {
      ghost var t := storage.tables;
      FreshId(host, c, at, t);
      var made := storage.CreateTable(txn, e.id);
      r := RecordTable(txn, e.id, e.schema, e.name, c, at.tables);
      LaidOut(t, storage.tables, e.id, storage.tables[TABLES]);
      NoColumnsYet(host, c.byId, at.columns, t[COLUMNS], e);
    }

    method LayOut(txn: TxnId, e: Entry, ghost c: Cache) returns (r: Result<(), CatalogError>, ghost places: Places)
      requires FloatsReadBack(host) && storage.Valid() && txn in storage.active && Agrees(host, c, at, storage.tables)
      requires e.id == c.nextId < U32 && (e.schema, e.name) !in c.byName && Defs(host, e.columns) && NamesOk(e.columns)
      modifies storage
      ensures InTxn(txn) && (r.Ok? <==> ColumnsFit(e.columns))
      ensures r.Ok? ==>
              Agrees(host, InsertTable(c, e), places, storage.tables)
                && TableAdded(old(storage.tables), storage.tables, e.id)
    {
      var bare := e.(columns := []);
      var put := Register(txn, bare, c);
      ghost var t := storage.tables;
      ghost var columnsAt;
      r, columnsAt := RecordColumns(txn, e.id, e.columns, c.byId[e.id := bare], at.columns);
      places := Places(at.tables[e.id := put.value], columnsAt, at.indexes);
      if r.Ok? {
        FilledIn(c.byId, e);
        TablesReshaped(c.byId, places.tables, t[TABLES], bare, e);
        ColumnsToo(old(storage.tables), t, storage.tables, e.id);
        TableAgrees(host, c, e, places, storage.tables);
      }
    }

    method ReserveId(schema: string, name: string) returns (r: Result<nat, CatalogError>)
      modifies this`cache
      ensures r.Ok? <==> (schema, name) !in old(cache).byName && old(cache).nextId + 1 < U32
      ensures r.Ok? ==> r.value == old(cache).nextId && cache == old(cache).(nextId := r.value + 1)
      ensures r.Err? ==> cache == old(cache)
    {
      if (schema, name) in cache.byName {
        return Err(Rejected);
      }
      var id := cache.nextId;
      if id + 1 >= U32 {
        return Err(IdsExhausted);
      }
      cache := cache.(nextId := id + 1);
      return Ok(id);
    }

    method CreateTableIn(txn: TxnId, schema: string, name: string, columns: seq<ColumnDef>)
      returns (r: Result<nat, CatalogError>)
      requires Ready() && txn in storage.active && Defs(host, columns)
      modifies this, storage
      ensures InTxn(txn) && (r.Ok? <==> CanCreateTable(old(cache), schema, name, columns))
      ensures r.Ok? ==> Ready() && TableAdded(old(storage.tables), storage.tables, r.value)
      ensures r.Ok? ==> r.value == old(cache).nextId
      ensures r.Ok? ==> cache == InsertTable(old(cache), Entry(r.value, schema, name, columns))
    {
      ghost var c := cache;
      var bad := ValidateTable(schema, name, columns);
      if bad.Some? {
        return Err(bad.value);
      }
      r := ReserveId(schema, name);
      if r.Ok? {
        var e := Entry(r.value, schema, name, columns);
        var laid, places := LayOut(txn, e, c);
        if laid.Err? {
          return Err(laid.error);
        }
        InsertBumped(c, cache, e);
        Adopt(InsertTable(cache, e), places);
      }
    }

    method CreateTable(schema: string, name: string, columns: seq<ColumnDef>) returns (r: Result<nat, CatalogError>)
      requires Ready() && Defs(host, columns)
      modifies this, storage
      ensures Ready() && storage.active.Keys == old(storage.active).Keys
      ensures r.Ok? <==> CanCreateTable(old(cache), schema, name, columns)
      ensures r.Err? ==> SameContents(cache, old(cache)) && storage.tables == old(storage.tables)
      ensures r.Ok? ==> r.value == old(cache).nextId
      ensures r.Ok? ==> cache == InsertTable(old(cache), Entry(r.value, schema, name, columns))
      ensures r.Ok? ==> TableAdded(old(storage.tables), storage.tables, r.value)
    {
      var txn := Start();
      r := CreateTableIn(txn, schema, name, columns);
      Conclude(txn, r, old(cache), old(at), old(storage.tables), old(storage.active.Keys));
    }

    // ------------------------------------------------------------ adding a column

    method Append(txn: TxnId, table: nat, position: nat, def: ColumnDef, ghost c: Cache)
      returns (r: Result<(), CatalogError>, ghost places: Places)
      requires FloatsReadBack(host) && storage.Valid() && txn in storage.active && DefOk(host, def)
               && Agrees(host, c, at, storage.tables)
      requires table in c.byId && position == |c.byId[table].columns| && NewName(c.byId[table].columns, def.name)
      modifies storage
      ensures InTxn(txn) && (r.Ok? <==> ColumnFits(position, def))
      ensures r.Ok? ==>
              Agrees(host, ColumnAppended(c, table, def), places, storage.tables)
                && Only(old(storage.tables), storage.tables, COLUMNS)
    {
      KnownId(host, c, at, storage.tables, table);
      var put := RecordColumn(txn, table, position, def, c.byId, at.columns);
      if put.Err? {
        return Err(put.error), at;
      }
      ColumnAgrees(host, c, at, old(storage.tables), storage.tables, table, def, put.value);
      return Ok(()), at.(columns := at.columns[(table, position) := put.value]);
    }

    method AddColumnIn(txn: TxnId, table: nat, def: ColumnDef) returns (r: Result<(), CatalogError>)
      requires Ready() && txn in storage.active && DefOk(host, def)
      modifies this, storage
      ensures InTxn(txn) && (r.Ok? <==> CanAddColumn(old(cache), table, def))
      ensures r.Ok? ==> Ready() && Only(old(storage.tables), storage.tables, COLUMNS)
      ensures r.Ok? ==> cache == ColumnAppended(old(cache), table, def)
    {
      var bad := ValidateColumn(cache, table, def);
      if bad.Some? {
        return Err(bad.value);
      }
      ghost var places;
      r, places := Append(txn, table, |cache.byId[table].columns|, def, cache);
      if r.Ok? {
        Adopt(ColumnAppended(cache, table, def), places);
      }
    }

    method AddColumn(table: nat, def: ColumnDef) returns (r: Result<(), CatalogError>)
      requires Ready() && DefOk(host, def)
      modifies this, storage
      ensures Ready() && storage.active.Keys == old(storage.active).Keys
      ensures r.Ok? <==> CanAddColumn(old(cache), table, def)
      ensures r.Err? ==> SameContents(cache, old(cache)) && storage.tables == old(storage.tables)
      ensures r.Ok? ==>
              cache == ColumnAppended(old(cache), table, def) && Only(old(storage.tables), storage.tables, COLUMNS)
    {
      var txn := Start();
      r := AddColumnIn(txn, table, def);
      Conclude(txn, r, old(cache), old(at), old(storage.tables), old(storage.active.Keys));
    }

    // ------------------------------------------------------------------ deleting

    method DeleteRows(txn: TxnId, table: TableId, wanted: nat) returns (r: Result<(), CatalogError>)
      requires storage.Valid() && txn in storage.active && table in storage.tables
      modifies storage
      ensures InTxn(txn)
      ensures r.Ok? <==>
              forall x :: x in old(storage.tables)[table] ==> ObjectId(old(storage.tables)[table][x], 0).Some?
      ensures r.Ok? ==>
              Only(old(storage.tables), storage.tables, table)
                && storage.tables[table] == Without(old(storage.tables)[table], wanted)
    {
      ghost var rows := storage.tables[table];
      var entries := storage.Scan(txn, table);
      Readable(rows, entries.value);
      var doomed := Doomed(entries.value, wanted);
      match doomed
      case None =>
        return Err(Rejected);
      case Some(ids) =>
        ChosenRows(rows, entries.value, wanted);
        DeleteEach(txn, table, ids);
        ChosenGone(rows, ids, wanted);
        return Ok(());
    }

    method DeleteEach(txn: TxnId, table: TableId, ids: seq<RowId>)
      requires storage.Valid() && txn in storage.active && table in storage.tables
      requires Ascending(ids) && forall r :: r in ids ==> r in storage.tables[table]
      modifies storage
      ensures InTxn(txn) && Only(old(storage.tables), storage.tables, table)
      ensures storage.tables[table] == old(storage.tables)[table] - Elements(ids)
    {
      ghost var rows := storage.tables[table];
      assert ids[..0] == [];
      for k := 0 to |ids|
        invariant InTxn(txn) && Only(old(storage.tables), storage.tables, table)
        invariant storage.tables[table] == rows - Elements(ids[..k])
      {
        ghost var now := storage.tables;
        NextGoes(rows, ids, k);
        var gone := storage.Delete(txn, table, ids[k]);
        OnlyThat(old(storage.tables), now, storage.tables, table);
      }
      assert ids[..|ids|] == ids;
    }

    method Unlist(txn: TxnId, index: nat, ghost c: Cache) returns (r: Result<(), CatalogError>, ghost places: Places)
      requires storage.Valid() && txn in storage.active && Agrees(host, c, at, storage.tables) && index in c.indexes
      modifies storage
      ensures InTxn(txn) && r.Ok? && Only(old(storage.tables), storage.tables, INDEXES)
      ensures Agrees(host, RemoveIndex(c, index), places, storage.tables)
    {
      ReadableIndexes(host, c, at, storage.tables);
      r := DeleteRows(txn, INDEXES, index);
      places := at.(indexes := WithoutOwner(at.indexes, index));
      IndexGone(host, c, at, old(storage.tables), storage.tables, index);
    }

    method DropIndexIn(txn: TxnId, index: nat) returns (r: Result<(), CatalogError>)
      requires Ready() && txn in storage.active
      modifies this, storage
      ensures InTxn(txn) && (r.Ok? <==> index in old(cache).indexes)
      ensures r.Ok? ==>
              Ready() && Only(old(storage.tables), storage.tables, INDEXES) && cache == RemoveIndex(old(cache), index)
    {
      if index !in cache.indexes {
        return Err(Rejected);
      }
      ghost var places;
      r, places := Unlist(txn, index, cache);
      Adopt(RemoveIndex(cache, index), places);
    }

    method DropIndex(index: nat) returns (r: Result<(), CatalogError>)
      requires Ready()
      modifies this, storage
      ensures Ready() && storage.active.Keys == old(storage.active).Keys
      ensures r.Ok? <==> index in old(cache).indexes
      ensures r.Err? ==> SameContents(cache, old(cache)) && storage.tables == old(storage.tables)
      ensures r.Ok? ==> cache == RemoveIndex(old(cache), index) && Only(old(storage.tables), storage.tables, INDEXES)
    {
      var txn := Start();
      r := DropIndexIn(txn, index);
      Conclude(txn, r, old(cache), old(at), old(storage.tables), old(storage.active.Keys));
    }

    // ----------------------------------------------------------- dropping a table

    method DropNext(txn: TxnId, table: nat, x: nat, ghost c: Cache, ghost t: Tables, ghost left: set<nat>)
      requires Ready() && txn in storage.active && x in left && Thinned(c, cache, table, left)
               && Only(t, storage.tables, INDEXES)
      modifies this, storage
      ensures InTxn(txn) && Ready() && Thinned(c, cache, table, left - {x}) && Only(t, storage.tables, INDEXES)
    {
      ThinnedMore(c, cache, table, left, x);
      var r := DropIndexIn(txn, x);
      OnlyThat(t, old(storage.tables), storage.tables, INDEXES);
    }

    method DropIndexesOf(txn: TxnId, table: nat)
      requires Ready() && txn in storage.active
      modifies this, storage
      ensures InTxn(txn) && Ready() && Thinned(old(cache), cache, table, {})
              && Only(old(storage.tables), storage.tables, INDEXES)
    {
      var left := set x | x in cache.indexes && cache.indexes[x].table == table;
      Stocked(host, cache, at, storage.tables);
      ThinnedNone(cache, table, left);
      while left != {}
        invariant Ready() && InTxn(txn) && Thinned(old(cache), cache, table, left)
                  && Only(old(storage.tables), storage.tables, INDEXES)
        decreases |left|
      {
        var x :| x in left;
        DropNext(txn, table, x, old(cache), old(storage.tables), left);
        left := left - {x};
      }
    }

    method Erase(txn: TxnId, table: nat, ghost c: Cache) returns (r: Result<(), CatalogError>, ghost places: Places)
      requires storage.Valid() && txn in storage.active && Agrees(host, c, at, storage.tables)
      requires table >= FIRST_USER && table in c.byId && forall x :: x in c.indexes ==> c.indexes[x].table != table
      modifies storage
      ensures InTxn(txn) && r.Ok? && UserDataKept(old(storage.tables), storage.tables, table)
              && table !in storage.tables
      ensures Agrees(host, RemoveTable(c, table), places, storage.tables)
    {
      ghost var t := storage.tables;
      ReadableTables(host, c, at, t);
      r := DeleteRows(txn, COLUMNS, table);
      ghost var t1 := storage.tables;
      r := DeleteRows(txn, TABLES, table);
      ghost var t2 := storage.tables;
      var gone := storage.DropTable(txn, table);
      places := Places(at.tables - {table}, WithoutOwner(at.columns, table), at.indexes);
      Erased(t, t1, t2, storage.tables, table);
      TableGone(host, c, at, t, storage.tables, table);
      return Ok(()), places;
    }

    method DropTableIn(txn: TxnId, table: nat) returns (r: Result<(), CatalogError>)
      requires Ready() && txn in storage.active
      modifies this, storage
      ensures InTxn(txn) && (r.Ok? <==> table >= FIRST_USER && table in old(cache).byId)
      ensures r.Ok? ==> Ready() && TableForgotten(old(cache), cache, table)
      ensures r.Ok? ==> UserDataKept(old(storage.tables), storage.tables, table) && table !in storage.tables
    {
      if table < FIRST_USER {
        return Err(PermissionDenied);
      }
      if table !in cache.byId {
        return Err(TableMissing);
      }
      DropIndexesOf(txn, table);
      ghost var t := storage.tables;
      NoIndexLeft(old(cache), cache, table);
      Forgotten(old(cache), cache, table);
      r := DropBare(txn, table);
      StillKept(old(storage.tables), t, storage.tables, table);
    }

    // A table whose indexes are gone.
    method DropBare(txn: TxnId, table: nat) returns (r: Result<(), CatalogError>)
      requires Ready() && txn in storage.active && table >= FIRST_USER && table in cache.byId
      requires forall x :: x in cache.indexes ==> cache.indexes[x].table != table
      modifies this, storage
      ensures InTxn(txn) && r.Ok? && Ready() && cache == RemoveTable(old(cache), table)
      ensures UserDataKept(old(storage.tables), storage.tables, table) && table !in storage.tables
    {
      ghost var places;
      r, places := Erase(txn, table, cache);
      Adopt(RemoveTable(cache, table), places);
    }

    method DropTable(table: nat) returns (r: Result<(), CatalogError>)
      requires Ready()
      modifies this, storage
      ensures Ready() && storage.active.Keys == old(storage.active).Keys
      ensures r.Ok? <==> table >= FIRST_USER && table in old(cache).byId
      ensures r.Err? ==> SameContents(cache, old(cache)) && storage.tables == old(storage.tables)
      ensures r.Ok? ==> TableForgotten(old(cache), cache, table)
      ensures r.Ok? ==> UserDataKept(old(storage.tables), storage.tables, table) && table !in storage.tables
    {
      var txn := Start();
      r := DropTableIn(txn, table);
      Conclude(txn, r, old(cache), old(at), old(storage.tables), old(storage.active.Keys));
    }

    // --------------------------------------------------------- creating an index

    method ListNth(txn: TxnId, d: IndexDef, i: nat, ghost indexes: map<nat, IndexDef>,
                   ghost kept: map<(nat, nat), RowId>, ghost before: Tables)
      returns (r: Result<(), CatalogError>, ghost after: map<(nat, nat), RowId>)
      requires storage.Valid() && txn in storage.active && i < |d.columns|
      requires d.id !in indexes && d.id < U32 && d.table < U32 && forall x :: x in indexes ==> indexes[x].columns != []
      requires IndexSoFar(indexes, d, i, kept, before, storage.tables) && (i > 0 ==> NameUnused(indexes, d.name))
      modifies storage
      ensures InTxn(txn) && (r.Ok? <==> i <= MAX_ORDINAL && (i == 0 ==> NameUnused(indexes, d.name)))
      ensures r.Ok? ==> IndexSoFar(indexes, d, i + 1, after, before, storage.tables)
    {
      if i > MAX_ORDINAL {
        return Err(Rejected), kept;
      }
      var row := IndexRow(IndexRecord(d.id, i, PartOf(d, i))).value;
      NthClash(indexes, kept, storage.tables[INDEXES], d, i, row);
      var put := storage.InsertUnique(txn, INDEXES, row, INDEXES_KEYS);
      match put
      case Err(e) => return Err(Failed(e)), kept;
      case Ok(rid) =>
        after := kept[(d.id, i) := rid];
        NthListed(indexes, kept, old(storage.tables[INDEXES]), d, i, rid, row);
        OnlyThat(before, old(storage.tables), storage.tables, INDEXES);
        return Ok(()), after;
    }

    method ListIndex(txn: TxnId, d: IndexDef, ghost c: Cache)
      returns (r: Result<(), CatalogError>, ghost places: Places)
      requires storage.Valid() && txn in storage.active && Agrees(host, c, at, storage.tables)
      requires d.id == c.nextId < U32 && d.table in c.byId && d.columns != []
      modifies storage
      ensures InTxn(txn) && (r.Ok? <==> NameUnused(c.indexes, d.name) && |d.columns| <= MAX_ORDINAL + 1)
      ensures r.Ok? ==> Agrees(host, InsertIndex(c, d, c.byId[d.table].schema), places, storage.tables)
      ensures r.Ok? ==> Only(old(storage.tables), storage.tables, INDEXES)
    {
      ghost var t := storage.tables;
      Stocked(host, c, at, t);
      KnownId(host, c, at, t, d.table);
      FreshIndexId(c);
      ghost var after := at.indexes;
      for i := 0 to |d.columns|
        invariant InTxn(txn) && IndexSoFar(c.indexes, d, i, after, t, storage.tables)
        invariant i > 0 ==> NameUnused(c.indexes, d.name)
        invariant i <= MAX_ORDINAL + 1
      {
        r, after := ListNth(txn, d, i, c.indexes, after, t);
        if r.Err? {
          return r, at;
        }
      }
      places := at.(indexes := after);
      IndexAgrees(host, c, at, after, d, t, storage.tables);
      return Ok(()), places;
    }

    method CreateIndexIn(txn: TxnId, name: string, table: nat, columns: seq<string>, unique: bool)
      returns (r: Result<nat, CatalogError>)
      requires Ready() && txn in storage.active
      modifies this, storage
      ensures InTxn(txn) && (r.Ok? <==> CanCreateIndex(old(cache), name, table, columns))
      ensures r.Ok? ==> Ready() && Only(old(storage.tables), storage.tables, INDEXES)
      ensures r.Ok? ==> r.value == old(cache).nextId
      ensures r.Ok? ==>
              cache == InsertIndex(old(cache), IndexDef(r.value, name, table, columns, unique),
                old(cache).byId[table].schema)
    {
      ghost var c := cache;
      UnusedHere(c, name, table);
      var valid := ValidateIndex(cache, name, table, columns);
      if valid.Err? {
        return Err(valid.error);
      }
      var id := cache.nextId;
      if id + 1 >= U32 {
        return Err(IdsExhausted);
      }
      cache := cache.(nextId := id + 1);
      var d := IndexDef(id, name, table, columns, unique);
      var listed, places := ListIndex(txn, d, c);
      if listed.Err? {
        return Err(listed.error);
      }
      IndexBumped(c, cache, d, valid.value);
      Adopt(InsertIndex(cache, d, valid.value), places);
      return Ok(id);
    }

    method CreateIndex(name: string, table: nat, columns: seq<string>, unique: bool)
      returns (r: Result<nat, CatalogError>)
      requires Ready()
      modifies this, storage
      ensures Ready() && storage.active.Keys == old(storage.active).Keys
      ensures r.Ok? <==> CanCreateIndex(old(cache), name, table, columns)
      ensures r.Err? ==> SameContents(cache, old(cache)) && storage.tables == old(storage.tables)
      ensures r.Ok? ==> r.value == old(cache).nextId
      ensures r.Ok? ==>
              cache == InsertIndex(old(cache), IndexDef(r.value, name, table, columns, unique),
                old(cache).byId[table].schema)
      ensures r.Ok? ==> Only(old(storage.tables), storage.tables, INDEXES)
    {
      var txn := Start();
      r := CreateIndexIn(txn, name, table, columns, unique);
      Conclude(txn, r, old(cache), old(at), old(storage.tables), old(storage.active.Keys));
    }

    // -------------------------------------------------------------- bootstrapping

    method Describe(txn: TxnId, e: Entry, ghost c: Cache, ghost places: Places) returns (ghost after: Places)
      requires FloatsReadBack(host) && storage.Valid() && txn in storage.active
      requires Stored(host, c.byId, c.indexes, places, storage.tables) && Named(c) && Ahead(c)
      requires e.id !in c.byId && e.id < U32 && (e.schema, e.name) !in c.byName
      requires Defs(host, e.columns) && NamesOk(e.columns) && ColumnsFit(e.columns)
      modifies storage
      ensures InTxn(txn) && storage.tables.Keys == old(storage.tables).Keys
      ensures Stored(host, InsertTable(c, e).byId, c.indexes, after, storage.tables) && Named(InsertTable(c, e))
              && Ahead(InsertTable(c, e))
    {
      ghost var t := storage.tables;
      var bare := e.(columns := []);
      var put := RecordTable(txn, e.id, e.schema, e.name, c, places.tables);
      ghost var t1 := storage.tables;
      NoColumnsYet(host, c.byId, places.columns, t1[COLUMNS], bare);
      var r, columnsAt := RecordColumns(txn, e.id, e.columns, c.byId[e.id := bare], places.columns);
      after := Places(places.tables[e.id := put.value], columnsAt, places.indexes);
      FilledIn(c.byId, e);
      TablesReshaped(c.byId, after.tables, t1[TABLES], bare, e);
      TableNamed(c, e);
      TableInserted(c, e);
      SameKeys(t, TABLES, t1[TABLES]);
      SameKeys(t1, COLUMNS, storage.tables[COLUMNS]);
    }

    method MakeAll(txn: TxnId)
      requires storage.Valid() && txn in storage.active && storage.tables == map[]
      modifies storage
      ensures InTxn(txn) && storage.tables == map[TABLES := map[], COLUMNS := map[], INDEXES := map[]]
    {
      var a := storage.CreateTable(txn, TABLES);
      var b := storage.CreateTable(txn, COLUMNS);
      var c := storage.CreateTable(txn, INDEXES);
    }

    method DescribeAll(txn: TxnId, entries: seq<Entry>, ghost start: Places) returns (ghost places: Places)
      requires FloatsReadBack(host) && storage.Valid() && txn in storage.active && Buildable(host, entries)
      requires Stored(host, map[], map[], start, storage.tables)
      modifies storage
      ensures InTxn(txn) && storage.tables.Keys == old(storage.tables).Keys && Named(Built(entries))
              && Ahead(Built(entries))
      ensures Stored(host, Built(entries).byId, map[], places, storage.tables)
    {
      places := start;
      for i := 0 to |entries|
        invariant InTxn(txn) && storage.tables.Keys == old(storage.tables).Keys
                  && BuiltSoFar(host, entries[..i], places, storage.tables)
      {
        BuildNext(entries, i);
        places := Describe(txn, entries[i], Built(entries[..i]), places);
      }
      assert entries[..|entries|] == entries;
    }

    method BootstrapIn(txn: TxnId) returns (ghost c: Cache, ghost places: Places)
      requires FloatsReadBack(host) && storage.Valid() && txn in storage.active && storage.tables == map[]
      modifies storage
      ensures InTxn(txn) && Agrees(host, c, places, storage.tables) && c.indexes == map[] && c.byId == SystemTables()
    {
      MakeAll(txn);
      ghost var t := storage.tables;
      places := Places(map[], map[], map[]);
      NothingStored(host, places, t);
      SystemBuildable(host);
      SystemBuilt();
      places := DescribeAll(txn, SYSTEM_ENTRIES, places);
      c := Built(SYSTEM_ENTRIES);
    }

    // The catalog of an empty database describes its own three tables and nothing else.
    method Bootstrap() returns (r: Result<(), CatalogError>)
      requires FloatsReadBack(host) && storage.Valid() && storage.tables == map[]
      modifies this, storage
      ensures r.Ok? && Ready() && cache.byId == SystemTables() && cache.indexes == map[] && cache.nextId == FIRST_USER
      ensures storage.active.Keys == old(storage.active).Keys
    {
      var txn := storage.Begin();
      ghost var others := old(storage.active).Keys;
      OneMore(old(storage.active), txn, []);
      ghost var c, places := BootstrapIn(txn);
      TxnOver(storage.active, txn, others);
      var done := storage.Finish(txn);
      at := places;
      r := Reload(c);
      AgreesAgain(host, c, cache, at, storage.tables);
      FirstIdNext(cache);
    }

    // Opening the same database again finds the same catalog.
    method Reopen() returns (again: SystemCatalog)
      requires Ready()
      modifies storage
      ensures fresh(again) && again.storage == storage && again.host == host && again.Ready()
              && SameContents(again.cache, cache)
      ensures Ready() && storage.tables == old(storage.tables) && storage.active == old(storage.active)
    {
      again := new SystemCatalog(storage, host);
      again.at := at;
      var r := again.Reload(cache);
      AgreesAgain(host, cache, again.cache, at, storage.tables);
    }
  }

  // A new database, and a catalog that agrees with it.
  method NewDatabase() returns (catalog: SystemCatalog)
    ensures fresh(catalog) && fresh(catalog.storage) && catalog.Ready()
    ensures catalog.cache.byId == SystemTables() && catalog.cache.indexes == map[] && catalog.cache.nextId == FIRST_USER
  {
    var storage := new MemoryStorage();
    catalog := new SystemCatalog(storage, WHOLE_FLOATS);
    WholeFloatsReadBack();
    var r := catalog.Bootstrap();
  }

  // In a new database: a table in each of two schemas, an index on one, and an index of the same
  // name on the other. It passes the check, and is refused.
  method NameTaken() returns (catalog: SystemCatalog, r: Result<nat, CatalogError>)
    ensures fresh(catalog) && catalog.Ready()
    ensures IndexAccepted(catalog.cache, "i", FIRST_USER + 1, ["k"]) && r.Err?
  {
    catalog := NewDatabase();
    KeyOk(catalog.host);
    NameTakenElsewhere(catalog.cache);
    var key := SOLE_KEY;
    var a := catalog.CreateTable("a", "t", key);
    var b := catalog.CreateTable("b", "u", key);
    var i := catalog.CreateIndex("i", FIRST_USER, ["k"], false);
    r := catalog.CreateIndex("i", FIRST_USER + 1, ["k"], false);
  }
}
